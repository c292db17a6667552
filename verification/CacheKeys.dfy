/** readcache/cache.go: the key list of a set of tags, the names of tagged entries, and the TTL arithmetic. */
module CacheKeys {
  import opened CacheServer
  import opened Sorting

  // ---- tagKeys ----

  /** tagKeys without the hashing: sort, then skip each tag equal to the one before it. */
  method TagKeys(tags: seq<string>) returns (keys: seq<string>)
    ensures Ascending(keys, Before) && forall t :: t in keys <==> t in tags
  {
    StringsAreOrdered();
    var sorted := Sort(tags, Self, Before);
    SameElements(sorted, tags);
    keys := [];
    for i := 0 to |sorted|
      invariant Ascending(keys, Before) && (i == 0 ==> keys == [])
      invariant i > 0 ==> keys != [] && keys[|keys| - 1] == sorted[i - 1]
      invariant forall j | 0 <= j < i :: sorted[j] in keys
      invariant forall t | t in keys :: t in sorted
    {
      if i > 0 && sorted[i] == sorted[i - 1] { continue; }
      if i > 0 {
        assert !Before(Self(sorted[i]), Self(sorted[i - 1]));
        Extends(keys, sorted[i]);
      }
      keys := keys + [sorted[i]];
    }
  }

  lemma Extends(keys: seq<string>, key: string)
    requires StrictTotal(Before) && Ascending(keys, Before) && keys != [] && Before(keys[|keys| - 1], key)
    ensures Ascending(keys + [key], Before)
  {
  }

  /** The key list depends only on which tags there are, not on their order or repetition. */
  lemma TagKeysDependOnSet(tags: seq<string>, others: seq<string>, keys: seq<string>, otherKeys: seq<string>)
    requires Ascending(keys, Before) && forall t :: t in keys <==> t in tags
    requires Ascending(otherKeys, Before) && forall t :: t in otherKeys <==> t in others
    ensures keys == otherKeys <==> forall t :: t in tags <==> t in others
  {
    StringsAreOrdered();
    if forall t :: t in tags <==> t in others {
      AscendingUnique(keys, otherKeys, Before);
    }
  }

  // ---- names ----

  const DIGEST := 64
  const MARKER := ":tags:"

  /** The hexadecimal digits of a hash. */
  predicate IsDigest(hash: string) {
    |hash| == DIGEST && forall i | 0 <= i < |hash| :: '0' <= hash[i] <= '9' || 'a' <= hash[i] <= 'f'
  }

  /** A tagged entry is stored under its key, a marker, and the digest of the generations. */
  function TaggedName(key: string, hash: string): string { key + MARKER + hash }

  lemma TaggedNamesAreDistinct(key: string, hash: string, otherKey: string, otherHash: string)
    requires |hash| == |otherHash|
    ensures TaggedName(key, hash) == TaggedName(otherKey, otherHash) <==> key == otherKey && hash == otherHash
  {
    var a, b := TaggedName(key, hash), TaggedName(otherKey, otherHash);
    assert a[..|a| - |hash| - 6] == key && a[|a| - |hash|..] == hash;
    assert b[..|b| - |otherHash| - 6] == otherKey && b[|b| - |otherHash|..] == otherHash;
  }

  /** The key ends with the marker and a digest. */
  predicate LooksTagged(key: string) {
    var n := |key| - DIGEST;
    n >= |MARKER| && key[n - |MARKER|..n] == MARKER && IsDigest(key[n..])
  }

  /** A key given to Get is the stored name of some tagged entry exactly when it ends with the marker and a digest. */
  lemma PlainMeetsTagged(key: string)
    ensures LooksTagged(key) <==> exists other, hash :: IsDigest(hash) && key == TaggedName(other, hash)
  {
    var n := |key| - DIGEST;
    if LooksTagged(key) {
      assert key == TaggedName(key[..n - |MARKER|], key[n..]);
    }
    forall other, hash | IsDigest(hash) && key == TaggedName(other, hash) ensures LooksTagged(key) {
      assert key[n - |MARKER|..n] == MARKER && key[n..] == hash;
    }
  }

  /** The string behind a name, given the digest of each list of generations. */
  function Stored(name: Name, digest: seq<Gen> -> string): string {
    match name
    case Plain(key) => key
    case Tagged(key, gens) => TaggedName(key, digest(gens))
  }

  /** Where digests do not collide and no key given to Get ends like a tagged name, different names are stored apart. */
  lemma StoredNamesAreDistinct(a: Name, b: Name, digest: seq<Gen> -> string)
    requires forall gens :: IsDigest(digest(gens))
    requires forall g, h | digest(g) == digest(h) :: g == h
    requires (a.Plain? ==> !LooksTagged(a.key)) && (b.Plain? ==> !LooksTagged(b.key))
    ensures Stored(a, digest) == Stored(b, digest) <==> a == b
  {
    PlainMeetsTagged(a.key);
    PlainMeetsTagged(b.key);
    if a.Tagged? && b.Tagged? { TaggedNamesAreDistinct(a.key, digest(a.gens), b.key, digest(b.gens)); }
  }

  // ---- time to live, in nanoseconds ----

  const MAX_TTL: int := 24 * 3600 * 1_000_000_000
  const MILLISECOND: int := 1_000_000

  function Capped(ttl: int): int { if ttl > MAX_TTL then MAX_TTL else ttl }

  /** Until in the stored payload: the deadline, capped, less up to a tenth by one random byte. */
  function Until(deadline: int, now: int, random: int): int
  {
    var ttl := Capped(deadline - now);
    now + if ttl > MILLISECOND then ttl - random * (ttl / 2560) else ttl
  }

  /** Go divides towards zero. */
  function Milliseconds(d: int): int { if d >= 0 then d / MILLISECOND else -((-d) / MILLISECOND) }

  /** The lifetime the publish script is given; zero when the value is too large or empty. */
  function PublishTtl(until: int, now: int, storable: bool): int {
    if storable then Milliseconds(until - now) else 0
  }

  /** A hit is served only before Until. */
  predicate ServesAt(until: int, now: int) { now < until }

  /** A value is never served from the cache after the caller's deadline, nor a day after its load ended, whenever its
      publication arrives; jitter takes less than a tenth of the time that was left. The caller of the load itself is
      handed the value without looking at the deadline. */
  lemma NeverServedLate(deadline: int, now: int, random: int, at: int)
    requires 0 <= random <= 255 && ServesAt(Until(deadline, now, random), at)
    ensures at < deadline && at < now + 86_400_000_000_000
  {
    JitterOnlyShortens(deadline, now, random);
  }

  /** And it is served for at least nine tenths of the time that was left. */
  lemma ServedMostOfTheTime(deadline: int, now: int, random: int, at: int)
    requires 0 <= random <= 255 && deadline > now && 10 * (at - now) <= 9 * Capped(deadline - now)
    ensures ServesAt(Until(deadline, now, random), at)
  {
    JitterOnlyShortens(deadline, now, random);
  }

  lemma JitterOnlyShortens(deadline: int, now: int, random: int)
    requires 0 <= random <= 255
    ensures now + Capped(deadline - now) >= Until(deadline, now, random)
    ensures deadline > now ==> 10 * (Until(deadline, now, random) - now) > 9 * Capped(deadline - now)
  {
    var ttl := Capped(deadline - now);
    if ttl > MILLISECOND { Share(random, ttl / 2560, ttl); }
  }

  /** Different random bytes give different deadlines, from all of the time that was left down to less than 91
      hundredths of it, unless less than a millisecond was left. */
  lemma JitterSpreads(deadline: int, now: int, random: int, other: int)
    requires 0 <= random < other <= 255 && deadline - now > MILLISECOND
    ensures Until(deadline, now, other) < Until(deadline, now, random)
    ensures Until(deadline, now, 0) == now + Capped(deadline - now)
    ensures 100 * (Until(deadline, now, 255) - now) < 91 * Capped(deadline - now)
  {
    var unit := Capped(deadline - now) / 2560;
    assert (other - random) * unit > 0;
  }

  lemma Share(random: int, unit: int, ttl: int)
    requires 0 <= random <= 255 && 0 <= unit && 2560 * unit <= ttl && 0 < ttl
    ensures 0 <= random * unit && 10 * (random * unit) < ttl
  {
    assert random * unit <= 255 * unit;
  }

  /** The server forgets a value no later than Until when the publication is prompt, and less than a millisecond sooner,
      and keeps nothing that is already past it. */
  lemma ServerForgetsInTime(until: int, now: int, storable: bool)
    ensures PublishTtl(until, now, storable) > 0 ==> now + PublishTtl(until, now, storable) * MILLISECOND <= until
    ensures PublishTtl(until, now, storable) > 0 ==> until < now + (PublishTtl(until, now, storable) + 1) * MILLISECOND
    ensures PublishTtl(until, now, storable) > 0 <==> storable && until - now >= MILLISECOND
  {
  }
}
