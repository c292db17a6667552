/** Writes that touch different places can be made in any order. */
module Placements {
  import opened Sorting

  /** Writing `r` into a state, where the place it names exists, and when two such places are apart. */
  datatype Store<!S, !R> = Store(has: (S, R) -> bool, put: (S, R) -> S, apart: (R, R) -> bool)

  ghost predicate Lawful<S(!new), R(!new)>(st: Store<S, R>) {
    && (forall a, b :: st.apart(a, b) == st.apart(b, a))
    && (forall s, a, b | st.has(s, a) && st.has(s, b) && st.apart(a, b) ::
          st.has(st.put(s, a), b) && st.put(st.put(s, a), b) == st.put(st.put(s, b), a))
  }

  /** Every place exists and no two are the same or within one another. */
  predicate AllFound<S, R>(st: Store<S, R>, s: S, refs: seq<R>) {
    && (forall i | 0 <= i < |refs| :: st.has(s, refs[i]))
    && (forall i, j | 0 <= i < j < |refs| :: st.apart(refs[i], refs[j]))
  }

  /** All writes, in the order listed. */
  function Filled<S, R>(st: Store<S, R>, s: S, refs: seq<R>): S
    decreases |refs|
  {
    if refs == [] then s else Filled(st, st.put(s, refs[0]), refs[1..])
  }

  /** All writes, last one first. */
  function Undone<S, R>(st: Store<S, R>, s: S, refs: seq<R>): S
    decreases |refs|
  {
    if refs == [] then s else Undone(st, st.put(s, refs[|refs| - 1]), refs[..|refs| - 1])
  }

  lemma FilledFirst<S, R>(st: Store<S, R>, s: S, r: R, rest: seq<R>)
    ensures Filled(st, s, [r] + rest) == Filled(st, st.put(s, r), rest)
  {
    assert ([r] + rest)[1..] == rest;
  }

  lemma FoundAfterPut<S(!new), R(!new)>(st: Store<S, R>, s: S, r: R, rest: seq<R>)
    requires Lawful(st) && AllFound(st, s, [r] + rest)
    ensures AllFound(st, st.put(s, r), rest)
  {
    var all := [r] + rest;
    forall i | 0 <= i < |rest| ensures st.has(st.put(s, r), rest[i]) {
      assert all[0] == r && all[i + 1] == rest[i];
    }
    forall i, j | 0 <= i < j < |rest| ensures st.apart(rest[i], rest[j]) {
      assert all[i + 1] == rest[i] && all[j + 1] == rest[j];
    }
  }

  /** Any one of the writes may come first. */
  lemma {:induction false} AnyFirst<S(!new), R(!new)>(st: Store<S, R>, s: S, before: seq<R>, r: R, after: seq<R>)
    requires Lawful(st) && AllFound(st, s, before + [r] + after)
    ensures AllFound(st, s, [r] + (before + after))
    ensures Filled(st, s, before + [r] + after) == Filled(st, s, [r] + (before + after))
    decreases |before|
  {
    OneMoved(st, s, before, r, after);
    if before == [] {
      assert before + [r] + after == [r] + (before + after);
    } else {
      var first, rest := before[0], before[1..];
      assert before + [r] + after == [first] + (rest + [r] + after);
      FoundAfterPut(st, s, first, rest + [r] + after);
      FilledFirst(st, s, first, rest + [r] + after);
      AnyFirst(st, st.put(s, first), rest, r, after);
      assert before + after == [first] + (rest + after);
      Swapped(st, s, first, r, rest + after);
    }
  }

  lemma Swapped<S(!new), R(!new)>(st: Store<S, R>, s: S, a: R, b: R, rest: seq<R>)
    requires Lawful(st) && AllFound(st, s, [b] + ([a] + rest))
    ensures Filled(st, st.put(s, a), [b] + rest) == Filled(st, s, [b] + ([a] + rest))
  {
    FilledFirst(st, st.put(s, a), b, rest);
    FilledFirst(st, s, b, [a] + rest);
    FilledFirst(st, st.put(s, b), a, rest);
    assert ([b] + ([a] + rest))[0] == b && ([b] + ([a] + rest))[1] == a;
  }

  lemma OneMoved<S(!new), R(!new)>(st: Store<S, R>, s: S, before: seq<R>, r: R, after: seq<R>)
    requires Lawful(st) && AllFound(st, s, before + [r] + after)
    ensures AllFound(st, s, [r] + (before + after))
  {
    var all, moved, n := before + [r] + after, [r] + (before + after), |before|;
    assert forall i | 0 <= i < |all| :: moved[i] == all[if i == 0 then n else if i <= n then i - 1 else i];
  }

  /** Writes to places apart give the same state in every order. */
  lemma {:induction false} AnyOrder<S(!new), R(!new)>(st: Store<S, R>, s: S, refs: seq<R>, other: seq<R>)
    requires Lawful(st) && AllFound(st, s, refs) && multiset(refs) == multiset(other)
    ensures Filled(st, s, refs) == Filled(st, s, other)
    decreases |refs|
  {
    if other == [] {
      assert |multiset(refs)| == 0;
    } else {
      var r := other[0];
      var before, after := TakeOut(refs, other);
      AnyFirst(st, s, before, r, after);
      FoundAfterPut(st, s, r, before + after);
      FilledFirst(st, s, r, before + after);
      AnyOrder(st, st.put(s, r), before + after, other[1..]);
    }
  }

  lemma {:induction false} UndoneIsFilled<S(!new), R(!new)>(st: Store<S, R>, s: S, refs: seq<R>)
    requires Lawful(st) && AllFound(st, s, refs)
    ensures Undone(st, s, refs) == Filled(st, s, refs)
    decreases |refs|
  {
    if refs != [] {
      var r, before := refs[|refs| - 1], refs[..|refs| - 1];
      assert refs == before + [r] + [] && before + [] == before;
      AnyFirst(st, s, before, r, []);
      FoundAfterPut(st, s, r, before);
      FilledFirst(st, s, r, before);
      UndoneIsFilled(st, st.put(s, r), before);
    }
  }

  lemma UndoneLast<S, R>(st: Store<S, R>, s: S, refs: seq<R>, r: R)
    ensures Undone(st, s, refs + [r]) == Undone(st, st.put(s, r), refs)
  {
    assert (refs + [r])[..|refs|] == refs;
  }
}
