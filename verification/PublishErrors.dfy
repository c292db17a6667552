/** outbox/outbox.go: the error classes every Store and the Relay share, and the shard hash. */
module PublishErrors {
  import opened Basics

  /** A Go error with everything it wraps. `Join` is an error with several causes. */
  datatype Error =
    | Leaf(message: string)
    | Wrap(cause: Error)
    | Join(left: Error, right: Error)
    | Permanent(inner: Option<Error>)
    | Transient(inner: Option<Error>, retryAfter: int)
    | DeadLettered(inner: Option<Error>)

  /** Ordered by precedence, the least specific class first. */
  datatype Class = Unknown | TransientClass | PermanentClass | DeadLetteredClass

  function Rank(c: Class): nat {
    match c
    case Unknown => 0
    case TransientClass => 1
    case PermanentClass => 2
    case DeadLetteredClass => 3
  }

  /** The order in which `errors.As` visits an error: itself, then its causes, left to right. */
  function Chain(e: Error): seq<Error> {
    match e
    case Leaf(_) => [e]
    case Wrap(cause) => [e] + Chain(cause)
    case Join(l, r) => [e] + Chain(l) + Chain(r)
    case Permanent(inner) => [e] + (if inner.Some? then Chain(inner.value) else [])
    case Transient(inner, _) => [e] + (if inner.Some? then Chain(inner.value) else [])
    case DeadLettered(inner) => [e] + (if inner.Some? then Chain(inner.value) else [])
  }

  predicate AsDeadLettered(e: Error) { exists x | x in Chain(e) :: x.DeadLettered? }
  predicate AsPermanent(e: Error) { exists x | x in Chain(e) :: x.Permanent? }
  predicate AsTransient(e: Error) { exists x | x in Chain(e) :: x.Transient? }

  function Classify(e: Error): Class {
    if AsDeadLettered(e) then DeadLetteredClass
    else if AsPermanent(e) then PermanentClass
    else if AsTransient(e) then TransientClass
    else Unknown
  }

  predicate IsTerminal(e: Error) { Classify(e) == DeadLetteredClass }

  function FirstHint(chain: seq<Error>): int {
    if chain == [] then 0
    else if chain[0].Transient? then if chain[0].retryAfter <= 0 then 0 else chain[0].retryAfter
    else FirstHint(chain[1..])
  }

  function PublishRetryAfter(e: Error): int { FirstHint(Chain(e)) }

  lemma {:induction false} HintIsAsked(chain: seq<Error>)
    ensures FirstHint(chain) >= 0
    ensures FirstHint(chain) > 0 ==> exists x | x in chain :: x.Transient? && x.retryAfter == FirstHint(chain)
  {
    if chain != [] && !chain[0].Transient? { HintIsAsked(chain[1..]); }
  }

  /** A hint is never negative, and a positive one is what a transient cause of the error asked for. */
  lemma RetryAfterIsAsked(e: Error)
    ensures var hint := PublishRetryAfter(e);
      hint >= 0 && (hint > 0 ==> exists x | x in Chain(e) :: x.Transient? && x.retryAfter == hint)
  {
    HintIsAsked(Chain(e));
  }

  /** What the leftmost outermost transient cause asks for. */
  function Asked(e: Error): Option<int> {
    match e
    case Leaf(_) => None
    case Wrap(cause) => Asked(cause)
    case Join(l, r) => if Asked(l).Some? then Asked(l) else Asked(r)
    case Permanent(inner) => if inner.Some? then Asked(inner.value) else None
    case Transient(_, retryAfter) => Some(retryAfter)
    case DeadLettered(inner) => if inner.Some? then Asked(inner.value) else None
  }

  /** The first transient error of a chain, if any. */
  function FirstAsked(chain: seq<Error>): Option<int> {
    if chain == [] then None
    else if chain[0].Transient? then Some(chain[0].retryAfter)
    else FirstAsked(chain[1..])
  }

  lemma {:induction false} FirstAskedConcat(a: seq<Error>, b: seq<Error>)
    ensures FirstAsked(a + b) == if FirstAsked(a).Some? then FirstAsked(a) else FirstAsked(b)
  {
    if a == [] {
      assert a + b == b;
    } else {
      assert (a + b)[1..] == a[1..] + b;
      FirstAskedConcat(a[1..], b);
    }
  }

  lemma {:induction false} ChainAsks(e: Error)
    ensures FirstAsked(Chain(e)) == Asked(e)
  {
    match e {
      case Leaf(_) =>
      case Wrap(cause) => ChainAsks(cause); FirstAskedConcat([e], Chain(cause));
      case Join(l, r) =>
        ChainAsks(l); ChainAsks(r);
        FirstAskedConcat([e] + Chain(l), Chain(r)); FirstAskedConcat([e], Chain(l));
      case Permanent(inner) => if inner.Some? { ChainAsks(inner.value); FirstAskedConcat([e], Chain(inner.value)); }
      case Transient(inner, _) => assert Chain(e)[0] == e;
      case DeadLettered(inner) => if inner.Some? { ChainAsks(inner.value); FirstAskedConcat([e], Chain(inner.value)); }
    }
  }

  lemma {:induction false} FirstHintIs(chain: seq<Error>)
    ensures FirstHint(chain)
         == if FirstAsked(chain).Some? && FirstAsked(chain).value > 0 then FirstAsked(chain).value else 0
  {
    if chain != [] && !chain[0].Transient? { FirstHintIs(chain[1..]); }
  }

  /** The hint is exactly what the leftmost outermost transient cause asks for, however deep it is wrapped, and zero
      where that asks for nothing or there is none. */
  lemma RetryAfterIs(e: Error)
    ensures PublishRetryAfter(e) == if Asked(e).Some? && Asked(e).value > 0 then Asked(e).value else 0
  {
    ChainAsks(e);
    FirstHintIs(Chain(e));
  }

  /** The class an error contributes by its own type. */
  function OwnClass(e: Error): Class {
    match e
    case Permanent(_) => PermanentClass
    case Transient(_, _) => TransientClass
    case DeadLettered(_) => DeadLetteredClass
    case _ => Unknown
  }

  function Worse(a: Class, b: Class): Class { if Rank(a) < Rank(b) then b else a }

  /** Classification is compositional: an error has the most specific class among itself and its
      causes, so wrapping keeps a class and no wrapper can hide a cause. */
  function Severity(e: Error): Class {
    match e
    case Leaf(_) => Unknown
    case Wrap(cause) => Severity(cause)
    case Join(l, r) => Worse(Severity(l), Severity(r))
    case Permanent(inner) => Worse(OwnClass(e), if inner.Some? then Severity(inner.value) else Unknown)
    case Transient(inner, _) => Worse(OwnClass(e), if inner.Some? then Severity(inner.value) else Unknown)
    case DeadLettered(_) => DeadLetteredClass
  }

  lemma {:induction false} ClassifyIsSeverity(e: Error)
    ensures Classify(e) == Severity(e)
  {
    assert Chain(e)[0] == e;
    match e {
      case Leaf(_) =>
      case Wrap(cause) => ClassifyIsSeverity(cause); InChain([e], Chain(cause));
      case Join(l, r) =>
        ClassifyIsSeverity(l); ClassifyIsSeverity(r);
        InChain([e] + Chain(l), Chain(r)); InChain([e], Chain(l));
      case Permanent(inner) => if inner.Some? { ClassifyIsSeverity(inner.value); InChain([e], Chain(inner.value)); }
      case Transient(inner, _) => if inner.Some? { ClassifyIsSeverity(inner.value); InChain([e], Chain(inner.value)); }
      case DeadLettered(inner) => if inner.Some? { InChain([e], Chain(inner.value)); }
    }
  }

  lemma InChain(a: seq<Error>, b: seq<Error>)
    ensures forall x :: x in a + b <==> x in a || x in b
  {
  }

  newtype byte = x: int | 0 <= x < 256

  const DEFAULT_BUCKET_COUNT: nat := 16

  /** Exclusive or of two numbers of at most `bits` bits. */
  function Xor(a: nat, b: nat, bits: nat): nat {
    if bits == 0 then 0 else 2 * Xor(a / 2, b / 2, bits - 1) + if a % 2 != b % 2 then 1 else 0
  }

  /** FNV-1a over 32 bits, as hash/fnv computes it: a byte only touches the low eight bits before the product. */
  function Fnv1a(key: seq<byte>, h: nat): nat {
    if key == [] then h else Fnv1a(key[1..], Hashed(h, key[0]))
  }

  function Hashed(h: nat, b: byte): nat {
    ((h - h % 256 + Xor(h % 256, b as nat, 8)) * 16777619) % 0x1_0000_0000
  }

  function Bit(a: nat, i: nat): bool { if i == 0 then a % 2 == 1 else Bit(a / 2, i - 1) }

  /** Xor differs from zero in exactly the bits in which its arguments differ. */
  lemma {:induction false} XorBits(a: nat, b: nat, bits: nat, i: nat)
    requires i < bits
    ensures Bit(Xor(a, b, bits), i) <==> Bit(a, i) != Bit(b, i)
  {
    var low := if a % 2 != b % 2 then 1 else 0;
    assert Xor(a, b, bits) / 2 == Xor(a / 2, b / 2, bits - 1) && Xor(a, b, bits) % 2 == low;
    if i > 0 { XorBits(a / 2, b / 2, bits - 1, i - 1); }
  }

  /** The shard of a partition key; a count below one means the default. */
  function BucketOf(key: seq<byte>, count: int): (bucket: nat)
    ensures bucket < if count <= 0 then DEFAULT_BUCKET_COUNT else count
  {
    var n := if count <= 0 then DEFAULT_BUCKET_COUNT else count;
    Fnv1a(key, 2166136261) % n
  }

  function Differ(a: nat, b: nat): nat { if a % 2 != b % 2 then 1 else 0 }

  lemma XorNext(a: nat, b: nat, bits: nat)
    ensures Xor(a, b, bits + 1) == 2 * Xor(a / 2, b / 2, bits) + Differ(a, b)
  {}

  /** Eight bits of it, from the lowest. */
  lemma XorOfBytes(a: nat, b: nat)
    ensures Xor(a, b, 8) == Differ(a, b) + 2 * (Differ(a / 2, b / 2) + 2 * (Differ(a / 4, b / 4)
              + 2 * (Differ(a / 8, b / 8) + 2 * (Differ(a / 16, b / 16) + 2 * (Differ(a / 32, b / 32)
              + 2 * (Differ(a / 64, b / 64) + 2 * Differ(a / 128, b / 128)))))))
  {
    XorNext(a, b, 7);
    XorNext(a / 2, b / 2, 6);
    XorNext(a / 4, b / 4, 5);
    XorNext(a / 8, b / 8, 4);
    XorNext(a / 16, b / 16, 3);
    XorNext(a / 32, b / 32, 2);
    XorNext(a / 64, b / 64, 1);
    XorNext(a / 128, b / 128, 0);
    Halves(a);
    Halves(b);
  }

  lemma Halves(a: nat)
    ensures a / 2 / 2 == a / 4 && a / 4 / 2 == a / 8 && a / 8 / 2 == a / 16 && a / 16 / 2 == a / 32
    ensures a / 32 / 2 == a / 64 && a / 64 / 2 == a / 128
  {}

  lemma LowBits(a: nat, b: nat)
    requires a == 0xc5 && b == 97
    ensures Xor(a, b, 8) == 0xa4
  {
    XorOfBytes(a, b);
  }

  lemma HashedFrom(h: nat, b: byte, low: nat, x: nat)
    requires h % 256 == low && Xor(low, b as nat, 8) == x
    ensures Hashed(h, b) == ((h - low + x) * 16777619) % 0x1_0000_0000
  {}

  lemma FirstProduct()
    ensures ((2166136261 - 0xc5 + 0xa4) * 16777619) % 0x1_0000_0000 == 0xe40c292c
  {}

  lemma FirstHash(h: nat, b: byte, low: nat, x: nat)
    requires h == 2166136261 && b == 97 && low == 0xc5 && x == 0xa4
    ensures Hashed(h, b) == 0xe40c292c
  {
    LowBits(low, b as nat);
    assert h % 256 == low;
    HashedFrom(h, b, low, x);
    FirstProduct();
  }

  /** Bytes are hashed in their order, each on top of those before it. */
  lemma {:induction false} FnvConcat(a: seq<byte>, b: seq<byte>, h: nat)
    ensures Fnv1a(a + b, h) == Fnv1a(b, Fnv1a(a, h))
    decreases |a|
  {
    if a == [] {
      assert a + b == b;
    } else {
      assert (a + b)[1..] == a[1..] + b;
      FnvConcat(a[1..], b, Hashed(h, a[0]));
    }
  }

  /** The published vectors of 32-bit FNV-1a for "" and "a", and the bucket of the latter. */
  lemma FnvVectors(a: seq<byte>)
    requires a == [97]
    ensures Fnv1a([], 2166136261) == 0x811c9dc5
    ensures Fnv1a(a, 2166136261) == 0xe40c292c && BucketOf(a, 16) == BucketOf(a, 0) == 12
  {
    FirstHash(2166136261, a[0], 0xc5, 0xa4);
    assert a[1..] == [];
  }
}
