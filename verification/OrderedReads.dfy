/** What the database returns for a query ordered by the primary key with a limit. */
module OrderedReads {
  import opened OutboxTables

  /** The smallest keys in ascending order, and all of them unless the limit cuts them off. */
  ghost predicate IsFirst(keys: set<Key>, limit: nat, first: seq<Key>) {
    && |first| <= limit
    && (forall i, j | 0 <= i < j < |first| :: Less(first[i], first[j]))
    && (forall i | 0 <= i < |first| :: first[i] in keys)
    && (forall k | k in keys :: k in first || (|first| == limit && forall i | 0 <= i < |first| :: Less(first[i], k)))
  }

  method First(keys: set<Key>, limit: nat) returns (first: seq<Key>)
    ensures IsFirst(keys, limit, first)
  {
    var rest := keys;
    first := [];
    while rest != {} && |first| < limit
      invariant |first| <= limit && rest <= keys
      invariant forall k | k in keys :: k in rest || k in first
      invariant forall i | 0 <= i < |first| :: first[i] in keys
      invariant forall i, j | 0 <= i < j < |first| :: Less(first[i], first[j])
      invariant forall i, k | 0 <= i < |first| && k in rest :: Less(first[i], k)
      decreases rest
    {
      var k := Smallest(rest);
      first := first + [k];
      rest := rest - {k};
    }
  }

  method Smallest(keys: set<Key>) returns (least: Key)
    requires keys != {}
    ensures least in keys && forall k | k in keys && k != least :: Less(least, k)
  {
    least :| least in keys;
    var rest := keys - {least};
    while rest != {}
      invariant rest <= keys && least in keys && least !in rest
      invariant forall k | k in keys && k !in rest && k != least :: Less(least, k)
      decreases rest
    {
      var k :| k in rest;
      rest := rest - {k};
      if Less(k, least) { least := k; }
    }
  }
}
