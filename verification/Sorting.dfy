/** Sorting by a key, and the order of strings that Go's sort and strings.Compare use. */
module Sorting {
  /** The key of a list of strings sorted as they are. */
  function Self(s: string): string { s }

  ghost predicate StrictTotal<K(!new)>(less: (K, K) -> bool) {
    && (forall a :: !less(a, a))
    && (forall a, b, c :: less(a, b) && less(b, c) ==> less(a, c))
    && (forall a, b :: less(a, b) || a == b || less(b, a))
  }

  ghost predicate Sorted<T, K>(s: seq<T>, key: T -> K, less: (K, K) -> bool) {
    forall i, j | 0 <= i < j < |s| :: !less(key(s[j]), key(s[i]))
  }

  /** Insertion sort. Which of two elements with equal keys comes first is not promised. */
  method Sort<T, K(!new)>(s: seq<T>, key: T -> K, less: (K, K) -> bool) returns (r: seq<T>)
    requires StrictTotal(less)
    ensures Sorted(r, key, less) && multiset(r) == multiset(s)
  {
    r := [];
    for n := 0 to |s|
      invariant Sorted(r, key, less) && multiset(r) == multiset(s[..n])
    {
      assert s[..n + 1] == s[..n] + [s[n]];
      r := Insert(r, s[n], key, less);
    }
    assert s[..|s|] == s;
  }

  method Insert<T, K(!new)>(s: seq<T>, x: T, key: T -> K, less: (K, K) -> bool) returns (r: seq<T>)
    requires StrictTotal(less) && Sorted(s, key, less)
    ensures Sorted(r, key, less) && multiset(r) == multiset(s) + multiset{x}
  {
    var i := |s|;
    while i > 0 && less(key(x), key(s[i - 1]))
      invariant 0 <= i <= |s|
      invariant forall j | i <= j < |s| :: less(key(x), key(s[j]))
    {
      i := i - 1;
    }
    r := s[..i] + [x] + s[i..];
    InsertedElements(s, x, i);
    InsertedSorted(s, x, i, key, less);
  }

  lemma InsertedElements<T>(s: seq<T>, x: T, n: nat)
    requires n <= |s|
    ensures multiset(s[..n] + [x] + s[n..]) == multiset(s) + multiset{x}
  {
    assert s == s[..n] + s[n..];
  }

  lemma InsertedSorted<T, K(!new)>(s: seq<T>, x: T, n: nat, key: T -> K, less: (K, K) -> bool)
    requires StrictTotal(less) && Sorted(s, key, less) && n <= |s|
    requires n > 0 ==> !less(key(x), key(s[n - 1]))
    requires forall j | n <= j < |s| :: less(key(x), key(s[j]))
    ensures Sorted(s[..n] + [x] + s[n..], key, less)
  {
    var r := s[..n] + [x] + s[n..];
    forall i, j | 0 <= i < j < |r| ensures !less(key(r[j]), key(r[i])) {
      if j == n {
        assert r[i] == s[i] && (i == n - 1 || !less(key(s[n - 1]), key(s[i])));
      } else if i == n {
        assert r[j] == s[j - 1];
      } else {
        assert r[i] == s[if i < n then i else i - 1] && r[j] == s[if j < n then j else j - 1];
      }
    }
  }

  lemma SameElements<T>(a: seq<T>, b: seq<T>)
    requires multiset(a) == multiset(b)
    ensures forall x :: x in a <==> x in b
  {
    forall x ensures x in a <==> x in b {
      assert x in a <==> x in multiset(a);
      assert x in b <==> x in multiset(b);
    }
  }

  /** Where the first element of `other` stands in its rearrangement. */
  lemma TakeOut<R>(refs: seq<R>, other: seq<R>) returns (before: seq<R>, after: seq<R>)
    requires multiset(refs) == multiset(other) && other != []
    ensures refs == before + [other[0]] + after && |refs| == |before + after| + 1
    ensures multiset(before + after) == multiset(other[1..])
  {
    assert other[0] in multiset(other);
    before, after := SplitAt(refs, other[0]);
    WithoutOne(before, other[0], after);
    WithoutHead(other);
  }

  lemma SplitAt<R>(list: seq<R>, r: R) returns (before: seq<R>, after: seq<R>)
    requires r in multiset(list)
    ensures list == before + [r] + after && |list| == |before + after| + 1
  {
    var i :| 0 <= i < |list| && list[i] == r;
    before, after := list[..i], list[i + 1..];
  }

  lemma WithoutHead<R>(list: seq<R>)
    requires list != []
    ensures multiset(list[1..]) == multiset(list) - multiset{list[0]}
  {
    assert list == [list[0]] + list[1..];
  }

  lemma WithoutOne<R>(before: seq<R>, r: R, after: seq<R>)
    ensures multiset(before + after) == multiset(before + [r] + after) - multiset{r}
  {}

  ghost predicate DistinctKeys<T, K>(s: seq<T>, key: T -> K) {
    forall i, j | 0 <= i < j < |s| :: key(s[i]) != key(s[j])
  }

  /** In a sorted list equal keys stand side by side. */
  lemma AdjacentDiffer<T, K(!new)>(s: seq<T>, key: T -> K, less: (K, K) -> bool)
    requires StrictTotal(less) && Sorted(s, key, less)
    requires forall j | 0 < j < |s| :: key(s[j - 1]) != key(s[j])
    ensures DistinctKeys(s, key)
    ensures forall i, j | 0 <= i < j < |s| :: less(key(s[i]), key(s[j]))
  {
    forall i, j | 0 <= i < j < |s| ensures less(key(s[i]), key(s[j])) {
      assert !less(key(s[j]), key(s[i]));
      assert key(s[i]) != key(s[i + 1]) && !less(key(s[i + 1]), key(s[i]));
      assert i + 1 < j ==> !less(key(s[j]), key(s[i + 1]));
    }
  }

  /** Whether keys repeat does not depend on the order. */
  lemma {:induction false} DistinctAnyOrder<T, K>(a: seq<T>, b: seq<T>, key: T -> K)
    requires multiset(a) == multiset(b) && DistinctKeys(a, key)
    ensures DistinctKeys(b, key)
    decreases |b|
  {
    if b != [] {
      var before, after := TakeOut(a, b);
      var rest := before + after;
      assert forall i | 0 <= i < |rest| :: rest[i] == a[if i < |before| then i else i + 1];
      DistinctAnyOrder(rest, b[1..], key);
      SameElements(rest, b[1..]);
      forall j | 0 < j < |b| ensures key(b[0]) != key(b[j]) {
        assert b[j] == b[1..][j - 1] && b[j] in rest;
        assert a[|before|] == b[0];
      }
      forall i, j | 0 <= i < j < |b| ensures key(b[i]) != key(b[j]) {
        if i > 0 { assert key(b[1..][i - 1]) != key(b[1..][j - 1]); }
      }
    }
  }

  lemma PutBack<T>(before: seq<T>, x: T, after: seq<T>, rest: seq<T>)
    requires multiset(before + after) == multiset(rest)
    ensures multiset(before + [x] + after) == multiset([x] + rest)
  {
    WithoutOne(before, x, after);
    assert multiset(before + [x] + after) == multiset(before + after) + multiset{x};
  }

  /** A list within its limit, of valid members with different keys. */
  ghost predicate ValidList<T>(list: seq<T>, key: T -> string, valid: T -> bool, limit: nat) {
    |list| <= limit && (forall x | x in list :: valid(x)) && DistinctKeys(list, key)
  }

  lemma ValidListAnyOrder<T>(a: seq<T>, b: seq<T>, key: T -> string, valid: T -> bool, limit: nat)
    requires multiset(a) == multiset(b) && ValidList(a, key, valid, limit)
    ensures ValidList(b, key, valid, limit)
  {
    assert |a| == |multiset(a)| == |multiset(b)| == |b|;
    SameElements(a, b);
    DistinctAnyOrder(a, b, key);
  }

  /** Sorting a list and then looking at each member and its neighbour finds out whether it is valid. */
  method SortChecked<T(==)>(input: seq<T>, key: T -> string, valid: T -> bool, limit: nat)
    returns (sorted: seq<T>, ok: bool)
    ensures multiset(sorted) == multiset(input) && Sorted(sorted, key, Before)
    ensures ok <==> ValidList(input, key, valid, limit)
    ensures ok ==> forall i, j | 0 <= i < j < |sorted| :: Before(key(sorted[i]), key(sorted[j]))
  {
    sorted := SortByText(input, key);
    assert |sorted| == |multiset(sorted)| == |multiset(input)| == |input|;
    if |sorted| > limit { return sorted, false; }
    for j := 0 to |sorted|
      invariant forall i | 0 <= i < j :: valid(sorted[i])
      invariant forall i | 0 < i < j :: key(sorted[i - 1]) != key(sorted[i])
    {
      if !valid(sorted[j]) || (j > 0 && key(sorted[j]) == key(sorted[j - 1])) {
        ListRefused(input, sorted, key, valid, limit, j);
        return sorted, false;
      }
    }
    ListAccepted(input, sorted, key, valid, limit);
    ok := true;
  }

  method SortByText<T>(input: seq<T>, key: T -> string) returns (sorted: seq<T>)
    ensures multiset(sorted) == multiset(input) && Sorted(sorted, key, Before)
  {
    StringsAreOrdered();
    sorted := Sort(input, key, Before);
  }

  lemma ListRefused<T>(input: seq<T>, sorted: seq<T>, key: T -> string, valid: T -> bool, limit: nat, j: nat)
    requires multiset(sorted) == multiset(input) && j < |sorted|
    requires !valid(sorted[j]) || (j > 0 && key(sorted[j]) == key(sorted[j - 1]))
    ensures !ValidList(input, key, valid, limit)
  {
    SameElements(sorted, input);
    assert sorted[j] in input;
    if DistinctKeys(input, key) { DistinctAnyOrder(input, sorted, key); }
  }

  lemma ListAccepted<T>(input: seq<T>, sorted: seq<T>, key: T -> string, valid: T -> bool, limit: nat)
    requires Sorted(sorted, key, Before) && multiset(sorted) == multiset(input) && |input| <= limit
    requires forall j | 0 <= j < |sorted| :: valid(sorted[j])
    requires forall j | 0 < j < |sorted| :: key(sorted[j - 1]) != key(sorted[j])
    ensures ValidList(input, key, valid, limit)
    ensures forall i, j | 0 <= i < j < |sorted| :: Before(key(sorted[i]), key(sorted[j]))
  {
    StringsAreOrdered();
    SameElements(sorted, input);
    AdjacentDiffer(sorted, key, Before);
    DistinctAnyOrder(sorted, input, key);
  }

  /** Sorting has one result when elements with equal keys are equal. */
  lemma {:induction false} SortedUnique<T, K(!new)>(a: seq<T>, b: seq<T>, key: T -> K, less: (K, K) -> bool)
    requires StrictTotal(less) && Sorted(a, key, less) && Sorted(b, key, less) && multiset(a) == multiset(b)
    requires forall x, y | x in a && y in a && key(x) == key(y) :: x == y
    ensures a == b
    decreases |a|
  {
    assert |a| == |multiset(a)| == |multiset(b)| == |b|;
    if a != [] {
      SameElements(a, b);
      assert a[0] in b && b[0] in a;
      assert a[0] == b[0];
      RestAlike(a, b);
      SortedUnique(a[1..], b[1..], key, less);
      assert a == [a[0]] + a[1..] && b == [b[0]] + b[1..];
    }
  }

  lemma RestAlike<T>(a: seq<T>, b: seq<T>)
    requires a != [] && b != [] && a[0] == b[0] && multiset(a) == multiset(b)
    ensures multiset(a[1..]) == multiset(b[1..])
  {
    assert a == [] + [a[0]] + a[1..] && b == [] + [b[0]] + b[1..];
    WithoutOne([], a[0], a[1..]);
    WithoutOne([], b[0], b[1..]);
    assert [] + a[1..] == a[1..] && [] + b[1..] == b[1..];
  }

  ghost predicate Ascending<K>(s: seq<K>, less: (K, K) -> bool) {
    forall i, j | 0 <= i < j < |s| :: less(s[i], s[j])
  }

  /** A strictly ascending list is determined by its elements. */
  lemma {:induction false} AscendingUnique<K(!new)>(a: seq<K>, b: seq<K>, less: (K, K) -> bool)
    requires StrictTotal(less) && Ascending(a, less) && Ascending(b, less)
    requires forall x :: x in a <==> x in b
    ensures a == b
    decreases |a|
  {
    if b != [] { assert b[0] in b; }
    if a != [] {
      assert a[0] in a;
      assert a[0] == b[0];
      forall x ensures x in a[1..] <==> x in b[1..] {
        assert x in a[1..] <==> x in a && x != a[0] by { TailIsRest(a, less, x); }
        assert x in b[1..] <==> x in b && x != b[0] by { TailIsRest(b, less, x); }
      }
      AscendingUnique(a[1..], b[1..], less);
    }
  }

  lemma TailIsRest<K(!new)>(s: seq<K>, less: (K, K) -> bool, x: K)
    requires StrictTotal(less) && Ascending(s, less) && s != []
    ensures x in s[1..] <==> x in s && x != s[0]
  {
    assert s == [s[0]] + s[1..];
    if x in s[1..] {
      var i :| 0 <= i < |s| - 1 && s[1..][i] == x;
      assert less(s[0], s[i + 1]);
    }
  }

  // ---- strings ----

  predicate Before(a: string, b: string) {
    if b == "" then false
    else if a == "" then true
    else a[0] < b[0] || (a[0] == b[0] && Before(a[1..], b[1..]))
  }

  lemma {:induction false} BeforeIrreflexive(a: string)
    ensures !Before(a, a)
  {
    if a != "" { BeforeIrreflexive(a[1..]); }
  }

  lemma {:induction false} BeforeTransitive(a: string, b: string, c: string)
    requires Before(a, b) && Before(b, c)
    ensures Before(a, c)
  {
    if a != "" && a[0] == b[0] == c[0] { BeforeTransitive(a[1..], b[1..], c[1..]); }
  }

  lemma {:induction false} BeforeTotal(a: string, b: string)
    ensures Before(a, b) || a == b || Before(b, a)
  {
    if a != "" && b != "" && a[0] == b[0] {
      BeforeTotal(a[1..], b[1..]);
      assert a == [a[0]] + a[1..] && b == [b[0]] + b[1..];
    }
  }

  lemma StringsAreOrdered()
    ensures StrictTotal(Before)
  {
    forall a ensures !Before(a, a) { BeforeIrreflexive(a); }
    forall a, b, c | Before(a, b) && Before(b, c) ensures Before(a, c) { BeforeTransitive(a, b, c); }
    forall a, b ensures Before(a, b) || a == b || Before(b, a) { BeforeTotal(a, b); }
  }

  /** First component first, as the comparison of document key and locale. */
  predicate PairBefore(a: (string, string), b: (string, string)) {
    Before(a.0, b.0) || (a.0 == b.0 && Before(a.1, b.1))
  }

  lemma PairsAreOrdered()
    ensures StrictTotal(PairBefore)
  {
    StringsAreOrdered();
  }
}
