/** schemetransfer/runtime.go: the checks that tie a batch response to its request. */
module BatchResponses {
  import opened Basics
  import opened Strings

  datatype Mode = Search | Resolve | Identify

  /** The parts of a request that the checks look at; `identify` inputs only count. */
  datatype Request = Request(mode: Mode, limit: int, ids: seq<string>, inputs: nat)

  datatype Item = Item(id: string, title: string, selectable: bool, reason: string)

  datatype Match = Match(inputIndex: int, item: Option<Item>)

  const DEFAULT_LIMIT := 100

  predicate ValidItem(item: Item) {
    && TrimSpace(item.id) != "" && TrimSpace(item.title) != ""
    && (item.selectable || TrimSpace(item.reason) != "")
  }

  /** It has an id and a title, and a reason unless it can be chosen. */
  predicate IsSound(item: Item) {
    !AllSpace(item.id) && !AllSpace(item.title) && (!item.selectable ==> !AllSpace(item.reason))
  }

  ghost predicate Distinct<T>(s: seq<T>) { forall i, j | 0 <= i < j < |s| :: s[i] != s[j] }

  /** The first `n` keys have been seen, and none of them twice. */
  ghost predicate SeenUpTo<T>(seen: set<T>, keys: seq<T>, n: nat) {
    && n <= |keys| && (forall i, j | 0 <= i < j < n :: keys[i] != keys[j])
    && (forall i | 0 <= i < n :: keys[i] in seen) && (forall x | x in seen :: exists i | 0 <= i < n :: keys[i] == x)
  }

  lemma NextKey<T>(seen: set<T>, keys: seq<T>, n: nat)
    requires SeenUpTo(seen, keys, n) && n < |keys|
    ensures if keys[n] in seen then !Distinct(keys) else SeenUpTo(seen + {keys[n]}, keys, n + 1)
  {
    if keys[n] in seen { var i :| 0 <= i < n && keys[i] == keys[n]; }
  }

  function Ids(items: seq<Item>): seq<string> { seq(|items|, i requires 0 <= i < |items| => items[i].id) }

  function Indexes(matches: seq<Match>): seq<int> {
    seq(|matches|, i requires 0 <= i < |matches| => matches[i].inputIndex)
  }

  /** validateResourceItem, or any other check of one item. */
  type Check = Item -> bool

  function LimitOf(r: Request): int {
    if r.mode == Resolve then |r.ids| else if r.limit > 0 then r.limit else DEFAULT_LIMIT
  }

  predicate GoodItem(r: Request, item: Item, valid: Check) { valid(item) && (r.mode == Resolve ==> item.id in r.ids) }

  ghost predicate ValidLookup(r: Request, items: seq<Item>, nextCursor: string, valid: Check) {
    && r.mode != Identify && (r.mode == Resolve ==> nextCursor == "") && |items| <= LimitOf(r)
    && Distinct(Ids(items)) && (forall i | 0 <= i < |items| :: GoodItem(r, items[i], valid))
  }

  method Allowed(ids: seq<string>) returns (allowed: set<string>)
    ensures forall id :: id in allowed <==> id in ids
  {
    allowed := {};
    for i := 0 to |ids|
      invariant forall id :: id in allowed <==> exists j | 0 <= j < i :: ids[j] == id
    {
      allowed := allowed + {ids[i]};
    }
  }

  /** LookupResponse.ValidateFor, once the request and the response have their shapes. */
  method ValidateLookup(r: Request, items: seq<Item>, nextCursor: string, valid: Check) returns (ok: bool)
    ensures ok <==> ValidLookup(r, items, nextCursor, valid)
    ensures ok && r.mode == Search ==> |items| <= if r.limit > 0 then r.limit else 100
    ensures ok && r.mode == Resolve ==> nextCursor == "" && forall item | item in items :: item.id in r.ids
    ensures ok ==> r.mode != Identify && forall item | item in items :: valid(item)
  {
    if r.mode == Identify { return false; }
    var limit := DEFAULT_LIMIT;
    if r.limit > 0 { limit := r.limit; }
    var allowed: set<string> := {};
    if r.mode == Resolve {
      limit := |r.ids|;
      allowed := Allowed(r.ids);
      if nextCursor != "" { return false; }
    }
    if |items| > limit { return false; }
    var seen: set<string> := {};
    for i := 0 to |items|
      invariant SeenUpTo(seen, Ids(items), i) && forall j | 0 <= j < i :: GoodItem(r, items[j], valid)
    {
      NextKey(seen, Ids(items), i);
      if items[i].id in seen { return false; }
      seen := seen + {items[i].id};
      if r.mode == Resolve && items[i].id !in allowed { return false; }
      if !valid(items[i]) { return false; }
    }
    return true;
  }

  predicate GoodMatch(r: Request, m: Match, valid: Check) {
    0 <= m.inputIndex < r.inputs && (m.item.Some? ==> valid(m.item.value))
  }

  ghost predicate ValidIdentify(r: Request, matches: seq<Match>, valid: Check) {
    && r.mode == Identify && |matches| == r.inputs
    && Distinct(Indexes(matches)) && forall i | 0 <= i < |matches| :: GoodMatch(r, matches[i], valid)
  }

  /** IdentifyResponse.ValidateFor. That no index is negative is said by the JSON Schema of the response. */
  method ValidateIdentify(r: Request, matches: seq<Match>, valid: Check) returns (ok: bool)
    ensures ok <==> ValidIdentify(r, matches, valid)
  {
    if r.mode != Identify { return false; }
    if exists i | 0 <= i < |matches| :: matches[i].inputIndex < 0 { return false; }
    if |matches| != r.inputs { return false; }
    var seen: set<int> := {};
    for i := 0 to |matches|
      invariant SeenUpTo(seen, Indexes(matches), i) && forall j | 0 <= j < i :: GoodMatch(r, matches[j], valid)
    {
      NextKey(seen, Indexes(matches), i);
      if matches[i].inputIndex >= r.inputs || matches[i].inputIndex in seen { return false; }
      seen := seen + {matches[i].inputIndex};
      if matches[i].item.Some? && !valid(matches[i].item.value) { return false; }
    }
    return true;
  }

  /** Both, with the check of one item that the source makes. */
  method ValidateResponses(r: Request, items: seq<Item>, nextCursor: string, matches: seq<Match>) returns (ok: bool)
    ensures ok <==>
      if r.mode == Identify then ValidIdentify(r, matches, ValidItem)
      else ValidLookup(r, items, nextCursor, ValidItem)
    ensures ok && r.mode != Identify ==> forall item | item in items :: IsSound(item)
    ensures ok && r.mode == Identify ==>
      forall m | m in matches && m.item.Some? :: 0 <= m.inputIndex < r.inputs && IsSound(m.item.value)
  {
    forall item: Item ensures ValidItem(item) <==> IsSound(item) {
      BlankIff(item.id);
      BlankIff(item.title);
      BlankIff(item.reason);
    }
    if r.mode == Identify { ok := ValidateIdentify(r, matches, ValidItem); }
    else { ok := ValidateLookup(r, items, nextCursor, ValidItem); }
  }

  // ---- what the counts imply ----

  lemma {:induction false} DistinctSize<T>(s: seq<T>, found: set<T>)
    requires Distinct(s) && forall x :: x in found <==> x in s
    ensures |found| == |s|
    decreases |s|
  {
    if s != [] {
      var rest := s[1..];
      assert s == [s[0]] + rest;
      DistinctSize(rest, found - {s[0]});
    } else {
      assert found == {};
    }
  }

  function UpTo(n: nat): set<int> { if n == 0 then {} else UpTo(n - 1) + {n - 1} }

  lemma {:induction false} UpToSize(n: nat)
    ensures |UpTo(n)| == n && forall i :: i in UpTo(n) <==> 0 <= i < n
  {
    if n > 0 { UpToSize(n - 1); }
  }

  lemma SameSize<T>(a: set<T>, b: set<T>)
    requires a <= b && |a| == |b|
    ensures a == b
  {
    assert b == a + (b - a) && |b| == |a| + |b - a|;
  }

  /** `n` different numbers below `n` are all of them. */
  lemma Pigeonhole(keys: seq<int>, n: nat)
    requires Distinct(keys) && |keys| == n && forall i | 0 <= i < n :: 0 <= keys[i] < n
    ensures forall k | 0 <= k < n :: k in keys
  {
    var found := set k | k in keys;
    DistinctSize(keys, found);
    UpToSize(n);
    assert found <= UpTo(n);
    SameSize(found, UpTo(n));
  }

  /** An accepted identify response answers every input exactly once: matches and inputs are counted, indexes may not
      repeat, and so none is left out. */
  lemma OneAnswerForEach(r: Request, matches: seq<Match>, valid: Check, input: nat)
    requires ValidIdentify(r, matches, valid) && input < r.inputs
    ensures exists i | 0 <= i < |matches| ::
      matches[i].inputIndex == input && forall j | 0 <= j < |matches| && matches[j].inputIndex == input :: j == i
  {
    var keys := Indexes(matches);
    forall i | 0 <= i < |keys| ensures 0 <= keys[i] < r.inputs { assert GoodMatch(r, matches[i], valid); }
    Pigeonhole(keys, r.inputs);
    assert input in keys;
    var i :| 0 <= i < |keys| && keys[i] == input;
    assert matches[i].inputIndex == input;
    forall j | 0 <= j < |matches| && matches[j].inputIndex == input ensures j == i { assert keys[j] == keys[i]; }
  }

  lemma {:induction false} DistinctCount<T>(s: seq<T>, x: T)
    requires Distinct(s)
    ensures multiset(s)[x] == if x in s then 1 else 0
    decreases |s|
  {
    if s != [] {
      var rest := s[1..];
      assert s == [s[0]] + rest;
      DistinctCount(rest, x);
    }
  }

  /** An accepted resolve response has at most one item for each identity asked for, however often it was asked for, and
      none for any other; so there are no more items than identities. */
  lemma ResolvedOnce(r: Request, items: seq<Item>, nextCursor: string, valid: Check)
    requires ValidLookup(r, items, nextCursor, valid) && r.mode == Resolve
    ensures forall id :: multiset(Ids(items))[id] <= if id in r.ids then 1 else 0
    ensures |items| <= |set id | id in r.ids|
  {
    var ids := Ids(items);
    var found, asked := set id | id in ids, set id | id in r.ids;
    DistinctSize(ids, found);
    forall id | id in ids ensures id in r.ids {
      var i :| 0 <= i < |ids| && ids[i] == id;
      assert GoodItem(r, items[i], valid);
    }
    forall id ensures multiset(ids)[id] <= if id in r.ids then 1 else 0 { DistinctCount(ids, id); }
    assert asked == found + (asked - found);
  }
}
