/** ydb/outbox.go: keyset pagination over the dead-letter table. */
module DeadLetterListing {
  import opened Basics
  import opened OrderedReads
  import opened OutboxTables

  const DEFAULT_PAGE: nat := 100
  const MAX_PAGE: nat := 1000

  function PageLimit(limit: int): (n: nat)
    ensures 0 < n <= 1000 && (0 < limit <= 1000 ==> n == limit) && (limit > 1000 ==> n == 1000)
    ensures limit <= 0 ==> n == 100
  {
    if limit <= 0 then DEFAULT_PAGE else if limit > MAX_PAGE then MAX_PAGE else limit
  }

  datatype Page = Page(items: seq<Key>, next: Option<Key>)

  predicate After(k: Key, after: Option<Key>) { after == None || Less(after.value, k) }

  /** One page of the keys above `after`: the smallest ones, with a cursor exactly when some are left. */
  ghost predicate IsPage(dead: set<Key>, after: Option<Key>, limit: int, page: Page) {
    && |page.items| <= PageLimit(limit)
    && (forall i, j | 0 <= i < j < |page.items| :: Less(page.items[i], page.items[j]))
    && (forall i | 0 <= i < |page.items| :: page.items[i] in dead && After(page.items[i], after))
    && (page.next != None ==> |page.items| == PageLimit(limit) && page.next.value == page.items[|page.items| - 1])
    && (forall k | k in dead && After(k, after) ::
          k in page.items || (page.next != None && Less(page.next.value, k)))
    && (page.next != None ==> exists k :: k in dead && Less(page.next.value, k))
  }

  /** ListDeadLetters: read one row more than the page holds, and drop it when it is there. */
  method ListDeadLetters(dead: set<Key>, after: Option<Key>, limit: int) returns (page: Page)
    ensures IsPage(dead, after, limit, page)
  {
    var size := PageLimit(limit);
    var items := First((set k | k in dead && After(k, after)), size + 1);
    if |items| <= size { return Page(items, None); }
    page := Page(items[..size], Some(items[size - 1]));
    assert Less(page.next.value, items[size]);
    forall k | k in dead && After(k, after) ensures k in page.items || Less(page.next.value, k) {
      if k in items {
        var i :| 0 <= i < |items| && items[i] == k;
        if i < size { assert page.items[i] == k; } else { assert i == size; }
      }
    }
  }

  // ---- following Next ----

  /** `pages[i]` was read from `tables[i]`, the state of the dead table at that moment, after `pages[i-1]`'s cursor. */
  ghost predicate IsListing(tables: seq<set<Key>>, limits: seq<int>, pages: seq<Page>) {
    && |tables| == |limits| == |pages|
    && (forall i | 0 <= i < |pages| :: IsPageOf(tables, limits, pages, i))
    && (forall i | 0 <= i < |pages| - 1 :: pages[i].next != None)
  }

  ghost predicate IsPageOf(tables: seq<set<Key>>, limits: seq<int>, pages: seq<Page>, i: nat)
    requires |tables| == |limits| == |pages| && i < |pages|
  {
    IsPage(tables[i], Cursor(pages, i), limits[i], pages[i])
  }

  function Cursor(pages: seq<Page>, i: nat): Option<Key>
    requires i <= |pages|
  {
    if i == 0 then None else pages[i - 1].next
  }

  /** The rows of the first `n` pages. */
  function Listed(pages: seq<Page>, n: nat): seq<Key>
    requires n <= |pages|
  {
    if n == 0 then [] else Listed(pages, n - 1) + pages[n - 1].items
  }

  ghost predicate Ascending(s: seq<Key>) { forall i, j | 0 <= i < j < |s| :: Less(s[i], s[j]) }

  /** All of `s` is at or before the cursor. */
  ghost predicate UpTo(s: seq<Key>, cursor: Option<Key>) {
    cursor != None ==> forall i | 0 <= i < |s| :: s[i] == cursor.value || Less(s[i], cursor.value)
  }

  lemma PageExtends(before: seq<Key>, dead: set<Key>, after: Option<Key>, limit: int, page: Page)
    requires Ascending(before) && UpTo(before, after) && (after == None ==> before == [])
    requires IsPage(dead, after, limit, page)
    ensures Ascending(before + page.items) && UpTo(before + page.items, page.next)
  {
    forall i, j | 0 <= i < |before| && 0 <= j < |page.items| ensures Less(before[i], page.items[j]) {
      assert After(page.items[j], after);
    }
    if page.next != None {
      assert page.next.value == page.items[|page.items| - 1];
    }
  }

  /** However the table changes between pages, keys come in strictly increasing order, so none twice. */
  lemma {:induction false} ListingAscends(tables: seq<set<Key>>, limits: seq<int>, pages: seq<Page>, n: nat)
    requires IsListing(tables, limits, pages) && n <= |pages|
    ensures Ascending(Listed(pages, n)) && UpTo(Listed(pages, n), Cursor(pages, n))
  {
    if n > 0 {
      ListingAscends(tables, limits, pages, n - 1);
      var i := n - 1;
      var dead, after, limit, page, before := tables[i], Cursor(pages, i), limits[i], pages[i], Listed(pages, i);
      assert IsPageOf(tables, limits, pages, i);
      assert i > 0 ==> pages[i - 1].next != None;
      PageExtends(before, dead, after, limit, page);
    }
  }

  /** A key present at every read is listed, or still ahead of the cursor. */
  lemma {:induction false} NothingSkipped(tables: seq<set<Key>>, limits: seq<int>, pages: seq<Page>, k: Key, n: nat)
    requires IsListing(tables, limits, pages) && 0 < n <= |pages|
    requires forall i | 0 <= i < |tables| :: k in tables[i]
    ensures k in Listed(pages, n) || (pages[n - 1].next != None && Less(pages[n - 1].next.value, k))
  {
    assert k in tables[n - 1] && IsPageOf(tables, limits, pages, n - 1);
    if n > 1 {
      NothingSkipped(tables, limits, pages, k, n - 1);
    }
  }

  /** A finished listing of a changing table has every key that was there throughout exactly once, in order. */
  lemma ListedExactlyOnce(tables: seq<set<Key>>, limits: seq<int>, pages: seq<Page>, k: Key)
    requires IsListing(tables, limits, pages) && pages != [] && pages[|pages| - 1].next == None
    requires forall i | 0 <= i < |tables| :: k in tables[i]
    ensures Ascending(Listed(pages, |pages|))
    ensures multiset(Listed(pages, |pages|))[k] == 1
  {
    NothingSkipped(tables, limits, pages, k, |pages|);
    ListingAscends(tables, limits, pages, |pages|);
    AscendingHasNoRepeats(Listed(pages, |pages|), k);
  }

  lemma {:induction false} AscendingHasNoRepeats(s: seq<Key>, k: Key)
    requires Ascending(s)
    ensures multiset(s)[k] == if k in s then 1 else 0
  {
    if s != [] {
      var n := |s| - 1;
      assert s == s[..n] + [s[n]];
      AscendingHasNoRepeats(s[..n], k);
      assert s[n] !in s[..n];
    }
  }

  lemma LastIsLargest(s: seq<Key>)
    requires Ascending(s) && s != []
    ensures forall x | x in s :: x == s[|s| - 1] || Less(x, s[|s| - 1])
  {}

  /** An unchanged table: following Next terminates and yields exactly its keys. */
  method ListAll(dead: set<Key>, limit: int) returns (keys: seq<Key>)
    ensures Ascending(keys) && forall k :: k in keys <==> k in dead
  {
    keys := [];
    var after: Option<Key> := None;
    ghost var left := dead;
    while true
      invariant Ascending(keys) && forall k :: k in keys <==> k in dead && k !in left
      invariant forall k :: k in left <==> k in dead && After(k, after)
      invariant UpTo(keys, after) && (after == None ==> keys == [])
      decreases left
    {
      var page := ListDeadLetters(dead, after, limit);
      PageExtends(keys, dead, after, limit, page);
      ghost var now := set k | k in left && k !in page.items;
      if page.next != None {
        var cursor := page.next.value;
        assert forall x | x in page.items :: x == cursor || Less(x, cursor) by { LastIsLargest(page.items); }
        forall k ensures k in now <==> k in dead && After(k, page.next) {
          if k in dead && After(k, page.next) {
            assert page.next.value in page.items;
          }
        }
        assert page.next.value in left && page.next.value !in now;
      }
      keys, left := keys + page.items, now;
      if page.next == None { return; }
      after := page.next;
    }
  }

  // ---- the cursor survives the trip through the operator ----

  function RefOf(k: Key): Ref { Ref(k.bucket, Some(k.createdAt), Some(k.id)) }

  /** Every key EnqueueTx writes is one that ReplayDeadLetter and the next page can address. */
  lemma RefRoundTrip(cfg: Config, ev: NewEvent, now: nat, generated: nat)
    requires cfg.Valid()
    ensures var key := RowKey(cfg, ev, now, generated);
      ValidRef(cfg, RefOf(key)) && RefKey(cfg, RefOf(key)) == key
  {
  }
}
