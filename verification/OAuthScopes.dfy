/** normalizeScopes of integrationoauth/provider.go: one cache key for each set of scopes. */
module OAuthScopes {
  import opened Basics
  import opened Sorting
  import opened Strings

  const MAX_SCOPES := 128
  const MAX_SCOPE := 128
  const MAX_JOINED := 4096

  predicate ValidScope(s: string) {
    0 < |s| <= MAX_SCOPE && forall i | 0 <= i < |s| :: '!' <= s[i] <= '~' && s[i] != '"' && s[i] != '\\'
  }

  /** What is accepted, said of the scopes in the order given. */
  ghost predicate Acceptable(input: seq<string>) {
    input != [] && ValidList(input, Self, ValidScope, MAX_SCOPES) && |Join(input, ' ')| <= MAX_JOINED
  }

  ghost predicate IsNormal(input: seq<string>, sorted: seq<string>) {
    Ascending(sorted, Before) && multiset(sorted) == multiset(input)
  }

  method NormalizeScopes(input: seq<string>) returns (joined: Option<string>)
    ensures joined.Some? <==> Acceptable(input)
    ensures joined.Some? ==>
      exists sorted :: sorted != [] && IsNormal(input, sorted) && joined.value == Join(sorted, ' ')
  {
    if |input| == 0 { return None; }
    var scopes, ok := SortChecked(input, Self, ValidScope, MAX_SCOPES);
    if !ok { return None; }
    assert |scopes| == |multiset(scopes)| == |multiset(input)| == |input|;
    SameLength(scopes, input);
    if |Join(scopes, ' ')| > MAX_JOINED { return None; }
    assert forall i, j | 0 <= i < j < |scopes| :: Before(Self(scopes[i]), Self(scopes[j]));
    assert IsNormal(input, scopes);
    return Some(Join(scopes, ' '));
  }

  function Total(parts: seq<string>): nat { if parts == [] then 0 else |parts[0]| + Total(parts[1..]) }

  lemma {:induction false} JoinedLength(parts: seq<string>, sep: char)
    ensures |Joined(parts, sep)| == Total(parts) + |parts|
    decreases |parts|
  {
    if parts != [] { JoinedLength(parts[1..], sep); }
  }

  /** From 1 to 128 different scopes, each of 1 to 128 visible ASCII characters other than quote and backslash, that
      with a space between any two make no more than 4096 characters. */
  lemma WhatIsAcceptable(input: seq<string>)
    ensures Acceptable(input) <==>
      && 1 <= |input| <= 128 && (forall i, j | 0 <= i < j < |input| :: input[i] != input[j])
      && (forall s | s in input :: 1 <= |s| <= 128 && forall c | c in s :: '!' <= c <= '~' && c !in {'"', '\\'})
      && Total(input) + |input| - 1 <= 4096
  {
    if input != [] { JoinedLength(input, ' '); }
    forall s | s in input
      ensures ValidScope(s) <==> 1 <= |s| <= 128 && forall c | c in s :: '!' <= c <= '~' && c !in {'"', '\\'}
    {
      assert forall i | 0 <= i < |s| :: s[i] in s;
    }
    assert DistinctKeys(input, Self) <==> forall i, j | 0 <= i < j < |input| :: input[i] != input[j];
  }

  /** Joining takes the same room in any order. */
  lemma {:induction false} SameLength(a: seq<string>, b: seq<string>)
    requires multiset(a) == multiset(b)
    ensures |Joined(a, ' ')| == |Joined(b, ' ')|
    ensures a != [] && b != [] ==> |Join(a, ' ')| == |Join(b, ' ')|
    decreases |a|
  {
    if b == [] {
      assert |multiset(a)| == 0;
    } else {
      var before, after := TakeOut(a, b);
      SameLength(before + after, b[1..]);
      JoinedWithout(before, b[0], after);
      JoinedWithout([], b[0], b[1..]);
      assert b == [] + [b[0]] + b[1..] && [] + b[1..] == b[1..];
    }
  }

  lemma JoinedWithout(before: seq<string>, part: string, after: seq<string>)
    ensures |Joined(before + [part] + after, ' ')| == |Joined(before + after, ' ')| + |part| + 1
  {
    JoinedConcat(before + [part], after, ' ');
    JoinedConcat(before, [part], ' ');
    JoinedConcat(before, after, ' ');
    JoinedCons(part, [], ' ');
    assert [part] + [] == [part];
  }

  /** Two accepted requests have the same joined scopes exactly when they ask for the same set. */
  lemma ScopesIdentifyTheSet(a: seq<string>, b: seq<string>, c: seq<string>, d: seq<string>)
    requires Acceptable(a) && IsNormal(a, c) && c != [] && Acceptable(b) && IsNormal(b, d) && d != []
    ensures Join(c, ' ') == Join(d, ' ') <==> (forall s :: s in a <==> s in b)
  {
    StringsAreOrdered();
    SameElements(a, c);
    SameElements(b, d);
    if Join(c, ' ') == Join(d, ' ') {
      NoSpaces(a, c);
      NoSpaces(b, d);
      JoinSplits(c, ' ');
      JoinSplits(d, ' ');
    }
    if forall s :: s in a <==> s in b { AscendingUnique(c, d, Before); }
  }

  lemma NoSpaces(a: seq<string>, c: seq<string>)
    requires (forall s | s in a :: ValidScope(s)) && forall s :: s in a <==> s in c
    ensures forall p | p in c :: ' ' !in p
  {
    forall p | p in c ensures ' ' !in p {
      assert ValidScope(p);
    }
  }
}
