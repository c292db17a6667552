/** The parts of Go's strings package that paths and references are built with. */
module Strings {

  /** strings.Split at every `sep`. */
  function Split(s: string, sep: char): (parts: seq<string>)
    ensures parts != []
  {
    if s == "" then [""]
    else
      var rest := Split(s[1..], sep);
      if s[0] == sep then [""] + rest else [[s[0]] + rest[0]] + rest[1..]
  }

  /** Every part preceded by `sep`: one character more than strings.Join. */
  function Joined(parts: seq<string>, sep: char): string {
    if parts == [] then "" else [sep] + parts[0] + Joined(parts[1..], sep)
  }

  function Join(parts: seq<string>, sep: char): string
    requires parts != []
  {
    Joined(parts, sep)[1..]
  }

  lemma JoinedCons(part: string, rest: seq<string>, sep: char)
    ensures Joined([part] + rest, sep) == [sep] + part + Joined(rest, sep)
  {
    assert ([part] + rest)[1..] == rest;
  }

  lemma {:induction false} SplitJoins(s: string, sep: char)
    ensures Joined(Split(s, sep), sep) == [sep] + s
  {
    if s != "" {
      var c, tail := s[0], s[1..];
      assert s == [c] + tail;
      SplitJoins(tail, sep);
      if c == sep { JoinedCons("", Split(tail, sep), sep); } else { FirstPartGrows(c, Split(tail, sep), tail, sep); }
    }
  }

  lemma FirstPartGrows(c: char, parts: seq<string>, s: string, sep: char)
    requires parts != [] && Joined(parts, sep) == [sep] + s
    ensures Joined([[c] + parts[0]] + parts[1..], sep) == [sep] + ([c] + s)
  {
    JoinedCons([c] + parts[0], parts[1..], sep);
    Regrouped(sep, c, parts[0], Joined(parts[1..], sep), s);
  }

  lemma Regrouped(sep: char, c: char, first: string, tail: string, s: string)
    requires [sep] + first + tail == [sep] + s
    ensures [sep] + ([c] + first) + tail == [sep] + ([c] + s)
  {
    assert first + tail == ([sep] + first + tail)[1..] == ([sep] + s)[1..] == s;
  }

  lemma {:induction false} JoinedConcat(a: seq<string>, b: seq<string>, sep: char)
    ensures Joined(a + b, sep) == Joined(a, sep) + Joined(b, sep)
  {
    if a == [] {
      assert a + b == b;
    } else {
      JoinedConcat(a[1..], b, sep);
      assert (a + b)[1..] == a[1..] + b;
      assert Joined(a + b, sep) == [sep] + a[0] + (Joined(a[1..], sep) + Joined(b, sep));
    }
  }

  lemma {:induction false} SplitOnePart(part: string, rest: string, sep: char)
    requires sep !in part
    ensures Split(part, sep) == [part]
    ensures Split(part + [sep] + rest, sep) == [part] + Split(rest, sep)
  {
    var s := part + [sep] + rest;
    if part == "" {
      assert s[1..] == rest;
    } else {
      SplitOnePart(part[1..], rest, sep);
      assert s[1..] == part[1..] + [sep] + rest;
      assert part == [part[0]] + part[1..];
    }
  }

  lemma {:induction false} SplitConcat(a: string, b: string, sep: char)
    ensures Split(a + [sep] + b, sep) == Split(a, sep) + Split(b, sep)
  {
    var s := a + [sep] + b;
    if a == "" {
      assert s[1..] == b;
    } else {
      var tail := a[1..];
      SplitConcat(tail, b, sep);
      assert s[1..] == tail + [sep] + b;
      FirstGrows(s[0], Split(tail, sep), Split(b, sep));
    }
  }

  lemma FirstGrows(c: char, parts: seq<string>, more: seq<string>)
    requires parts != []
    ensures [[c] + (parts + more)[0]] + (parts + more)[1..] == [[c] + parts[0]] + parts[1..] + more
    ensures [""] + (parts + more) == [""] + parts + more
  {
    assert (parts + more)[1..] == parts[1..] + more;
  }

  lemma JoinUnfolds(parts: seq<string>, sep: char)
    requires parts != []
    ensures Join(parts, sep) == if |parts| == 1 then parts[0] else parts[0] + [sep] + Join(parts[1..], sep)
  {
    var rest := Joined(parts[1..], sep);
    assert ([sep] + parts[0] + rest)[1..] == parts[0] + rest;
    if |parts| > 1 {
      assert rest == [sep] + rest[1..];
    }
  }

  /** A part, or a character of the first part, put in front. */
  lemma JoinGrows(c: char, parts: seq<string>, sep: char)
    requires parts != []
    ensures Join([""] + parts, sep) == [sep] + Join(parts, sep)
    ensures Join([[c] + parts[0]] + parts[1..], sep) == [c] + Join(parts, sep)
  {
    assert Joined(parts, sep) == [sep] + Join(parts, sep);
    JoinedCons("", parts, sep);
    FirstPartGrows(c, parts, Join(parts, sep), sep);
  }

  /** Parts without the separator survive being joined and split. */
  lemma {:induction false} JoinSplits(parts: seq<string>, sep: char)
    requires parts != [] && forall p | p in parts :: sep !in p
    ensures Split(Join(parts, sep), sep) == parts
  {
    var rest := parts[1..];
    assert parts[0] in parts;
    JoinUnfolds(parts, sep);
    if rest == [] {
      SplitOnePart(parts[0], "", sep);
    } else {
      JoinSplits(rest, sep);
      SplitOnePart(parts[0], Join(rest, sep), sep);
    }
  }

  /** strings.ReplaceAll for a pattern of one character. */
  function ReplaceChar(s: string, c: char, with: string): string {
    if s == "" then "" else (if s[0] == c then with else [s[0]]) + ReplaceChar(s[1..], c, with)
  }

  /** strings.ReplaceAll for a pattern of two different characters. */
  function ReplacePair(s: string, a: char, b: char, with: string): string {
    if |s| >= 2 && s[0] == a && s[1] == b then with + ReplacePair(s[2..], a, b, with)
    else if s == "" then "" else [s[0]] + ReplacePair(s[1..], a, b, with)
  }

  /** unicode.IsSpace. */
  predicate IsSpace(c: char) {
    || '\t' <= c <= '\r' || c == ' ' || c == '\U{85}' || c == '\U{A0}' || c == '\U{1680}'
    || '\U{2000}' <= c <= '\U{200A}' || c == '\U{2028}' || c == '\U{2029}' || c == '\U{202F}'
    || c == '\U{205F}' || c == '\U{3000}'
  }

  function TrimSpace(s: string): string {
    if s == "" then ""
    else if IsSpace(s[0]) then TrimSpace(s[1..])
    else if IsSpace(s[|s| - 1]) then TrimSpace(s[..|s| - 1])
    else s
  }

  predicate AllSpace(s: string) { forall i | 0 <= i < |s| :: IsSpace(s[i]) }

  /** What is trimmed is space, and what is left neither begins nor ends with any. */
  lemma {:induction false} TrimSpaceIs(s: string) returns (before: string, after: string)
    ensures s == before + TrimSpace(s) + after && AllSpace(before) && AllSpace(after)
    ensures var t := TrimSpace(s); t != "" ==> !IsSpace(t[0]) && !IsSpace(t[|t| - 1])
    decreases |s|
  {
    before, after := "", "";
    if s == "" {
      return;
    } else if IsSpace(s[0]) {
      before, after := TrimSpaceIs(s[1..]);
      before := [s[0]] + before;
    } else if IsSpace(s[|s| - 1]) {
      before, after := TrimSpaceIs(s[..|s| - 1]);
      after := after + [s[|s| - 1]];
      assert s == s[..|s| - 1] + [s[|s| - 1]];
    }
  }

  lemma SpaceConcat(a: string, b: string)
    ensures AllSpace(a + b) <==> AllSpace(a) && AllSpace(b)
  {
    forall i | 0 <= i < |b| ensures b[i] == (a + b)[|a| + i] {}
    forall i | 0 <= i < |a| ensures a[i] == (a + b)[i] {}
  }

  lemma BlankIff(s: string)
    ensures TrimSpace(s) == "" <==> AllSpace(s)
  {
    var before, after := TrimSpaceIs(s);
    var t := TrimSpace(s);
    if t != "" { assert s[|before|] == t[0]; }
  }
}
