/** variables/template.go: parsing, rewriting and rendering text with {{...}} placeholders. Texts are sequences of
    characters, and offsets count characters. */
module Templates {
  import opened Basics
  import opened References

  /** A part with its half-open range in the text it was parsed from. */
  datatype Part =
    | Literal(text: string, start: int, end: int)
    | Placeholder(ref: Reference, start: int, end: int)

  /** What may stand between braces, and how a reference is written there. Only the last section fixes the two to
      ParseReferenceV1 and Expression. */
  type Grammar = string -> Option<Reference>

  type Printer = Reference -> Option<string>

  predicate PairAt(s: string, i: int, c: char) { 0 <= i && i + 1 < |s| && s[i] == c && s[i + 1] == c }

  /** strings.Index of a doubled character, from an offset on; negative when there is none. */
  function FindPair(s: string, from: nat, c: char): (at: int)
    ensures at >= 0 ==> from <= at && PairAt(s, at, c)
    decreases |s| - from
  {
    if |s| < from + 2 then -1
    else if PairAt(s, from, c) then from
    else FindPair(s, from + 1, c)
  }

  predicate NoPair(s: string, from: int, to: int, c: char) { forall i | from <= i < to :: !PairAt(s, i, c) }

  lemma {:induction false} FindPairIsFirst(s: string, from: nat, c: char)
    ensures var at := FindPair(s, from, c);
      NoPair(s, from, if at < 0 then |s| else at, c)
    decreases |s| - from
  {
    if |s| >= from + 2 && !PairAt(s, from, c) {
      FindPairIsFirst(s, from + 1, c);
    }
  }

  // ---- parsing ----

  /** The placeholder that opens at `start`, if it is closed around a reference. */
  function HoleAt(text: string, start: nat, parse: Grammar): (hole: Option<Part>)
    requires start + 2 <= |text|
    ensures hole.Some? ==> hole.value.Placeholder? && hole.value.start == start && start + 4 <= hole.value.end <= |text|
  {
    var end := FindPair(text, start + 2, '}');
    if end < 0 then None
    else match parse(text[start + 2..end])
      case None => None
      case Some(ref) => Some(Placeholder(ref, start, end + 2))
  }

  /** The parts of `text` from `offset` on, or the offset of the placeholder that is malformed. */
  function ParseFrom(text: string, offset: nat, parse: Grammar): Result<seq<Part>, int>
    requires offset <= |text|
    decreases |text| - offset
  {
    if offset == |text| then Ok([])
    else
      var start := FindPair(text, offset, '{');
      if start < 0 then Ok([Literal(text[offset..], offset, |text|)])
      else if start > offset then Prepend(Literal(text[offset..start], offset, start), ParseFrom(text, start, parse))
      else match HoleAt(text, start, parse)
        case None => Err(start)
        case Some(hole) => Prepend(hole, ParseFrom(text, hole.end, parse))
  }

  function Prepend(p: Part, r: Result<seq<Part>, int>): Result<seq<Part>, int> {
    match r
    case Err(e) => Err(e)
    case Ok(parts) => Ok([p] + parts)
  }

  /** The same with the parts found so far carried along, a literal and a placeholder in one turn: the loop. */
  function ParseOn(text: string, offset: nat, parts: seq<Part>, parse: Grammar): Result<seq<Part>, int>
    requires offset <= |text|
    decreases |text| - offset
  {
    if offset == |text| then Ok(parts)
    else
      var start := FindPair(text, offset, '{');
      if start < 0 then Ok(parts + [Literal(text[offset..], offset, |text|)])
      else match HoleAt(text, start, parse)
        case None => Err(start)
        case Some(hole) =>
          var parts := if start > offset then parts + [Literal(text[offset..start], offset, start)] else parts;
          ParseOn(text, hole.end, parts + [hole], parse)
  }

  lemma {:induction false} ParseOnIsParseFrom(text: string, offset: nat, parts: seq<Part>, parse: Grammar)
    requires offset <= |text|
    ensures ParseOn(text, offset, parts, parse) == match ParseFrom(text, offset, parse)
              case Err(e) => Err(e)
              case Ok(more) => Ok(parts + more)
    decreases |text| - offset
  {
    var start := FindPair(text, offset, '{');
    if offset == |text| {
      assert parts + [] == parts;
    } else if start >= 0 && HoleAt(text, start, parse).Some? {
      var hole := HoleAt(text, start, parse).value;
      var literal := Literal(text[offset..start], offset, start);
      var before := if start > offset then parts + [literal] else parts;
      ParseOnIsParseFrom(text, hole.end, before + [hole], parse);
      var rest := ParseFrom(text, hole.end, parse);
      if rest.Ok? {
        assert before + [hole] + rest.value
            == parts + (if start > offset then [literal] + ([hole] + rest.value) else [hole] + rest.value);
      }
      assert start > offset ==> ParseFrom(text, offset, parse) == Prepend(literal, ParseFrom(text, start, parse));
    }
  }

  lemma LoopIsParseFrom(text: string, parse: Grammar)
    ensures ParseOn(text, 0, [], parse) == ParseFrom(text, 0, parse)
  {
    ParseOnIsParseFrom(text, 0, [], parse);
    var r := ParseFrom(text, 0, parse);
    assert r.Ok? ==> [] + r.value == r.value;
  }

  method ParseV1(text: string, parse: Grammar) returns (r: Result<seq<Part>, int>)
    ensures r == ParseFrom(text, 0, parse)
  {
    LoopIsParseFrom(text, parse);
    var parts: seq<Part> := [];
    var offset := 0;
    while offset < |text|
      invariant offset <= |text|
      invariant ParseOn(text, 0, [], parse) == ParseOn(text, offset, parts, parse)
      decreases |text| - offset
    {
      var start := FindPair(text, offset, '{');
      if start < 0 { return Ok(parts + [Literal(text[offset..], offset, |text|)]); }
      if start > offset { parts := parts + [Literal(text[offset..start], offset, start)]; }
      var end := FindPair(text, start + 2, '}');
      if end < 0 { return Err(start); }
      var ref := parse(text[start + 2..end]);
      if ref == None { return Err(start); }
      offset := end + 2;
      parts := parts + [Placeholder(ref.value, start, offset)];
    }
    return Ok(parts);
  }

  /** A part is what the text says in its range: a literal is that text and opens no placeholder, a placeholder is a
      reference between an opening pair and the first closing pair after it. */
  predicate Fits(text: string, p: Part, parse: Grammar) {
    if p.Literal? then
      0 <= p.start < p.end <= |text| && p.text == text[p.start..p.end] && NoPair(text, p.start, p.end, '{')
    else
      && 0 <= p.start && p.start + 4 <= p.end <= |text| && PairAt(text, p.start, '{') && PairAt(text, p.end - 2, '}')
      && NoPair(text, p.start + 2, p.end - 2, '}') && parse(text[p.start + 2..p.end - 2]) == Some(p.ref)
  }

  /** The parts tile the text from `offset` to its end, each beginning where the one before it ended, without two
      literals side by side. */
  predicate Tiles(text: string, offset: int, parts: seq<Part>, parse: Grammar)
    decreases |parts|
  {
    if parts == [] then offset == |text|
    else
      && parts[0].start == offset && Fits(text, parts[0], parse)
      && (parts[0].Literal? && |parts| > 1 ==> parts[1].Placeholder?)
      && Tiles(text, parts[0].end, parts[1..], parse)
  }

  /** A text parses to `parts` exactly when they tile it: there is one tiling, and an error means there is none. */
  lemma {:induction false} ParsesIffTiles(text: string, offset: nat, parts: seq<Part>, parse: Grammar)
    requires offset <= |text|
    ensures ParseFrom(text, offset, parse) == Ok(parts) <==> Tiles(text, offset, parts, parse)
    decreases |text| - offset
  {
    if offset < |text| {
      if parts != [] && parts[0].start == offset && Fits(text, parts[0], parse) {
        ParsesIffTiles(text, parts[0].end, parts[1..], parse);
        if Tiles(text, offset, parts, parse) { TilesParse(text, offset, parts, parse); }
      }
      if ParseFrom(text, offset, parse) == Ok(parts) {
        FirstPartFits(text, offset, parts, parse);
      }
    }
  }

  lemma TilesParse(text: string, offset: nat, parts: seq<Part>, parse: Grammar)
    requires offset < |text| && parts != [] && Tiles(text, offset, parts, parse)
    requires ParseFrom(text, parts[0].end, parse) == Ok(parts[1..])
    ensures ParseFrom(text, offset, parse) == Ok(parts)
  {
    var p, more := parts[0], parts[1..];
    assert parts == [p] + more;
    FindPairIsFirst(text, offset, '{');
    if p.Literal? {
      if more == [] {
        assert p.end == |text| && FindPair(text, offset, '{') < 0;
        assert text[offset..] == text[offset..|text|] == p.text;
        assert p == Literal(text[offset..], offset, |text|) && parts == [p];
      } else {
        assert more[0] == parts[1] && Tiles(text, p.end, more, parse);
        assert FindPair(text, offset, '{') == p.end;
      }
    } else {
      FitsIsHole(text, p, parse);
    }
  }

  lemma FitsIsHole(text: string, p: Part, parse: Grammar)
    requires p.Placeholder? && 0 <= p.start && p.start + 2 <= |text|
    ensures PairAt(text, p.start, '{') ==> (HoleAt(text, p.start, parse) == Some(p) <==> Fits(text, p, parse))
  {
    FindPairIsFirst(text, p.start + 2, '}');
    if Fits(text, p, parse) { assert FindPair(text, p.start + 2, '}') == p.end - 2; }
  }

  lemma FirstPartFits(text: string, offset: nat, parts: seq<Part>, parse: Grammar)
    requires offset < |text| && ParseFrom(text, offset, parse) == Ok(parts)
    ensures parts != [] && parts[0].start == offset && Fits(text, parts[0], parse)
    ensures parts[0].Literal? && |parts| > 1 ==> parts[1].Placeholder?
    ensures ParseFrom(text, parts[0].end, parse) == Ok(parts[1..])
  {
    var start := FindPair(text, offset, '{');
    FindPairIsFirst(text, offset, '{');
    if start < 0 {
      assert parts[1..] == [];
    } else if start > offset {
      FindPairAgain(text, offset, '{');
      var rest := ParseFrom(text, start, parse).value;
      assert parts == [Literal(text[offset..start], offset, start)] + rest;
      assert parts[1..] == rest;
      assert |parts| > 1 ==> parts[1] == rest[0];
    } else {
      var hole := HoleAt(text, offset, parse).value;
      var rest := ParseFrom(text, hole.end, parse).value;
      assert parts == [hole] + rest;
      assert parts[1..] == rest;
      FitsIsHole(text, hole, parse);
    }
  }

  lemma FindPairAgain(text: string, offset: nat, c: char)
    requires FindPair(text, offset, c) >= 0
    ensures FindPair(text, FindPair(text, offset, c), c) == FindPair(text, offset, c)
  {}

  /** The offset of a syntax error is that of an opening pair that is not closed around a reference. */
  lemma {:induction false} ErrorIsAtPlaceholder(text: string, offset: nat, parse: Grammar)
    requires offset <= |text| && ParseFrom(text, offset, parse).Err?
    ensures var at := ParseFrom(text, offset, parse).error;
      PairAt(text, at, '{') && forall p: Part :: p.Placeholder? && p.start == at ==> !Fits(text, p, parse)
    decreases |text| - offset
  {
    var start := FindPair(text, offset, '{');
    if start > offset {
      ErrorIsAtPlaceholder(text, start, parse);
    } else if HoleAt(text, start, parse).Some? {
      ErrorIsAtPlaceholder(text, HoleAt(text, start, parse).value.end, parse);
    } else {
      forall p: Part | p.Placeholder? && p.start == start ensures !Fits(text, p, parse) {
        FitsIsHole(text, p, parse);
      }
    }
  }

  // ---- texts in pieces ----

  function Concat(pieces: seq<string>): string
    decreases |pieces|
  {
    if pieces == [] then "" else pieces[0] + Concat(pieces[1..])
  }

  lemma ConcatFirst(out: string, piece: string, pieces: seq<string>)
    ensures out + piece + Concat(pieces) == out + Concat([piece] + pieces)
  {
    assert ([piece] + pieces)[1..] == pieces;
  }

  /** Parts that tile a text, each written as it stands there, give the text. */
  lemma {:induction false} TilesConcat(text: string, from: int, parts: seq<Part>, parse: Grammar, pieces: seq<string>)
    requires Tiles(text, from, parts, parse) && 0 <= from <= |text| && |pieces| == |parts|
    requires forall i | 0 <= i < |parts| :: Covers(text, parts[i]) && pieces[i] == text[parts[i].start..parts[i].end]
    ensures Concat(pieces) == text[from..]
    decreases |parts|
  {
    if parts != [] {
      var end := parts[0].end;
      assert Covers(text, parts[0]) && pieces[0] == text[from..end];
      forall i | 0 <= i < |parts| - 1
        ensures Covers(text, parts[1..][i]) && pieces[1..][i] == text[parts[1..][i].start..parts[1..][i].end]
      {
        assert parts[1..][i] == parts[i + 1] && pieces[1..][i] == pieces[i + 1];
      }
      TilesConcat(text, end, parts[1..], parse, pieces[1..]);
      assert text[from..] == text[from..end] + text[end..];
    }
  }

  predicate Covers(text: string, p: Part) { 0 <= p.start <= p.end <= |text| }

  lemma {:induction false} TilesFit(text: string, from: int, parts: seq<Part>, parse: Grammar, i: nat)
    requires Tiles(text, from, parts, parse) && i < |parts|
    ensures Fits(text, parts[i], parse)
    decreases |parts|
  {
    if i > 0 { TilesFit(text, parts[0].end, parts[1..], parse, i - 1); }
  }

  // ---- Rewrite ----

  datatype RewriteError<+E> = NoMapper | NotMapped(offset: int, cause: E) | NotPrintable(offset: int)

  /** mapReference, which may be nil. */
  type Mapper<!E> = Option<Reference -> Result<Reference, E>>

  function RewritePart<E>(p: Part, mapper: Mapper<E>, express: Printer): Result<string, RewriteError<E>> {
    if p.Literal? then Ok(p.text)
    else if mapper == None then Err(NoMapper)
    else match mapper.value(p.ref)
      case Err(e) => Err(NotMapped(p.start, e))
      case Ok(mapped) =>
        match express(mapped)
        case None => Err(NotPrintable(p.start))
        case Some(expression) => Ok("{{" + expression + "}}")
  }

  /** `out` and then the text of each part. */
  function RewriteOn<E>(
    out: string, parts: seq<Part>, mapper: Mapper<E>, express: Printer): Result<string, RewriteError<E>>
    decreases |parts|
  {
    if parts == [] then Ok(out)
    else match RewritePart(parts[0], mapper, express)
      case Err(e) => Err(e)
      case Ok(s) => RewriteOn(out + s, parts[1..], mapper, express)
  }

  method Rewrite<E>(parts: seq<Part>, mapper: Mapper<E>, express: Printer) returns (r: Result<string, RewriteError<E>>)
    ensures r == RewriteOn("", parts, mapper, express)
    ensures IsRewriting(parts, mapper, express, "", r)
  {
    RewriteIsWriting("", parts, mapper, express);
    var out := "";
    for i := 0 to |parts|
      invariant RewriteOn("", parts, mapper, express) == RewriteOn(out, parts[i..], mapper, express)
    {
      assert parts[i..][1..] == parts[i + 1..];
      if parts[i].Literal? {
        out := out + parts[i].text;
      } else {
        if mapper == None { return Err(NoMapper); }
        var mapped := mapper.value(parts[i].ref);
        if mapped.Err? { return Err(NotMapped(parts[i].start, mapped.error)); }
        var expression := express(mapped.value);
        if expression == None { return Err(NotPrintable(parts[i].start)); }
        out := out + ("{{" + expression.value + "}}");
      }
    }
    return Ok(out);
  }

  /** A part is written as its own text, or as the expression of what its reference is mapped to. */
  predicate HasWriting<E>(p: Part, mapper: Mapper<E>, express: Printer, piece: string) {
    if p.Literal? then piece == p.text
    else
      && mapper.Some? && mapper.value(p.ref).Ok? && express(mapper.value(p.ref).value).Some?
      && piece == "{{" + express(mapper.value(p.ref).value).value + "}}"
  }

  /** Why a part cannot be written. */
  ghost predicate StopsRewrite<E>(p: Part, mapper: Mapper<E>, express: Printer, e: RewriteError<E>) {
    && p.Placeholder?
    && if mapper == None then e == NoMapper
       else if mapper.value(p.ref).Err? then e == NotMapped(p.start, mapper.value(p.ref).error)
       else express(mapper.value(p.ref).value) == None && e == NotPrintable(p.start)
  }

  ghost predicate AllWritten<E>(parts: seq<Part>, mapper: Mapper<E>, express: Printer, pieces: seq<string>) {
    |pieces| == |parts| && forall i | 0 <= i < |parts| :: HasWriting(parts[i], mapper, express, pieces[i])
  }

  /** All parts written one after the other, or the error of the first that cannot be. */
  ghost predicate IsRewriting<E>(parts: seq<Part>, mapper: Mapper<E>, express: Printer, out: string,
                                 r: Result<string, RewriteError<E>>)
  {
    match r
    case Ok(s) => exists pieces :: AllWritten(parts, mapper, express, pieces) && s == out + Concat(pieces)
    case Err(e) => exists k: nat :: RewriteStopsAt(parts, mapper, express, k, e)
  }

  /** The first `k` parts can be written, and the next one cannot. */
  ghost predicate RewriteStopsAt<E>(parts: seq<Part>, mapper: Mapper<E>, express: Printer, k: nat, e: RewriteError<E>) {
    && k < |parts| && StopsRewrite(parts[k], mapper, express, e)
    && exists pieces :: AllWritten(parts[..k], mapper, express, pieces)
  }

  lemma {:induction false} RewriteIsWriting<E>(out: string, parts: seq<Part>, mapper: Mapper<E>, express: Printer)
    ensures IsRewriting(parts, mapper, express, out, RewriteOn(out, parts, mapper, express))
    decreases |parts|
  {
    var none: seq<string> := [];
    if parts == [] {
      assert AllWritten(parts, mapper, express, none);
      assert out + Concat(none) == out;
    } else if RewritePart(parts[0], mapper, express).Err? {
      assert AllWritten(parts[..0], mapper, express, none);
      assert RewriteStopsAt(parts, mapper, express, 0, RewritePart(parts[0], mapper, express).error);
    } else {
      var s, rest := RewritePart(parts[0], mapper, express).value, parts[1..];
      RewriteIsWriting(out + s, rest, mapper, express);
      match RewriteOn(out, parts, mapper, express)
      case Ok(_) =>
        var pieces :| AllWritten(rest, mapper, express, pieces)
          && RewriteOn(out, parts, mapper, express).value == out + s + Concat(pieces);
        ConcatFirst(out, s, pieces);
        assert AllWritten(parts, mapper, express, [s] + pieces);
      case Err(e) =>
        var k: nat :| RewriteStopsAt(rest, mapper, express, k, e);
        var pieces :| AllWritten(rest[..k], mapper, express, pieces);
        assert parts[..k + 1] == [parts[0]] + rest[..k];
        assert AllWritten(parts[..k + 1], mapper, express, [s] + pieces);
        assert RewriteStopsAt(parts, mapper, express, k + 1, e);
    }
  }

  /** Printed references read back, and hold nothing that ends a placeholder. */
  ghost predicate ReadsBack(parse: Grammar, express: Printer) {
    forall ref :: express(ref).Some? ==> parse(express(ref).value) == Some(ref) && '}' !in express(ref).value
  }

  /** The same literal text, or the mapped reference. */
  predicate Mapped<E>(p: Part, q: Part, mapper: Mapper<E>) {
    if p.Literal? then q.Literal? && q.text == p.text
    else q.Placeholder? && mapper.Some? && mapper.value(p.ref) == Ok(q.ref)
  }

  predicate AllMapped<E>(parts: seq<Part>, moved: seq<Part>, mapper: Mapper<E>) {
    |moved| == |parts| && forall i | 0 <= i < |parts| :: Mapped(parts[i], moved[i], mapper)
  }

  /** What Rewrite writes parses, to the same literals and exactly the mapped references. */
  lemma RewriteParses<E>(text: string, parse: Grammar, mapper: Mapper<E>, express: Printer)
    requires ReadsBack(parse, express) && ParseFrom(text, 0, parse).Ok?
    requires RewriteOn("", ParseFrom(text, 0, parse).value, mapper, express).Ok?
    ensures var parts := ParseFrom(text, 0, parse).value;
      var again := ParseFrom(RewriteOn("", parts, mapper, express).value, 0, parse);
      again.Ok? && AllMapped(parts, again.value, mapper)
  {
    var parts := ParseFrom(text, 0, parse).value;
    ParsesIffTiles(text, 0, parts, parse);
    var moved := RewriteTiles(text, 0, parts, parse, "", mapper, express);
    ParsesIffTiles(RewriteOn("", parts, mapper, express).value, 0, moved, parse);
  }

  lemma {:induction false} RewriteTiles<E>(text: string, from: int, parts: seq<Part>, parse: Grammar, out: string,
      mapper: Mapper<E>, express: Printer) returns (moved: seq<Part>)
    requires ReadsBack(parse, express) && Tiles(text, from, parts, parse) && RewriteOn(out, parts, mapper, express).Ok?
    ensures var final := RewriteOn(out, parts, mapper, express).value;
      && out <= final && AllMapped(parts, moved, mapper) && Tiles(final, |out|, moved, parse)
      && (parts != [] && parts[0].Placeholder? ==> PairAt(final, |out|, '{'))
    decreases |parts|
  {
    if parts == [] { return []; }
    var p, more := parts[0], parts[1..];
    var s := RewritePart(p, mapper, express).value;
    var rest := RewriteTiles(text, p.end, more, parse, out + s, mapper, express);
    if p.Literal? && more != [] { assert more[0] == parts[1] && Fits(text, more[0], parse); }
    var final := RewriteOn(out, parts, mapper, express).value;
    var q := PartMoves(text, p, parse, out, final, mapper, express);
    moved := [q] + rest;
    TilesPrepend(final, q, rest, parse);
    AllMappedPrepend(p, more, q, rest, mapper);
    assert [p] + more == parts;
  }

  lemma PartMoves<E>(
    text: string, p: Part, parse: Grammar, out: string, final: string, mapper: Mapper<E>, express: Printer)
    returns (q: Part)
    requires ReadsBack(parse, express) && Fits(text, p, parse) && RewritePart(p, mapper, express).Ok?
    requires var s := RewritePart(p, mapper, express).value;
      && out + s <= final
      && (p.Literal? && out + s < final ==> PairAt(text, p.end, '{') && PairAt(final, |out + s|, '{'))
    ensures q.start == |out| && q.end == |out| + |RewritePart(p, mapper, express).value|
    ensures Mapped(p, q, mapper) && Fits(final, q, parse) && (q.Placeholder? ==> PairAt(final, |out|, '{'))
  {
    var s := RewritePart(p, mapper, express).value;
    assert final[|out|..|out| + |s|] == s;
    if p.Literal? {
      LiteralMoves(text, p, final, |out|);
      return Literal(p.text, |out|, |out| + |s|);
    } else {
      var ref := mapper.value(p.ref).value;
      HoleMoves(ref, final, |out|, parse, express);
      return Placeholder(ref, |out|, |out| + |s|);
    }
  }

  lemma TilesPrepend(text: string, q: Part, rest: seq<Part>, parse: Grammar)
    requires Fits(text, q, parse) && Tiles(text, q.end, rest, parse)
    requires q.Literal? && rest != [] ==> rest[0].Placeholder?
    ensures Tiles(text, q.start, [q] + rest, parse)
  {
    assert ([q] + rest)[1..] == rest;
  }

  lemma AllMappedPrepend<E>(p: Part, parts: seq<Part>, q: Part, moved: seq<Part>, mapper: Mapper<E>)
    requires Mapped(p, q, mapper) && AllMapped(parts, moved, mapper)
    ensures AllMapped([p] + parts, [q] + moved, mapper)
  {}

  lemma LiteralMoves(text: string, p: Part, final: string, at: nat)
    requires p.Literal? && 0 <= p.start < p.end <= |text| && p.text == text[p.start..p.end]
    requires NoPair(text, p.start, p.end, '{')
    requires at + |p.text| <= |final| && final[at..at + |p.text|] == p.text
    requires at + |p.text| < |final| ==> p.end < |text| && text[p.end] == '{'
    ensures NoPair(final, at, at + |p.text|, '{')
  {
    forall i | at <= i < at + |p.text| ensures !PairAt(final, i, '{') {
      assert !PairAt(text, p.start + (i - at), '{');
      assert final[at..at + |p.text|][i - at] == final[i];
      if i + 1 < at + |p.text| { assert final[at..at + |p.text|][i + 1 - at] == final[i + 1]; }
    }
  }

  lemma HoleMoves(ref: Reference, final: string, at: nat, parse: Grammar, express: Printer)
    requires ReadsBack(parse, express) && express(ref).Some?
    requires var s := "{{" + express(ref).value + "}}"; at + |s| <= |final| && final[at..at + |s|] == s
    ensures Fits(final, Placeholder(ref, at, at + 4 + |express(ref).value|), parse) && PairAt(final, at, '{')
  {
    var e := express(ref).value;
    var s := "{{" + e + "}}";
    forall i | 0 <= i < |s| ensures final[at + i] == s[i] { assert final[at..at + |s|][i] == s[i]; }
    assert s[2..2 + |e|] == e && s[..2] == "{{" && s[2 + |e|..] == "}}";
    assert s[0] == s[1] == '{' && s[2 + |e|] == s[3 + |e|] == '}';
    assert final[at + 2..at + 2 + |e|] == e;
    forall i | at + 2 <= i < at + 2 + |e| ensures !PairAt(final, i, '}') {
      assert final[i] == s[i - at] == e[i - at - 2];
    }
    assert final[at + 1] == s[1] && final[at + 2 + |e|] == s[2 + |e|] && final[at + 3 + |e|] == s[3 + |e|];
  }

  // ---- Render ----

  datatype Resolution<+V, +E> = Failed(cause: E) | Missing | Found(value: V)

  datatype RenderError<+E> =
    | Unsupported
    | NoResolver
    | NotResolved(offset: int, cause: E)
    | Unresolved(offset: int)
    | NotFormatted(offset: int, cause: E)

  const MISSING_ERROR := 0
  const MISSING_EMPTY := 1

  datatype Options = Options(missing: nat, escape: Option<string -> string>)

  type Resolver<!V, !E> = Option<Reference -> Resolution<V, E>>

  function RenderPart<V, E>(
    p: Part, resolve: Resolver<V, E>, format: V -> Result<string, E>, options: Options): Result<string, RenderError<E>>
  {
    if p.Literal? then Ok(p.text)
    else if resolve == None then Err(NoResolver)
    else match resolve.value(p.ref)
      case Failed(e) => Err(NotResolved(p.start, e))
      case Missing => if options.missing == MISSING_EMPTY then Ok("") else Err(Unresolved(p.start))
      case Found(value) =>
        match format(value)
        case Err(e) => Err(NotFormatted(p.start, e))
        case Ok(s) => Ok(if options.escape.Some? then options.escape.value(s) else s)
  }

  function RenderOn<V, E>(
    out: string, parts: seq<Part>, resolve: Resolver<V, E>, format: V -> Result<string, E>,
    options: Options): Result<string, RenderError<E>>
    decreases |parts|
  {
    if parts == [] then Ok(out)
    else match RenderPart(parts[0], resolve, format, options)
      case Err(e) => Err(e)
      case Ok(s) => RenderOn(out + s, parts[1..], resolve, format, options)
  }

  function Rendered<V, E>(
    parts: seq<Part>, resolve: Resolver<V, E>, format: V -> Result<string, E>,
    options: Options): Result<string, RenderError<E>>
  {
    if options.missing != MISSING_ERROR && options.missing != MISSING_EMPTY then Err(Unsupported)
    else RenderOn("", parts, resolve, format, options)
  }

  /** What a part contributes: a literal its text, a value that is found its formatted form, escaped once where there is
      an escape, and a missing one nothing where that is allowed. */
  predicate HasPiece<V, E>(
    p: Part, resolve: Resolver<V, E>, format: V -> Result<string, E>, options: Options, piece: string)
  {
    if p.Literal? then piece == p.text
    else
      && resolve.Some?
      && match resolve.value(p.ref)
         case Failed(_) => false
         case Missing => options.missing == MISSING_EMPTY && piece == ""
         case Found(value) =>
           && format(value).Ok?
           && (options.escape == None ==> piece == format(value).value)
           && (options.escape.Some? ==> piece == options.escape.value(format(value).value))
  }

  /** Why a part contributes nothing at all. */
  ghost predicate StopsRender<V, E>(
    p: Part, resolve: Resolver<V, E>, format: V -> Result<string, E>, options: Options, e: RenderError<E>)
  {
    && p.Placeholder?
    && if resolve == None then e == NoResolver
       else match resolve.value(p.ref)
         case Failed(cause) => e == NotResolved(p.start, cause)
         case Missing => options.missing != MISSING_EMPTY && e == Unresolved(p.start)
         case Found(value) => format(value).Err? && e == NotFormatted(p.start, format(value).error)
  }

  ghost predicate AllPieces<V, E>(
    parts: seq<Part>, resolve: Resolver<V, E>, format: V -> Result<string, E>, options: Options, pieces: seq<string>)
  {
    |pieces| == |parts| && forall i | 0 <= i < |parts| :: HasPiece(parts[i], resolve, format, options, pieces[i])
  }

  /** The pieces of all parts in their order, or the error of the first part without a piece. */
  ghost predicate IsRendering<V, E>(
    parts: seq<Part>, resolve: Resolver<V, E>, format: V -> Result<string, E>, options: Options, out: string,
    r: Result<string, RenderError<E>>)
  {
    match r
    case Ok(s) => exists pieces :: AllPieces(parts, resolve, format, options, pieces) && s == out + Concat(pieces)
    case Err(e) => exists k: nat :: RenderStopsAt(parts, resolve, format, options, k, e)
  }

  /** The first `k` parts have pieces, and the next one has none. */
  ghost predicate RenderStopsAt<V, E>(
    parts: seq<Part>, resolve: Resolver<V, E>, format: V -> Result<string, E>, options: Options, k: nat,
    e: RenderError<E>)
  {
    && k < |parts| && StopsRender(parts[k], resolve, format, options, e)
    && exists pieces :: AllPieces(parts[..k], resolve, format, options, pieces)
  }

  lemma {:induction false} RenderIsPieces<V, E>(
    out: string, parts: seq<Part>, resolve: Resolver<V, E>, format: V -> Result<string, E>, options: Options)
    ensures IsRendering(parts, resolve, format, options, out, RenderOn(out, parts, resolve, format, options))
    decreases |parts|
  {
    var none: seq<string> := [];
    if parts == [] {
      assert AllPieces(parts, resolve, format, options, none);
      assert out + Concat(none) == out;
    } else if RenderPart(parts[0], resolve, format, options).Err? {
      assert AllPieces(parts[..0], resolve, format, options, none);
      assert RenderStopsAt(
          parts, resolve, format, options, 0, RenderPart(parts[0], resolve, format, options).error);
    } else {
      var s, rest := RenderPart(parts[0], resolve, format, options).value, parts[1..];
      RenderIsPieces(out + s, rest, resolve, format, options);
      match RenderOn(out, parts, resolve, format, options)
      case Ok(_) =>
        var pieces :| AllPieces(rest, resolve, format, options, pieces)
          && RenderOn(out, parts, resolve, format, options).value == out + s + Concat(pieces);
        ConcatFirst(out, s, pieces);
        assert AllPieces(parts, resolve, format, options, [s] + pieces);
      case Err(e) =>
        var k: nat :| RenderStopsAt(rest, resolve, format, options, k, e);
        var pieces :| AllPieces(rest[..k], resolve, format, options, pieces);
        assert parts[..k + 1] == [parts[0]] + rest[..k];
        assert AllPieces(parts[..k + 1], resolve, format, options, [s] + pieces);
        assert RenderStopsAt(parts, resolve, format, options, k + 1, e);
    }
  }

  lemma {:induction false} SamePieces<V, E>(
    parts: seq<Part>, resolve: Resolver<V, E>, format: V -> Result<string, E>, options: Options,
    a: seq<string>, b: seq<string>)
    requires AllPieces(parts, resolve, format, options, a) && AllPieces(parts, resolve, format, options, b)
    ensures a == b
  {
    forall i | 0 <= i < |a| ensures a[i] == b[i] {
      assert HasPiece(parts[i], resolve, format, options, a[i]) && HasPiece(parts[i], resolve, format, options, b[i]);
    }
  }

  predicate Supported(options: Options) { options.missing == MISSING_ERROR || options.missing == MISSING_EMPTY }

  /** What rendering a text gives. It succeeds exactly when every part has a piece, and then gives the pieces in their
      order, those of the literals being what the text says there. Otherwise the error is that of the first part without
      a piece. */
  lemma RenderedText<V, E>(
    text: string, parse: Grammar, resolve: Resolver<V, E>, format: V -> Result<string, E>, options: Options, s: string)
    requires ParseFrom(text, 0, parse).Ok? && Supported(options)
    ensures var parts, r := ParseFrom(text, 0, parse).value,
        Rendered(ParseFrom(text, 0, parse).value, resolve, format, options);
      && (r == Ok(s) <==> exists pieces ::
            AllPieces(parts, resolve, format, options, pieces) && s == Concat(pieces))
      && (r.Err? ==> IsRendering(parts, resolve, format, options, "", r))
      && (forall i | 0 <= i < |parts| && parts[i].Literal? ::
            Covers(text, parts[i]) && parts[i].text == text[parts[i].start..parts[i].end])
  {
    var parts := ParseFrom(text, 0, parse).value;
    var r := Rendered(parts, resolve, format, options);
    RenderIsPieces("", parts, resolve, format, options);
    ParsesIffTiles(text, 0, parts, parse);
    forall i | 0 <= i < |parts| ensures Fits(text, parts[i], parse) { TilesFit(text, 0, parts, parse, i); }
    forall pieces | AllPieces(parts, resolve, format, options, pieces) ensures r == Ok(Concat(pieces)) {
      PiecesRender(parts, resolve, format, options, pieces, r);
    }
    if r.Ok? {
      var pieces :| AllPieces(parts, resolve, format, options, pieces) && r.value == "" + Concat(pieces);
      assert "" + Concat(pieces) == Concat(pieces);
    }
  }

  lemma PiecesRender<V, E>(
    parts: seq<Part>, resolve: Resolver<V, E>, format: V -> Result<string, E>, options: Options, pieces: seq<string>,
    r: Result<string, RenderError<E>>)
    requires IsRendering(parts, resolve, format, options, "", r) && AllPieces(parts, resolve, format, options, pieces)
    ensures r == Ok(Concat(pieces))
  {
    StoppedHasNoPieces(parts, resolve, format, options, pieces, r);
    if r.Ok? {
      var others :| AllPieces(parts, resolve, format, options, others) && r.value == "" + Concat(others);
      SamePieces(parts, resolve, format, options, pieces, others);
      assert "" + Concat(others) == Concat(others);
    }
  }

  lemma StoppedHasNoPieces<V, E>(
    parts: seq<Part>, resolve: Resolver<V, E>, format: V -> Result<string, E>, options: Options, pieces: seq<string>,
    r: Result<string, RenderError<E>>)
    requires IsRendering(parts, resolve, format, options, "", r)
    ensures r.Err? ==> !AllPieces(parts, resolve, format, options, pieces)
  {
    if r.Err? {
      var k: nat :| RenderStopsAt(parts, resolve, format, options, k, r.error);
      assert k < |pieces| ==> !HasPiece(parts[k], resolve, format, options, pieces[k]);
    }
  }

  /** Where each placeholder is rendered as it stands, and so where there is none, a text renders to itself. */
  lemma EchoRendersText<V, E>(
    text: string, parse: Grammar, resolve: Resolver<V, E>, format: V -> Result<string, E>, options: Options)
    requires ParseFrom(text, 0, parse).Ok? && Supported(options)
    requires forall p: Part | p in ParseFrom(text, 0, parse).value && p.Placeholder? && Covers(text, p) ::
      HasPiece(p, resolve, format, options, text[p.start..p.end])
    ensures Rendered(ParseFrom(text, 0, parse).value, resolve, format, options) == Ok(text)
  {
    var parts := ParseFrom(text, 0, parse).value;
    ParsesIffTiles(text, 0, parts, parse);
    var pieces := Slices(text, parts);
    forall i | 0 <= i < |parts| ensures HasPiece(parts[i], resolve, format, options, pieces[i]) {
      TilesFit(text, 0, parts, parse, i);
      EchoPiece(text, parts[i], parse, resolve, format, options);
    }
    forall i | 0 <= i < |parts| ensures Covers(text, parts[i]) { TilesFit(text, 0, parts, parse, i); }
    TilesConcat(text, 0, parts, parse, pieces);
    assert text[0..] == text;
    RenderIsPieces("", parts, resolve, format, options);
    PiecesRender(parts, resolve, format, options, pieces, Rendered(parts, resolve, format, options));
  }

  lemma EchoPiece<V, E>(
    text: string, p: Part, parse: Grammar, resolve: Resolver<V, E>, format: V -> Result<string, E>, options: Options)
    requires Fits(text, p, parse)
    requires p.Placeholder? ==> HasPiece(p, resolve, format, options, text[p.start..p.end])
    ensures HasPiece(p, resolve, format, options, Slice(text, p))
  {}

  function Slice(text: string, p: Part): string { if Covers(text, p) then text[p.start..p.end] else "" }

  function Slices(text: string, parts: seq<Part>): seq<string> {
    seq(|parts|, i requires 0 <= i < |parts| => Slice(text, parts[i]))
  }

  /** A text without an opening pair is one literal, if it is not empty, and renders to itself whatever the resolver. */
  lemma PlainTextRenders<V, E>(
    text: string, parse: Grammar, resolve: Resolver<V, E>, format: V -> Result<string, E>, options: Options)
    requires NoPair(text, 0, |text|, '{') && Supported(options)
    ensures ParseFrom(text, 0, parse).Ok?
    ensures Rendered(ParseFrom(text, 0, parse).value, resolve, format, options) == Ok(text)
  {
    FindPairIsFirst(text, 0, '{');
    EchoRendersText(text, parse, resolve, format, options);
  }

  method Render<V, E>(parts: seq<Part>, resolve: Resolver<V, E>, format: V -> Result<string, E>, options: Options)
    returns (r: Result<string, RenderError<E>>)
    ensures r == Rendered(parts, resolve, format, options)
    ensures Supported(options) ==> IsRendering(parts, resolve, format, options, "", r)
    ensures !Supported(options) <==> r == Err(Unsupported)
  {
    RenderIsPieces("", parts, resolve, format, options);
    if options.missing != MISSING_ERROR && options.missing != MISSING_EMPTY { return Err(Unsupported); }
    var out := "";
    for i := 0 to |parts|
      invariant RenderOn("", parts, resolve, format, options) == RenderOn(out, parts[i..], resolve, format, options)
    {
      assert parts[i..][1..] == parts[i + 1..];
      if parts[i].Literal? {
        out := out + parts[i].text;
        continue;
      }
      if resolve == None { return Err(NoResolver); }
      match resolve.value(parts[i].ref) {
        case Failed(e) => return Err(NotResolved(parts[i].start, e));
        case Missing =>
          if options.missing == MISSING_EMPTY {
            assert out + "" == out;
            continue;
          }
          return Err(Unresolved(parts[i].start));
        case Found(value) =>
          var formatted := format(value);
          if formatted.Err? { return Err(NotFormatted(parts[i].start, formatted.error)); }
          var s := formatted.value;
          if options.escape.Some? { s := options.escape.value(s); }
          out := out + s;
      }
    }
    return Ok(out);
  }

  /** A result without the offset at which it failed. */
  function Unplaced<E>(r: Result<string, RenderError<E>>): Result<string, RenderError<E>> {
    match r
    case Err(NotResolved(_, e)) => Err(NotResolved(0, e))
    case Err(Unresolved(_)) => Err(Unresolved(0))
    case Err(NotFormatted(_, e)) => Err(NotFormatted(0, e))
    case _ => r
  }

  /** Resolving what a reference is mapped to. */
  function After<V, E>(resolve: Resolver<V, E>, mapper: Mapper<E>): Resolver<V, E> {
    if resolve == None then None
    else Some((ref: Reference) =>
      if mapper.Some? && mapper.value(ref).Ok? then resolve.value(mapper.value(ref).value) else Missing)
  }

  lemma {:induction false} MappedRendersAlike<V, E>(out: string, parts: seq<Part>, moved: seq<Part>, mapper: Mapper<E>,
      resolve: Resolver<V, E>, format: V -> Result<string, E>, options: Options)
    requires AllMapped(parts, moved, mapper)
    ensures Unplaced(RenderOn(out, moved, resolve, format, options))
         == Unplaced(RenderOn(out, parts, After(resolve, mapper), format, options))
    decreases |parts|
  {
    if parts != [] {
      assert Mapped(parts[0], moved[0], mapper);
      var s := RenderPart(moved[0], resolve, format, options);
      if s.Ok? {
        assert RenderPart(parts[0], After(resolve, mapper), format, options) == s;
        forall i | 0 <= i < |parts| - 1 ensures Mapped(parts[1..][i], moved[1..][i], mapper) {
          assert Mapped(parts[i + 1], moved[i + 1], mapper);
        }
        MappedRendersAlike(out + s.value, parts[1..], moved[1..], mapper, resolve, format, options);
      }
    }
  }

  /** Rendering what Rewrite wrote is rendering the original with every reference mapped first, for every resolver and
      all options; only the offsets in errors differ. */
  lemma RewritePreservesMeaning<V, E>(text: string, parse: Grammar, mapper: Mapper<E>, express: Printer,
      resolve: Resolver<V, E>, format: V -> Result<string, E>, options: Options)
    requires ReadsBack(parse, express) && ParseFrom(text, 0, parse).Ok?
    requires RewriteOn("", ParseFrom(text, 0, parse).value, mapper, express).Ok?
    ensures var parts := ParseFrom(text, 0, parse).value;
      var again := ParseFrom(RewriteOn("", parts, mapper, express).value, 0, parse);
      && again.Ok?
      && Unplaced(Rendered(again.value, resolve, format, options))
      == Unplaced(Rendered(parts, After(resolve, mapper), format, options))
  {
    RewriteParses(text, parse, mapper, express);
    var parts := ParseFrom(text, 0, parse).value;
    var again := ParseFrom(RewriteOn("", parts, mapper, express).value, 0, parse).value;
    MappedRendersAlike("", parts, again, mapper, resolve, format, options);
  }

  // ---- the language of variables/reference.go ----

  function ReferenceGrammar(letters: set<char>): Grammar { key => ParseReference(key, letters) }

  function ReferencePrinter(letters: set<char>): Printer { ref => Expression(ref, letters) }

  lemma ReferencesReadBack(letters: set<char>)
    ensures ReadsBack(ReferenceGrammar(letters), ReferencePrinter(letters))
  {
    forall ref | Expression(ref, letters).Some?
      ensures ParseReference(Expression(ref, letters).value, letters) == Some(ref)
      ensures '}' !in Expression(ref, letters).value
    {
      ExpressionIsPlain(ref, letters);
    }
  }

  /** In a template of this language any rewriting keeps the meaning. */
  lemma VariablesKeepMeaning<V, E>(text: string, letters: set<char>, mapper: Mapper<E>, resolve: Resolver<V, E>,
      format: V -> Result<string, E>, options: Options)
    requires ParseFrom(text, 0, ReferenceGrammar(letters)).Ok?
    requires RewriteOn("", ParseFrom(text, 0, ReferenceGrammar(letters)).value, mapper, ReferencePrinter(letters)).Ok?
    ensures var parts := ParseFrom(text, 0, ReferenceGrammar(letters)).value;
      var written := RewriteOn("", parts, mapper, ReferencePrinter(letters)).value;
      var again := ParseFrom(written, 0, ReferenceGrammar(letters));
      && again.Ok? && AllMapped(parts, again.value, mapper)
      && Unplaced(Rendered(again.value, resolve, format, options))
      == Unplaced(Rendered(parts, After(resolve, mapper), format, options))
  {
    var parse, express := ReferenceGrammar(letters), ReferencePrinter(letters);
    ReferencesReadBack(letters);
    RewriteParses(text, parse, mapper, express);
    RewritePreservesMeaning(text, parse, mapper, express, resolve, format, options);
  }

  /** Writing out what was parsed never fails: every parsed reference has an expression. */
  lemma {:induction false} ParsedCanBeWritten<E>(
    text: string, from: int, parts: seq<Part>, letters: set<char>, out: string, mapper: Mapper<E>)
    requires Tiles(text, from, parts, ReferenceGrammar(letters))
    requires mapper.Some? && forall ref :: mapper.value(ref) == Ok(ref)
    ensures RewriteOn(out, parts, mapper, ReferencePrinter(letters)).Ok?
    decreases |parts|
  {
    if parts != [] {
      PartCanBeWritten(text, parts[0], letters, mapper);
      var s := RewritePart(parts[0], mapper, ReferencePrinter(letters)).value;
      ParsedCanBeWritten(text, parts[0].end, parts[1..], letters, out + s, mapper);
    }
  }

  lemma PartCanBeWritten<E>(text: string, p: Part, letters: set<char>, mapper: Mapper<E>)
    requires Fits(text, p, ReferenceGrammar(letters))
    requires mapper.Some? && forall ref :: mapper.value(ref) == Ok(ref)
    ensures RewritePart(p, mapper, ReferencePrinter(letters)).Ok?
  {
    if p.Placeholder? { ParsedHasExpression(text[p.start + 2..p.end - 2], letters); }
  }
}
