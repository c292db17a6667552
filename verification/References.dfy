/** variables/reference.go: the references inside {{...}}. */
module References {
  import opened Basics
  import opened Strings

  /** Unlisted stands for any scope string that is not one of the four. */
  datatype Scope = Subject | Project | Integration | Runtime | Unlisted

  datatype Reference = Reference(scope: Scope, namespace: string, key: string, accessPath: seq<string>)

  /** unicode.IsLetter or unicode.IsDigit: ASCII as everywhere, and above it whatever `letters` lists, which is never a
      space. Everything proved here holds for every such table. */
  predicate IsWord(c: char, letters: set<char>) {
    || c == '_' || c == '-' || 'a' <= c <= 'z' || 'A' <= c <= 'Z' || '0' <= c <= '9'
    || (c >= '\U{80}' && !IsSpace(c) && c in letters)
  }

  predicate ValidSegment(s: string, letters: set<char>) {
    s != "" && forall c | c in s :: IsWord(c, letters)
  }

  predicate ValidParts(parts: seq<string>, letters: set<char>) {
    forall p | p in parts :: ValidSegment(p, letters)
  }

  function FromParts(parts: seq<string>): Reference
    requires parts != []
  {
    if |parts| == 1 then Reference(Subject, "", parts[0], [])
    else
      var ref := Reference(Subject, "", parts[1], parts[2..]);
      if parts[0] == "subject" then ref
      else if parts[0] == "project" then
        if ref.key == "id" then ref.(scope := Runtime, namespace := "project") else ref.(scope := Project)
      else if parts[0] == "context" || parts[0] == "integrationState" then ref.(scope := Runtime, namespace := parts[0])
      else ref.(scope := Integration, namespace := parts[0])
  }

  function ParseReference(key: string, letters: set<char>): Option<Reference> {
    var parts := Split(TrimSpace(key), '.');
    if ValidParts(parts, letters) then Some(FromParts(parts)) else None
  }

  function ScopeName(scope: Scope): string { if scope == Subject then "subject" else "project" }

  /** The explicit qualified expression, unless it would read back differently. */
  function Expression(ref: Reference, letters: set<char>): Option<string> {
    if ref.scope == Unlisted || ((ref.scope == Subject || ref.scope == Project) && ref.namespace != "") then None
    else
      var prefix := if ref.scope == Subject || ref.scope == Project then ScopeName(ref.scope) else ref.namespace;
      var expression := Join([prefix, ref.key] + ref.accessPath, '.');
      if ParseReference(expression, letters) == Some(ref) then Some(expression) else None
  }

  lemma {:induction false} WordsInJoin(parts: seq<string>, letters: set<char>)
    requires parts != [] && ValidParts(parts, letters)
    ensures var s := Join(parts, '.');
      s != "" && !IsSpace(s[0]) && !IsSpace(s[|s| - 1]) && forall c | c in s :: c == '.' || IsWord(c, letters)
  {
    var s := Join(parts, '.');
    assert parts[0] in parts;
    JoinUnfolds(parts, '.');
    var first := parts[0];
    assert ValidSegment(first, letters) && first[0] in first && first[|first| - 1] in first;
    if |parts| > 1 {
      assert forall p | p in parts[1..] :: p in parts;
      WordsInJoin(parts[1..], letters);
      var rest := Join(parts[1..], '.');
      assert s[|s| - 1] == rest[|rest| - 1];
    }
  }

  /** Parts made of words are read back as they were joined. */
  lemma PartsRoundTrip(parts: seq<string>, letters: set<char>)
    requires parts != [] && ValidParts(parts, letters)
    ensures ParseReference(Join(parts, '.'), letters) == Some(FromParts(parts))
  {
    WordsInJoin(parts, letters);
    JoinSplits(parts, '.');
  }

  /** Every parsed reference has an expression, and it reads back to the same reference. */
  lemma ParsedHasExpression(key: string, letters: set<char>)
    requires ParseReference(key, letters).Some?
    ensures var ref := ParseReference(key, letters).value;
      Expression(ref, letters).Some? && ParseReference(Expression(ref, letters).value, letters) == Some(ref)
  {
    var parts := Split(TrimSpace(key), '.');
    var ref := FromParts(parts);
    var qualified := if |parts| == 1 then ["subject", parts[0]] else parts;
    var prefix := if ref.scope == Subject || ref.scope == Project then ScopeName(ref.scope) else ref.namespace;
    assert [prefix, ref.key] + ref.accessPath == qualified;
    PartsRoundTrip(qualified, letters);
  }

  /** An expression has no braces and no surrounding space, so it stands in a template as it is. */
  lemma ExpressionIsPlain(ref: Reference, letters: set<char>)
    requires Expression(ref, letters).Some?
    ensures forall c | c in Expression(ref, letters).value :: c != '{' && c != '}'
    ensures ParseReference(Expression(ref, letters).value, letters) == Some(ref)
  {
    var e := Expression(ref, letters).value;
    var prefix := if ref.scope == Subject || ref.scope == Project then ScopeName(ref.scope) else ref.namespace;
    var parts := [prefix, ref.key] + ref.accessPath;
    TrimmedParts(e, letters);
  }

  /** The namespace, and for a project variable the key, fit the scope. */
  predicate FitsScope(ref: Reference, letters: set<char>) {
    match ref.scope
    case Subject => ref.namespace == ""
    case Project => ref.namespace == "" && ref.key != "id"
    case Integration =>
      ValidSegment(ref.namespace, letters) && ref.namespace !in {"subject", "project", "context", "integrationState"}
    case Runtime =>
      (ref.namespace == "project" && ref.key == "id") || ref.namespace in {"context", "integrationState"}
    case Unlisted => false
  }

  function Qualifier(ref: Reference): string {
    match ref.scope
    case Subject => "subject"
    case Project => "project"
    case _ => ref.namespace
  }

  /** Exactly the references that could have been parsed have an expression: it is the qualifier, the key and the access
      path, joined by dots. */
  lemma WhichHaveExpressions(ref: Reference, letters: set<char>)
    ensures Expression(ref, letters).Some? <==>
      && FitsScope(ref, letters) && ValidSegment(ref.key, letters) && ValidParts(ref.accessPath, letters)
    ensures Expression(ref, letters).Some? ==>
      Expression(ref, letters).value == Join([Qualifier(ref), ref.key] + ref.accessPath, '.')
  {
    var parts := [Qualifier(ref), ref.key] + ref.accessPath;
    if FitsScope(ref, letters) && ValidSegment(ref.key, letters) && ValidParts(ref.accessPath, letters) {
      ReservedAreWords(letters);
      assert parts[2..] == ref.accessPath;
      assert ValidParts(parts, letters);
      PartsRoundTrip(parts, letters);
    }
    if Expression(ref, letters).Some? { ParsedFits(Expression(ref, letters).value, letters); }
  }

  lemma ReservedAreWords(letters: set<char>)
    ensures forall s | s in {"subject", "project", "context", "integrationState"} :: ValidSegment(s, letters)
  {
  }

  lemma ParsedFits(key: string, letters: set<char>)
    requires ParseReference(key, letters).Some?
    ensures var ref := ParseReference(key, letters).value;
      FitsScope(ref, letters) && ValidSegment(ref.key, letters) && ValidParts(ref.accessPath, letters)
  {
    var parts := Split(TrimSpace(key), '.');
    assert parts[0] in parts;
    if |parts| > 1 {
      assert parts[1] in parts && forall p | p in parts[2..] :: p in parts;
    }
  }

  lemma TrimmedParts(s: string, letters: set<char>)
    requires ValidParts(Split(TrimSpace(s), '.'), letters)
    ensures forall c | c in s :: c != '{' && c != '}'
  {
    var t := TrimSpace(s);
    SplitJoins(t, '.');
    WordsInJoin(Split(t, '.'), letters);
    assert Join(Split(t, '.'), '.') == t;
    TrimRemovesSpace(s);
  }

  lemma {:induction false} TrimRemovesSpace(s: string)
    ensures forall c | c in s :: c in TrimSpace(s) || IsSpace(c)
  {
    if s != "" {
      assert s == [s[0]] + s[1..] == s[..|s| - 1] + [s[|s| - 1]];
      if IsSpace(s[0]) { TrimRemovesSpace(s[1..]); }
      else if IsSpace(s[|s| - 1]) { TrimRemovesSpace(s[..|s| - 1]); }
    }
  }
}
