/** CanonicalPackage of documentation/package.go: one representation for packages that differ only in order and line
    ends. */
module CanonicalPackages {
  import opened Basics
  import opened Rearranging
  import opened Sorting
  import opened Strings

  datatype Contract = Contract(providerKey: string, contractRevision: string)

  datatype Document = Document(
    documentKey: string, topicKey: string, locale: string, kind: string, blockKey: string,
    title: string, summary: string, commonMarkdown: string, humanAppendix: string, agentAppendix: string,
    relatedTopics: seq<string>, needs: seq<Contract>)

  datatype Package = Package(
    formatVersion: int, providerKey: string, contractRevision: string, sourceRevision: string, documents: seq<Document>)

  /** What is left open: the patterns for keys, locales and revisions, the size of a text in bytes, and which packages
      encode to no more than two MiB. */
  datatype Rules = Rules(
    validKey: string -> bool, validLocale: string -> bool, validRevision: string -> bool,
    size: string -> nat, fits: Package -> bool)

  const FORMAT_VERSION := 1
  const MAX_DOCUMENTS := 64
  const MAX_TITLE := 512
  const MAX_SUMMARY := 2048
  const MAX_TOPICS := 32
  const MAX_NEEDS := 16

  // ---- line ends ----

  /** CRLF and then CR become LF. */
  function Fold(s: string): string { ReplaceChar(ReplacePair(s, '\r', '\n', "\n"), '\r', "\n") }

  /** The lines of a text, ended by CRLF, CR or LF. */
  function Lines(s: string): (lines: seq<string>)
    ensures lines != []
  {
    if s == "" then [""]
    else if s[0] == '\r' && |s| > 1 && s[1] == '\n' then [""] + Lines(s[2..])
    else if s[0] == '\r' || s[0] == '\n' then [""] + Lines(s[1..])
    else [[s[0]] + Lines(s[1..])[0]] + Lines(s[1..])[1..]
  }

  lemma {:induction false} LinesHaveNoEnds(s: string)
    ensures forall p, i | p in Lines(s) && 0 <= i < |p| :: p[i] != '\n' && p[i] != '\r'
  {
    if s != "" {
      var n := if s[0] == '\r' && |s| > 1 && s[1] == '\n' then 2 else 1;
      LinesHaveNoEnds(s[n..]);
    }
  }

  /** One step of Fold from the left. */
  lemma FoldFirst(s: string)
    requires s != ""
    ensures Fold(s) == if s[0] == '\r' && |s| > 1 && s[1] == '\n' then "\n" + Fold(s[2..])
                       else if s[0] == '\r' || s[0] == '\n' then "\n" + Fold(s[1..])
                       else [s[0]] + Fold(s[1..])
  {
    var r := ReplacePair(s, '\r', '\n', "\n");
    if s[0] == '\r' && |s| > 1 && s[1] == '\n' {
      assert r[1..] == ReplacePair(s[2..], '\r', '\n', "\n");
    } else {
      assert r[1..] == ReplacePair(s[1..], '\r', '\n', "\n");
    }
  }

  /** Folding keeps exactly the lines: two texts fold alike when and only when they have the same lines. */
  lemma {:induction false} FoldJoinsLines(s: string)
    ensures Fold(s) == Join(Lines(s), '\n')
  {
    if s == "" {
      JoinUnfolds([""], '\n');
    } else {
      FoldFirst(s);
      var n := if s[0] == '\r' && |s| > 1 && s[1] == '\n' then 2 else 1;
      FoldJoinsLines(s[n..]);
      JoinGrows(s[0], Lines(s[n..]), '\n');
    }
  }

  lemma FoldIffLines(a: string, b: string)
    ensures Fold(a) == Fold(b) <==> Lines(a) == Lines(b)
  {
    FoldJoinsLines(a);
    FoldJoinsLines(b);
    LinesHaveNoEnds(a);
    LinesHaveNoEnds(b);
    JoinSplits(Lines(a), '\n');
    JoinSplits(Lines(b), '\n');
  }

  lemma {:induction false} FoldTwice(s: string)
    ensures Fold(Fold(s)) == Fold(s)
  {
    if s != "" {
      FoldFirst(s);
      var n := if s[0] == '\r' && |s| > 1 && s[1] == '\n' then 2 else 1;
      FoldTwice(s[n..]);
      FoldFirst(Fold(s));
      assert Fold(s)[1..] == Fold(s[n..]);
    }
  }

  // ---- documents ----

  function Provider(c: Contract): string { c.providerKey }

  /** ValidDocumentRelation. */
  predicate ValidRelation(d: Document, rules: Rules) {
    if d.kind == "" || d.kind == "overview" then d.blockKey == ""
    else if d.kind == "blockGuide" then rules.validKey(d.blockKey)
    else d.kind == "reference" && (d.blockKey == "" || rules.validKey(d.blockKey))
  }

  predicate NoNul(s: string) { '\0' !in s }

  /** Everything about a document that does not depend on the order of its lists. */
  predicate ValidTexts(d: Document, rules: Rules) {
    && ValidRelation(d, rules)
    && rules.validKey(d.documentKey) && rules.validKey(d.topicKey) && rules.validLocale(d.locale)
    && NoNul(d.title) && NoNul(d.summary) && NoNul(d.commonMarkdown) && NoNul(d.humanAppendix) && NoNul(d.agentAppendix)
    && TrimSpace(Fold(d.title)) != "" && rules.size(Fold(d.title)) <= MAX_TITLE
    && TrimSpace(Fold(d.summary)) != "" && rules.size(Fold(d.summary)) <= MAX_SUMMARY
    && TrimSpace(Fold(d.commonMarkdown)) != ""
  }

  function ValidNeed(rules: Rules): Contract -> bool {
    (c: Contract) => rules.validKey(c.providerKey) && rules.validKey(c.contractRevision)
  }

  ghost predicate ValidDocument(d: Document, rules: Rules) {
    && ValidTexts(d, rules) && ValidList(d.relatedTopics, Self, rules.validKey, MAX_TOPICS)
    && ValidList(d.needs, Provider, ValidNeed(rules), MAX_NEEDS)
  }

  function FoldedTexts(d: Document): Document {
    d.(title := Fold(d.title), summary := Fold(d.summary), commonMarkdown := Fold(d.commonMarkdown),
       humanAppendix := Fold(d.humanAppendix), agentAppendix := Fold(d.agentAppendix))
  }

  /** `n` is `d` with folded texts and sorted lists. */
  ghost predicate DocumentForm(d: Document, n: Document) {
    && n == FoldedTexts(d).(relatedTopics := n.relatedTopics, needs := n.needs)
    && multiset(n.relatedTopics) == multiset(d.relatedTopics) && Sorted(n.relatedTopics, Self, Before)
    && multiset(n.needs) == multiset(d.needs) && Sorted(n.needs, Provider, Before)
  }

  method CanonicalDocument(d: Document, rules: Rules) returns (n: Document, ok: bool)
    ensures ok <==> ValidDocument(d, rules)
    ensures ok ==> DocumentForm(d, n)
  {
    n := FoldedTexts(d);
    if !ValidTexts(d, rules) { return n, false; }
    var topics, needs;
    topics, ok := SortChecked(d.relatedTopics, Self, rules.validKey, MAX_TOPICS);
    if !ok { return; }
    needs, ok := SortChecked(d.needs, Provider, ValidNeed(rules), MAX_NEEDS);
    n := n.(relatedTopics := topics, needs := needs);
  }

  // ---- packages ----

  function DocumentId(d: Document): (string, string) { (d.documentKey, d.locale) }

  predicate ValidIdentity(p: Package, rules: Rules) {
    && p.formatVersion == FORMAT_VERSION && rules.validKey(p.providerKey) && rules.validKey(p.contractRevision)
    && rules.validRevision(p.sourceRevision) && 0 < |p.documents| <= MAX_DOCUMENTS
  }

  ghost predicate AcceptableDocuments(docs: seq<Document>, rules: Rules) {
    (forall d | d in docs :: ValidDocument(d, rules)) && DistinctKeys(docs, DocumentId)
  }

  /** What a package must meet before it is encoded. */
  ghost predicate Acceptable(p: Package, rules: Rules) {
    && ValidIdentity(p, rules) && AcceptableDocuments(p.documents, rules)
  }

  lemma {:induction false} FoldBlank(s: string)
    ensures AllSpace(Fold(s)) <==> AllSpace(s)
  {
    if s != "" {
      FoldFirst(s);
      var n := if s[0] == '\r' && |s| > 1 && s[1] == '\n' then 2 else 1;
      FoldBlank(s[n..]);
      assert s == s[..n] + s[n..];
      SpaceConcat(s[..n], s[n..]);
      SpaceConcat(if s[0] == '\r' || s[0] == '\n' then "\n" else [s[0]], Fold(s[n..]));
    }
  }

  /** A guide names the block it is about, an overview names none and a reference may; the texts hold no NUL; and title,
      summary and body are not blank, which folding cannot change. */
  lemma WhichTextsAreValid(d: Document, rules: Rules)
    ensures ValidTexts(d, rules) <==>
      && rules.validKey(d.documentKey) && rules.validKey(d.topicKey) && rules.validLocale(d.locale)
      && d.kind in {"", "overview", "blockGuide", "reference"}
      && (d.blockKey == "" ==> d.kind != "blockGuide" || rules.validKey(""))
      && (d.blockKey != "" ==> d.kind in {"blockGuide", "reference"} && rules.validKey(d.blockKey))
      && (forall text | text in [d.title, d.summary, d.commonMarkdown, d.humanAppendix, d.agentAppendix] ::
            '\0' !in text)
      && !AllSpace(d.title) && !AllSpace(d.summary) && !AllSpace(d.commonMarkdown)
      && rules.size(Fold(d.title)) <= 512 && rules.size(Fold(d.summary)) <= 2048
  {
    var texts := [d.title, d.summary, d.commonMarkdown, d.humanAppendix, d.agentAppendix];
    assert texts[0] in texts && texts[1] in texts && texts[2] in texts && texts[3] in texts && texts[4] in texts;
    forall s ensures TrimSpace(Fold(s)) != "" <==> !AllSpace(s) {
      BlankIff(Fold(s));
      FoldBlank(s);
    }
  }

  /** The limits of a package: 1 to 64 documents, no two for the same key and locale, each with at most 32 topics and 16
      contracts, none of which is repeated. */
  lemma WhichAreAcceptable(p: Package, rules: Rules)
    ensures Acceptable(p, rules) <==>
      && p.formatVersion == 1 && rules.validKey(p.providerKey) && rules.validKey(p.contractRevision)
      && rules.validRevision(p.sourceRevision) && 1 <= |p.documents| <= 64
      && (forall i, j | 0 <= i < j < |p.documents| ::
            p.documents[i].documentKey != p.documents[j].documentKey || p.documents[i].locale != p.documents[j].locale)
      && (forall d | d in p.documents ::
            && ValidTexts(d, rules)
            && |d.relatedTopics| <= 32 && (forall t | t in d.relatedTopics :: rules.validKey(t))
            && (forall i, j | 0 <= i < j < |d.relatedTopics| :: d.relatedTopics[i] != d.relatedTopics[j])
            && |d.needs| <= 16
            && (forall c | c in d.needs :: rules.validKey(c.providerKey) && rules.validKey(c.contractRevision))
            && (forall i, j | 0 <= i < j < |d.needs| :: d.needs[i].providerKey != d.needs[j].providerKey))
  {
    assert DistinctKeys(p.documents, DocumentId) <==>
      forall i, j | 0 <= i < j < |p.documents| ::
        p.documents[i].documentKey != p.documents[j].documentKey || p.documents[i].locale != p.documents[j].locale;
  }

  ghost predicate Forms(docs: seq<Document>, forms: seq<Document>) { Pairwise(docs, forms, DocumentForm) }

  /** `out` is `p` with every document in its form and the documents sorted. */
  ghost predicate PackageForm(p: Package, out: Package) {
    && out == p.(documents := out.documents) && Sorted(out.documents, DocumentId, PairBefore)
    && exists forms :: Forms(p.documents, forms) && multiset(out.documents) == multiset(forms)
  }

  /** What CanonicalPackage promises. */
  ghost predicate Canonicalizes(p: Package, r: Option<Package>, rules: Rules) {
    match r
    case Some(out) => Acceptable(p, rules) && PackageForm(p, out) && rules.fits(out)
    case None => Acceptable(p, rules) ==> exists out :: PackageForm(p, out) && !rules.fits(out)
  }

  method CanonicalPackage(p: Package, rules: Rules) returns (r: Option<Package>)
    ensures Canonicalizes(p, r, rules)
  {
    if !ValidIdentity(p, rules) { return None; }
    var forms, ok := CanonicalDocuments(p.documents, rules);
    if !ok { return None; }
    var documents, repeated := SortDocuments(p.documents, forms);
    if repeated { return None; }
    var out := p.(documents := documents);
    assert PackageForm(p, out);
    return if rules.fits(out) then Some(out) else None;
  }

  /** The first loop: each document in its form. */
  method CanonicalDocuments(docs: seq<Document>, rules: Rules) returns (forms: seq<Document>, ok: bool)
    ensures ok <==> forall d | d in docs :: ValidDocument(d, rules)
    ensures ok ==> Forms(docs, forms)
  {
    ValidMembers(docs, rules);
    forms := [];
    for i := 0 to |docs|
      invariant AllValid(docs, i, rules) && Forms(docs[..i], forms)
    {
      var n;
      n, ok := CanonicalDocument(docs[i], rules);
      if !ok { return; }
      PairwiseOne(docs, i, forms, n, DocumentForm);
      forms := forms + [n];
    }
    assert docs[..|docs|] == docs;
    ok := true;
  }

  /** The first `n` documents are valid. */
  ghost predicate AllValid(docs: seq<Document>, n: nat, rules: Rules) {
    n <= |docs| && forall i | 0 <= i < n :: ValidDocument(docs[i], rules)
  }

  lemma ValidMembers(docs: seq<Document>, rules: Rules)
    ensures AllValid(docs, |docs|, rules) <==> forall d | d in docs :: ValidDocument(d, rules)
  {
    if AllValid(docs, |docs|, rules) {
      forall d | d in docs ensures ValidDocument(d, rules) {
        var i :| 0 <= i < |docs| && docs[i] == d;
      }
    }
  }

  method SortDocuments(ghost docs: seq<Document>, forms: seq<Document>)
    returns (documents: seq<Document>, repeated: bool)
    requires Forms(docs, forms)
    ensures Sorted(documents, DocumentId, PairBefore) && multiset(documents) == multiset(forms)
    ensures repeated <==> !DistinctKeys(docs, DocumentId)
  {
    PairsAreOrdered();
    documents := Sort(forms, DocumentId, PairBefore);
    repeated := HasRepeatedId(documents);
    SameIds(docs, forms, documents);
  }

  /** The last loop: neighbours with one identity. */
  method HasRepeatedId(documents: seq<Document>) returns (repeated: bool)
    requires Sorted(documents, DocumentId, PairBefore)
    ensures repeated <==> !DistinctKeys(documents, DocumentId)
  {
    PairsAreOrdered();
    var i := 1;
    while i < |documents|
      invariant i >= 1
      invariant forall j | 0 < j < i && j < |documents| :: DocumentId(documents[j - 1]) != DocumentId(documents[j])
    {
      if documents[i].documentKey == documents[i - 1].documentKey && documents[i].locale == documents[i - 1].locale {
        return true;
      }
      i := i + 1;
    }
    AdjacentDiffer(documents, DocumentId, PairBefore);
    return false;
  }

  lemma SameIds(docs: seq<Document>, forms: seq<Document>, sorted: seq<Document>)
    requires Forms(docs, forms) && multiset(sorted) == multiset(forms)
    ensures DistinctKeys(docs, DocumentId) <==> DistinctKeys(sorted, DocumentId)
  {
    assert forall i | 0 <= i < |docs| :: DocumentId(docs[i]) == DocumentId(forms[i]);
    if DistinctKeys(docs, DocumentId) { DistinctAnyOrder(forms, sorted, DocumentId); }
    if DistinctKeys(sorted, DocumentId) { DistinctAnyOrder(sorted, forms, DocumentId); }
  }

  // ---- the form is normal ----

  /** Two documents that differ only in line ends and in the order of their lists. */
  ghost predicate SameDocument(a: Document, b: Document) {
    && b == a.(title := b.title, summary := b.summary, commonMarkdown := b.commonMarkdown,
               humanAppendix := b.humanAppendix, agentAppendix := b.agentAppendix,
               relatedTopics := b.relatedTopics, needs := b.needs)
    && Lines(a.title) == Lines(b.title) && Lines(a.summary) == Lines(b.summary)
    && Lines(a.commonMarkdown) == Lines(b.commonMarkdown)
    && Lines(a.humanAppendix) == Lines(b.humanAppendix) && Lines(a.agentAppendix) == Lines(b.agentAppendix)
    && multiset(a.relatedTopics) == multiset(b.relatedTopics) && multiset(a.needs) == multiset(b.needs)
  }

  ghost predicate SameDocuments(a: seq<Document>, b: seq<Document>) { Pairwise(a, b, SameDocument) }

  /** Packages that differ only in the order of documents, topics and contracts, and in line ends. */
  ghost predicate Equivalent(p: Package, q: Package) {
    && q == p.(documents := q.documents)
    && exists docs :: multiset(docs) == multiset(q.documents) && SameDocuments(p.documents, docs)
  }

  lemma SameFold(a: Document, b: Document)
    requires SameDocument(a, b)
    ensures FoldedTexts(b) == FoldedTexts(a).(relatedTopics := b.relatedTopics, needs := b.needs)
  {
    FoldIffLines(a.title, b.title);
    FoldIffLines(a.summary, b.summary);
    FoldIffLines(a.commonMarkdown, b.commonMarkdown);
    FoldIffLines(a.humanAppendix, b.humanAppendix);
    FoldIffLines(a.agentAppendix, b.agentAppendix);
  }

  lemma SameDocumentSameForm(a: Document, b: Document, n: Document)
    requires DocumentForm(a, n)
    ensures SameDocument(a, b) <==> DocumentForm(b, n)
  {
    if SameDocument(a, b) { SameFold(a, b); }
    if DocumentForm(b, n) {
      FoldIffLines(a.title, b.title);
      FoldIffLines(a.summary, b.summary);
      FoldIffLines(a.commonMarkdown, b.commonMarkdown);
      FoldIffLines(a.humanAppendix, b.humanAppendix);
      FoldIffLines(a.agentAppendix, b.agentAppendix);
    }
  }

  lemma KeyedOnce<T, K>(list: seq<T>, key: T -> K, x: T, y: T)
    requires DistinctKeys(list, key) && x in list && y in list && key(x) == key(y)
    ensures x == y
  {
    var i :| 0 <= i < |list| && list[i] == x;
    var j :| 0 <= j < |list| && list[j] == y;
  }

  /** Sorting a list with distinct keys has one result. */
  lemma OneSortedList<T, K(!new)>(list: seq<T>, a: seq<T>, b: seq<T>, key: T -> K, less: (K, K) -> bool)
    requires StrictTotal(less) && DistinctKeys(list, key)
    requires multiset(a) == multiset(list) && Sorted(a, key, less)
    requires multiset(b) == multiset(list) && Sorted(b, key, less)
    ensures a == b
  {
    SameElements(a, list);
    forall x, y | x in a && y in a && key(x) == key(y) ensures x == y {
      KeyedOnce(list, key, x, y);
    }
    SortedUnique(a, b, key, less);
  }

  lemma OneForm(d: Document, f: Document, g: Document, rules: Rules)
    requires ValidDocument(d, rules) && DocumentForm(d, f) && DocumentForm(d, g)
    ensures f == g
  {
    StringsAreOrdered();
    OneSortedList(d.relatedTopics, f.relatedTopics, g.relatedTopics, Self, Before);
    OneSortedList(d.needs, f.needs, g.needs, Provider, Before);
  }

  /** A canonical package is decided by the documents it came from. */
  lemma OnePackageForm(p: Package, q: Package, out: Package, other: Package, rules: Rules)
    requires Acceptable(p, rules) && Acceptable(q, rules) && Equivalent(p, q)
    requires PackageForm(p, out) && PackageForm(q, other)
    ensures out == other
  {
    var forms :| Forms(p.documents, forms) && multiset(out.documents) == multiset(forms);
    var otherForms :| Forms(q.documents, otherForms) && multiset(other.documents) == multiset(otherForms);
    var docs :| multiset(docs) == multiset(q.documents) && SameDocuments(p.documents, docs);
    forall i | 0 <= i < |docs| ensures DocumentForm(docs[i], forms[i]) {
      SameDocumentSameForm(p.documents[i], docs[i], forms[i]);
    }
    forall d, f, g | d in q.documents && DocumentForm(d, f) && DocumentForm(d, g) ensures f == g {
      OneForm(d, f, g, rules);
    }
    FormsAnyOrder(docs, forms, q.documents, otherForms, DocumentForm);
    SameIds(p.documents, forms, forms);
    PairsAreOrdered();
    OneSortedList(forms, out.documents, other.documents, DocumentId, PairBefore);
  }

  lemma {:induction false} FoldKeepsNul(s: string)
    ensures NoNul(s) <==> NoNul(Fold(s))
  {
    if s != "" {
      FoldFirst(s);
      var n := if s[0] == '\r' && |s| > 1 && s[1] == '\n' then 2 else 1;
      FoldKeepsNul(s[n..]);
      assert s == s[..n] + s[n..] && (n == 1 ==> s[..n] == [s[0]]) && (n == 2 ==> s[..n] == ['\r', '\n']);
    }
  }

  lemma SameNul(a: string, b: string)
    requires Lines(a) == Lines(b)
    ensures NoNul(a) <==> NoNul(b)
  {
    FoldIffLines(a, b);
    FoldKeepsNul(a);
    FoldKeepsNul(b);
  }

  lemma SameValidity(a: Document, b: Document, rules: Rules)
    requires SameDocument(a, b) && ValidDocument(a, rules)
    ensures ValidDocument(b, rules)
  {
    SameFold(a, b);
    SameNul(a.title, b.title);
    SameNul(a.summary, b.summary);
    SameNul(a.commonMarkdown, b.commonMarkdown);
    SameNul(a.humanAppendix, b.humanAppendix);
    SameNul(a.agentAppendix, b.agentAppendix);
    ValidListAnyOrder(a.relatedTopics, b.relatedTopics, Self, rules.validKey, MAX_TOPICS);
    ValidListAnyOrder(a.needs, b.needs, Provider, ValidNeed(rules), MAX_NEEDS);
  }

  lemma SameAccepted(a: seq<Document>, b: seq<Document>, rules: Rules)
    requires SameDocuments(a, b) && AcceptableDocuments(a, rules)
    ensures AcceptableDocuments(b, rules)
  {
    forall d | d in b ensures ValidDocument(d, rules) {
      var i :| 0 <= i < |b| && b[i] == d;
      assert a[i] in a;
      SameValidity(a[i], b[i], rules);
    }
    assert forall i | 0 <= i < |b| :: DocumentId(b[i]) == DocumentId(a[i]);
  }

  lemma SameAcceptance(p: Package, q: Package, rules: Rules)
    requires Equivalent(p, q) && Acceptable(p, rules)
    ensures Acceptable(q, rules)
  {
    var docs :| multiset(docs) == multiset(q.documents) && SameDocuments(p.documents, docs);
    assert |docs| == |multiset(docs)| == |multiset(q.documents)| == |q.documents|;
    SameAccepted(p.documents, docs, rules);
    DistinctAnyOrder(docs, q.documents, DocumentId);
    SameElements(docs, q.documents);
  }

  lemma SameBack(a: Document, b: Document)
    requires SameDocument(a, b)
    ensures SameDocument(b, a)
  {}

  lemma EquivalentBack(p: Package, q: Package)
    requires Equivalent(p, q)
    ensures Equivalent(q, p)
  {
    var docs :| multiset(docs) == multiset(q.documents) && SameDocuments(p.documents, docs);
    var lined := LineUp(q.documents, p.documents, docs, SameDocument);
    forall i | 0 <= i < |lined| ensures SameDocument(q.documents[i], lined[i]) {
      SameBack(lined[i], q.documents[i]);
    }
    assert SameDocuments(q.documents, lined);
  }

  /** CanonicalPackage is a normal form. Packages that differ only in the order of documents, topics and contracts and
      in line ends are both rejected or have one canonical package, and packages with one canonical package differ in
      nothing else. */
  lemma NormalForm(p: Package, q: Package, r: Option<Package>, s: Option<Package>, rules: Rules)
    requires Canonicalizes(p, r, rules) && Canonicalizes(q, s, rules)
    ensures Equivalent(p, q) ==> r == s
    ensures r.Some? && r == s ==> Equivalent(p, q)
  {
    if Equivalent(p, q) {
      EquivalentBack(p, q);
      if Acceptable(p, rules) { SameAcceptance(p, q, rules); }
      if Acceptable(q, rules) { SameAcceptance(q, p, rules); }
      if Acceptable(p, rules) {
        var out := if r.Some? then r.value else var o :| PackageForm(p, o) && !rules.fits(o); o;
        var other := if s.Some? then s.value else var o :| PackageForm(q, o) && !rules.fits(o); o;
        OnePackageForm(p, q, out, other, rules);
      }
    }
    if r.Some? && r == s { SharedForm(p, q, r.value); }
  }

  lemma SharedForm(p: Package, q: Package, out: Package)
    requires PackageForm(p, out) && PackageForm(q, out)
    ensures Equivalent(p, q)
  {
    var forms :| Forms(p.documents, forms) && multiset(out.documents) == multiset(forms);
    var otherForms :| Forms(q.documents, otherForms) && multiset(out.documents) == multiset(otherForms);
    var lined := LineUp(forms, q.documents, otherForms, DocumentForm);
    forall i | 0 <= i < |lined| ensures SameDocument(p.documents[i], lined[i]) {
      SameDocumentSameForm(p.documents[i], lined[i], forms[i]);
    }
    assert SameDocuments(p.documents, lined);
  }

  lemma FormIsSame(d: Document, n: Document)
    requires DocumentForm(d, n)
    ensures SameDocument(d, n)
  {
    FoldTwice(d.title);
    FoldTwice(d.summary);
    FoldTwice(d.commonMarkdown);
    FoldTwice(d.humanAppendix);
    FoldTwice(d.agentAppendix);
    FoldIffLines(d.title, n.title);
    FoldIffLines(d.summary, n.summary);
    FoldIffLines(d.commonMarkdown, n.commonMarkdown);
    FoldIffLines(d.humanAppendix, n.humanAppendix);
    FoldIffLines(d.agentAppendix, n.agentAppendix);
  }

  /** A canonical package is accepted and its own canonical package. */
  lemma CanonicalTwice(p: Package, out: Package, r: Option<Package>, rules: Rules)
    requires Canonicalizes(p, Some(out), rules) && Canonicalizes(out, r, rules)
    ensures Equivalent(p, out) && r == Some(out)
  {
    var forms :| Forms(p.documents, forms) && multiset(out.documents) == multiset(forms);
    forall i | 0 <= i < |forms| ensures SameDocument(p.documents[i], forms[i]) {
      FormIsSame(p.documents[i], forms[i]);
    }
    assert SameDocuments(p.documents, forms);
    NormalForm(p, out, Some(out), r, rules);
  }
}
