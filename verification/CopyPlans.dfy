/** schemetransfer/copy_plan.go and copy_files.go: a settings document is split into a skeleton and the references moved
    out of it, checked, and put together again. */
module CopyPlans {
  import opened Basics
  import opened JsonPointers
  import opened Strings

  datatype Selector = Selector(kind: string, sourceKey: string, owner: string, valueType: string)

  /** One value moved out of the settings; `file` is the media file attached to it. */
  datatype CopyReference = CopyReference(
    file: Option<string>, path: string, resource: Selector, value: Json, readAs: string, writeAs: string,
    access: string)

  datatype Plan = Plan(references: seq<CopyReference>, templates: seq<string>)

  datatype Response = Response(settings: Json, plan: Option<Plan>)

  datatype Problem =
    | BadPath(code: Code, path: string)
    | SettingsMustBeObject
    | ListRequired(path: string)
    | InvalidContract
    | PlanRequired
    | TooComplex(path: string)
    | Overlapping(path: string)
    | PlaceholderRequired(path: string)
    | InvalidFile(path: string)
    | ConflictingFile(path: string)
    | InvalidEncoding(path: string)
    | SourceValueRequired(path: string)
    | TemplateMustBeString(path: string)
    | InvalidTemplate(path: string)

  /** What the model leaves open: the limits of DecodeJSON, the JSON Schema of a response, and which texts are
      templates. */
  datatype Rules = Rules(fits: Json -> bool, shape: Response -> bool, isTemplate: string -> bool)

  // ---- checking a plan ----

  predicate ValidFile(ref: CopyReference) {
    ref.file.Some? ==>
      && ref.resource.kind == "integrationResource"
      && ref.readAs == "value" && ref.writeAs == "value" && ref.access == ""
      && ref.value.Text? && ref.value.s != ""
  }

  /** validateRuleSemantics for the rule of one occurrence, which never has a default. */
  predicate ValidEncoding(ref: CopyReference) {
    if ref.resource.kind == "integrationResource" then ref.readAs == "value" && ref.writeAs == "value"
    else
      && ref.readAs != "value" && ref.writeAs != "value"
      && (ref.resource.kind == "branch" || ref.resource.kind == "tag" ==> ref.readAs == "id" && ref.writeAs == "id")
  }

  predicate ValidValue(ref: CopyReference, rules: Rules) {
    && rules.fits(ref.value) && ref.value != Null
    && (ref.resource.kind != "integrationResource" ==> ref.value.Text? && TrimSpace(ref.value.s) != "")
  }

  /** The files of the library entries seen, by source and value. */
  type Files = map<(string, string), string>

  /** copyPointer without replacement, on one document. */
  type Reader = string -> Result<Json, Code>

  function Read(settings: Json): Reader { path => Lookup(settings, path) }

  predicate ValidReference(read: Reader, ref: CopyReference, rules: Rules) {
    read(ref.path) == Ok(Null) && Acceptable(ref, rules)
  }

  predicate Acceptable(ref: CopyReference, rules: Rules) {
    ValidFile(ref) && ValidEncoding(ref) && ValidValue(ref, rules)
  }

  predicate ValidTemplate(read: Reader, path: string, rules: Rules) {
    match read(path)
    case Ok(Text(s)) => rules.isTemplate(s)
    case _ => false
  }

  /** Two references to the same library entry that carry different files. */
  predicate FilesConflict(a: CopyReference, b: CopyReference) {
    && a.file.Some? && b.file.Some? && a.resource.sourceKey == b.resource.sourceKey && a.value == b.value
    && a.file.value != "" && a.file.value != b.file.value
  }

  function Paths(refs: seq<CopyReference>): seq<string> { seq(|refs|, i requires 0 <= i < |refs| => refs[i].path) }

  /** When two paths must not both be in a plan. */
  type Clash = (string, string) -> bool

  predicate Apart(paths: seq<string>, clash: Clash) { ApartUpTo(paths, |paths|, clash) }

  predicate ValidPlan(settings: Json, plan: Plan, rules: Rules) {
    && rules.fits(settings)
    && Apart(Paths(plan.references) + plan.templates, Overlap)
    && ValidReferences(Read(settings), plan.references, rules) && ValidTemplates(Read(settings), plan.templates, rules)
  }

  predicate ValidReferences(read: Reader, refs: seq<CopyReference>, rules: Rules) {
    && (forall i | 0 <= i < |refs| :: ValidReference(read, refs[i], rules))
    && NoneConflict(refs, |refs|)
  }

  predicate NoneConflict(refs: seq<CopyReference>, n: nat) {
    n <= |refs| && forall i, j | 0 <= i < j < n :: !FilesConflict(refs[i], refs[j])
  }

  predicate ValidTemplates(read: Reader, templates: seq<string>, rules: Rules) {
    forall i | 0 <= i < |templates| :: ValidTemplate(read, templates[i], rules)
  }

  predicate ValidResponse(r: Response, rules: Rules) {
    rules.shape(r) && r.plan.Some? && ValidPlan(r.settings, r.plan.value, rules)
  }

  predicate Free(paths: set<string>, path: string, clash: Clash) { forall p | p in paths :: !clash(p, path) }

  /** checkPath: the path must not overlap any path seen before it. */
  method CheckPath(read: Reader, paths: set<string>, path: string, clash: Clash) returns (r: Result<Json, Problem>)
    ensures r.Ok? <==> Free(paths, path, clash) && read(path).Ok?
    ensures r.Ok? ==> r.value == read(path).value
  {
    if !Free(paths, path, clash) { return Err(Overlapping(path)); }
    match read(path) {
      case Ok(v) => return Ok(v);
      case Err(code) => return Err(BadPath(code, path));
    }
  }

  method CheckReference(ref: CopyReference, rules: Rules, files: Files)
    returns (err: Option<Problem>, files': Files)
    ensures err == None <==> Acceptable(ref, rules) && !RecordedConflict(files, ref)
    ensures err == None ==> files' == Recorded(files, ref)
  {
    files' := files;
    if !ValidFile(ref) { return Some(InvalidFile(ref.path)), files; }
    if ref.file.Some? {
      var identity := (ref.resource.sourceKey, ref.value.s);
      if identity in files && files[identity] != "" && files[identity] != ref.file.value {
        return Some(ConflictingFile(ref.path)), files;
      }
      files' := files[identity := ref.file.value];
    }
    if !ValidEncoding(ref) { return Some(InvalidEncoding(ref.path)), files; }
    if !rules.fits(ref.value) { return Some(TooComplex(ref.path)), files; }
    if ref.value == Null { return Some(SourceValueRequired(ref.path)), files; }
    if ref.resource.kind != "integrationResource" {
      if !ref.value.Text? || TrimSpace(ref.value.s) == "" { return Some(SourceValueRequired(ref.path)), files; }
    }
    return None, files';
  }

  /** By kind of resource. A library value may be anything but null, is read and written as a value, and may carry a
      file when it is a text that is not empty. Anything else is a text that is not blank, is read and written in
      another encoding, by id where it is a branch or a tag, and carries no file. */
  lemma WhatIsAcceptable(ref: CopyReference, rules: Rules)
    ensures Acceptable(ref, rules) <==>
      && rules.fits(ref.value)
      && if ref.resource.kind == "integrationResource" then
           && ref.readAs == ref.writeAs == "value" && ref.value != Null
           && (ref.file.Some? ==> ref.access == "" && ref.value.Text? && |ref.value.s| > 0)
         else
           && ref.file == None && ref.value.Text? && !AllSpace(ref.value.s)
           && "value" !in {ref.readAs, ref.writeAs}
           && (ref.resource.kind in {"branch", "tag"} ==> {ref.readAs, ref.writeAs} == {"id"})
  {
    if ref.value.Text? { BlankIff(ref.value.s); }
    assert {ref.readAs, ref.writeAs} == {"id"} <==> ref.readAs == "id" == ref.writeAs by {
      assert ref.readAs in {ref.readAs, ref.writeAs} && ref.writeAs in {ref.readAs, ref.writeAs};
    }
  }

  /** What a valid plan holds: null at each of its references, which are acceptable and agree on their files, and an
      accepted text at each of its templates, and none of its paths leads to the node of another or above it. */
  lemma WhatIsValid(settings: Json, plan: Plan, rules: Rules)
    ensures ValidPlan(settings, plan, rules) <==>
      && rules.fits(settings) && Apart(Paths(plan.references) + plan.templates, Overlap)
      && ReferencesStand(settings, plan.references, rules) && TemplatesStand(settings, plan.templates, rules)
  {
    var read, refs, templates := Read(settings), plan.references, plan.templates;
    assert ValidReferences(read, refs, rules) <==> ReferencesStand(settings, refs, rules);
    assert ValidTemplates(read, templates, rules) <==> TemplatesStand(settings, templates, rules) by {
      forall i | 0 <= i < |templates|
        ensures ValidTemplate(read, templates[i], rules) <==> Templated(settings, templates[i], rules)
      {
      }
    }
  }

  predicate ReferencesStand(settings: Json, refs: seq<CopyReference>, rules: Rules) {
    && (forall ref | ref in refs :: Lookup(settings, ref.path) == Ok(Null) && Acceptable(ref, rules))
    && (forall i, j | 0 <= i < j < |refs| :: !FilesConflict(refs[i], refs[j]))
  }

  predicate TemplatesStand(settings: Json, templates: seq<string>, rules: Rules) {
    forall t | t in templates :: Templated(settings, t, rules)
  }

  predicate Templated(settings: Json, path: string, rules: Rules) {
    var found := Lookup(settings, path);
    found.Ok? && found.value.Text? && rules.isTemplate(found.value.s)
  }

  function Recorded(files: Files, ref: CopyReference): Files {
    if ref.file.Some? && ref.value.Text? then files[(ref.resource.sourceKey, ref.value.s) := ref.file.value] else files
  }

  predicate RecordedConflict(files: Files, ref: CopyReference) {
    && ref.file.Some? && ValidFile(ref) && (ref.resource.sourceKey, ref.value.s) in files
    && files[(ref.resource.sourceKey, ref.value.s)] != ""
    && files[(ref.resource.sourceKey, ref.value.s)] != ref.file.value
  }

  /** The map of files tells whether a reference conflicts with an earlier one. */
  ghost predicate FilesOf(files: Files, refs: seq<CopyReference>, n: nat)
    requires n <= |refs|
  {
    forall ref: CopyReference | ValidFile(ref) ::
      RecordedConflict(files, ref) <==> exists i | 0 <= i < n :: FilesConflict(refs[i], ref)
  }

  /** The first `n` references are as they should be. */
  ghost predicate Checked(read: Reader, refs: seq<CopyReference>, rules: Rules, files: Files, n: nat) {
    && n <= |refs| && FilesOf(files, refs, n)
    && (forall i | 0 <= i < n :: ValidReference(read, refs[i], rules))
    && NoneConflict(refs, n)
  }

  lemma CheckedNext(read: Reader, refs: seq<CopyReference>, rules: Rules, files: Files, n: nat)
    requires Checked(read, refs, rules, files, n) && n < |refs|
    requires ValidReference(read, refs[n], rules) && !RecordedConflict(files, refs[n])
    ensures Checked(read, refs, rules, Recorded(files, refs[n]), n + 1)
  {
    RecordedAll(files, refs, n);
    NextConflictsNot(refs, files, n);
  }

  lemma NextConflictsNot(refs: seq<CopyReference>, files: Files, n: nat)
    requires n < |refs| && FilesOf(files, refs, n) && NoneConflict(refs, n)
    requires ValidFile(refs[n]) && !RecordedConflict(files, refs[n])
    ensures NoneConflict(refs, n + 1)
  {
    ConflictIsRecorded(refs, files, n);
  }

  lemma ConflictIsRecorded(refs: seq<CopyReference>, files: Files, n: nat)
    requires n < |refs| && FilesOf(files, refs, n)
    ensures ValidFile(refs[n]) ==>
      (RecordedConflict(files, refs[n]) <==> exists i | 0 <= i < n :: FilesConflict(refs[i], refs[n]))
  {}

  lemma RecordedAll(files: Files, refs: seq<CopyReference>, n: nat)
    requires n < |refs| && FilesOf(files, refs, n) && ValidFile(refs[n]) && !RecordedConflict(files, refs[n])
    ensures FilesOf(Recorded(files, refs[n]), refs, n + 1)
  {
    forall ref: CopyReference | ValidFile(ref)
      ensures RecordedConflict(Recorded(files, refs[n]), ref)
        <==> exists i | 0 <= i < n + 1 :: FilesConflict(refs[i], ref)
    {
      RecordedOne(files, refs, n, ref);
    }
  }

  lemma RecordedOne(files: Files, refs: seq<CopyReference>, n: nat, ref: CopyReference)
    requires n < |refs| && FilesOf(files, refs, n) && ValidFile(refs[n]) && !RecordedConflict(files, refs[n])
    requires ValidFile(ref)
    ensures RecordedConflict(Recorded(files, refs[n]), ref)
      <==> exists i | 0 <= i < n + 1 :: FilesConflict(refs[i], ref)
  {
    var r := refs[n];
    if r.file.Some? && ref.file.Some? && r.resource.sourceKey == ref.resource.sourceKey && r.value == ref.value {
      if exists i | 0 <= i < n :: FilesConflict(refs[i], ref) {
        var i :| 0 <= i < n && FilesConflict(refs[i], ref);
        assert !FilesConflict(refs[i], r);
        assert FilesConflict(r, ref);
      }
    } else {
      assert !FilesConflict(r, ref);
      assert RecordedConflict(Recorded(files, r), ref) == RecordedConflict(files, ref);
    }
  }

  method ValidatePlan(settings: Json, plan: Plan, rules: Rules) returns (err: Option<Problem>)
    ensures err == None <==> ValidPlan(settings, plan, rules)
  {
    if !rules.fits(settings) { return Some(TooComplex("")); }
    ghost var all := Paths(plan.references) + plan.templates;
    var paths;
    err, paths := ValidateReferences(Read(settings), plan.references, rules, Overlap, all);
    if err != None { return; }
    err := ValidateTemplates(Read(settings), plan.templates, rules, Overlap, all, paths);
  }

  /** The first loop of validatePlan; `all` are the paths of the whole plan. */
  method ValidateReferences(read: Reader, refs: seq<CopyReference>, rules: Rules, clash: Clash, ghost all: seq<string>)
    returns (err: Option<Problem>, paths: set<string>)
    requires Paths(refs) <= all
    ensures err == None ==> ValidReferences(read, refs, rules) && SeenBy(all, clash)(paths, |refs|)
    ensures err != None ==> !ValidReferences(read, refs, rules) || !Apart(all, clash)
  {
    paths := {};
    var files: Files := map[];
    ghost var seen := SeenBy(all, clash);
    for n := 0 to |refs|
      invariant seen(paths, n) && Checked(read, refs, rules, files, n)
    {
      assert all[n] == Paths(refs)[n] == refs[n].path;
      NextPath(paths, all, n, clash);
      ConflictIsRecorded(refs, files, n);
      var v := CheckPath(read, paths, refs[n].path, clash);
      if v.Err? { return Some(v.error), paths; }
      paths := paths + {refs[n].path};
      if v.value != Null { return Some(PlaceholderRequired(refs[n].path)), paths; }
      var files';
      err, files' := CheckReference(refs[n], rules, files);
      if err != None { return; }
      CheckedNext(read, refs, rules, files, n);
      files := files';
    }
    return None, paths;
  }

  method CheckTemplate(read: Reader, paths: set<string>, path: string, rules: Rules, clash: Clash)
    returns (err: Option<Problem>)
    ensures err == None <==> Free(paths, path, clash) && ValidTemplate(read, path, rules)
  {
    var v := CheckPath(read, paths, path, clash);
    if v.Err? { return Some(v.error); }
    if !v.value.Text? { return Some(TemplateMustBeString(path)); }
    if !rules.isTemplate(v.value.s) { return Some(InvalidTemplate(path)); }
    return None;
  }

  /** The second loop. */
  method ValidateTemplates(
    read: Reader, templates: seq<string>, rules: Rules, clash: Clash, ghost all: seq<string>, seen: set<string>)
    returns (err: Option<Problem>)
    requires |templates| <= |all| && SeenBy(all, clash)(seen, |all| - |templates|)
    requires forall i | 0 <= i < |templates| :: all[|all| - |templates| + i] == templates[i]
    ensures err == None <==> ValidTemplates(read, templates, rules) && Apart(all, clash)
  {
    var paths := seen;
    ghost var before, seenBy := |all| - |templates|, SeenBy(all, clash);
    for n := 0 to |templates|
      invariant seenBy(paths, before + n)
      invariant forall i | 0 <= i < n :: ValidTemplate(read, templates[i], rules)
    {
      assert all[before + n] == templates[n];
      NextPath(paths, all, before + n, clash);
      err := CheckTemplate(read, paths, templates[n], rules, clash);
      if err != None { return; }
      paths := paths + {templates[n]};
    }
    AllSeen(paths, all, clash);
    return None;
  }

  predicate ApartUpTo(all: seq<string>, n: nat, clash: Clash) {
    n <= |all| && forall i, j | 0 <= i < j < n :: !clash(all[i], all[j])
  }

  /** The first `n` paths have been seen and none of them overlap. */
  ghost predicate SeenPaths(paths: set<string>, all: seq<string>, n: nat, clash: Clash) {
    && ApartUpTo(all, n, clash)
    && (forall i | 0 <= i < n :: all[i] in paths) && (forall p | p in paths :: exists i | 0 <= i < n :: all[i] == p)
  }

  ghost function SeenBy(all: seq<string>, clash: Clash): (set<string>, nat) -> bool {
    (paths: set<string>, n: nat) => SeenPaths(paths, all, n, clash)
  }

  lemma AllSeen(paths: set<string>, all: seq<string>, clash: Clash)
    requires SeenBy(all, clash)(paths, |all|)
    ensures Apart(all, clash)
  {}

  lemma NextPath(paths: set<string>, all: seq<string>, n: nat, clash: Clash)
    requires n < |all| && SeenBy(all, clash)(paths, n)
    ensures Free(paths, all[n], clash) ==> SeenBy(all, clash)(paths + {all[n]}, n + 1)
    ensures !Free(paths, all[n], clash) ==> !Apart(all, clash)
  {
    if !Free(paths, all[n], clash) {
      var p :| p in paths && clash(p, all[n]);
      var i :| 0 <= i < n && all[i] == p;
      assert clash(all[i], all[n]);
    } else {
      assert forall i | 0 <= i < n :: all[i] in paths && !clash(all[i], all[n]);
    }
  }
}
