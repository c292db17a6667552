/** schemetransfer: CopyBuilder splits a settings document, HydratedSettings puts it together again. */
module CopyBuilding {
  import opened Basics
  import opened CopyPlans
  import opened Decimals
  import opened JsonPointers
  import opened Placements

  // ---- putting references back ----

  /** Values written at the paths of a document. */
  function Documents(): Store<Json, CopyReference> {
    Store((v: Json, ref: CopyReference) => Lookup(v, ref.path).Ok?,
          (v: Json, ref: CopyReference) => Replace(v, ref.path, ref.value),
          (a: CopyReference, b: CopyReference) => !Overlap(a.path, b.path))
  }

  lemma DocumentsAreLawful()
    ensures Lawful(Documents())
  {
    forall v, a: CopyReference, b: CopyReference
      | Lookup(v, a.path).Ok? && Lookup(v, b.path).Ok? && !Overlap(a.path, b.path)
      ensures Lookup(Replace(v, a.path, a.value), b.path).Ok?
      ensures Replace(Replace(v, a.path, a.value), b.path, b.value)
           == Replace(Replace(v, b.path, b.value), a.path, a.value)
    {
      ReplaceApart(v, a.path, a.value, b.path, b.value);
    }
  }

  lemma PlanIsApart(settings: Json, plan: Plan, rules: Rules)
    requires ValidPlan(settings, plan, rules)
    ensures AllFound(Documents(), settings, plan.references)
  {
    var refs, paths := plan.references, Paths(plan.references);
    forall i | 0 <= i < |refs| ensures Lookup(settings, refs[i].path).Ok? {
      assert ValidReference(Read(settings), refs[i], rules);
    }
    forall i, j | 0 <= i < j < |refs| ensures !Overlap(refs[i].path, refs[j].path) {
      assert !Overlap((paths + plan.templates)[i], (paths + plan.templates)[j]);
    }
  }

  method ValidateResponse(r: Response, rules: Rules) returns (err: Option<Problem>)
    ensures err == None <==> ValidResponse(r, rules)
  {
    if !rules.shape(r) { return Some(InvalidContract); }
    if r.plan == None { return Some(PlanRequired); }
    err := ValidatePlan(r.settings, r.plan.value, rules);
  }

  /** A valid response hydrates; an invalid one is refused. */
  method HydratedSettings(r: Response, rules: Rules) returns (out: Result<Json, Problem>)
    ensures out.Ok? <==> ValidResponse(r, rules)
    ensures out.Ok? ==> out.value == Filled(Documents(), r.settings, r.plan.value.references)
  {
    var err := ValidateResponse(r, rules);
    if err.Some? { return Err(err.value); }
    PlanIsApart(r.settings, r.plan.value, rules);
    DocumentsAreLawful();
    out := PutBack(Documents(), r.settings, r.plan.value.references);
  }

  /** The loop of HydratedSettings. */
  method PutBack(docs: Store<Json, CopyReference>, settings: Json, refs: seq<CopyReference>)
    returns (out: Result<Json, Problem>)
    requires Lawful(docs) && AllFound(docs, settings, refs)
    ensures out == Ok(Filled(docs, settings, refs))
  {
    var v := settings;
    for n := 0 to |refs|
      invariant AllFound(docs, v, refs[n..]) && Filled(docs, v, refs[n..]) == Filled(docs, settings, refs)
    {
      var ref := refs[n];
      assert refs[n..] == [ref] + refs[n + 1..] && refs[n..][0] == ref;
      FoundAfterPut(docs, v, ref, refs[n + 1..]);
      v := docs.put(v, ref);
    }
    return Ok(v);
  }

  // ---- the builder ----

  /** What a CopyBuilder holds. */
  datatype Draft = Draft(settings: Json, references: seq<CopyReference>, templates: seq<string>, err: Option<Problem>)

  function Started(settings: Json, rules: Rules): Draft {
    Draft(settings, [], [],
      if !rules.fits(settings) then Some(TooComplex(""))
      else if !settings.Object? then Some(SettingsMustBeObject)
      else None)
  }

  function Moved(d: Draft, path: string, resource: Selector, readAs: string, writeAs: string, access: string): Draft {
    if d.err.Some? then d
    else match Lookup(d.settings, path)
      case Err(code) => d.(err := Some(BadPath(code, path)))
      case Ok(v) => d.(settings := Replace(d.settings, path, Null),
                       references := d.references + [CopyReference(None, path, resource, v, readAs, writeAs, access)])
  }

  function MovedResource(d: Draft, path: string, sourceKey: string): Draft {
    Moved(d, path, Selector("integrationResource", sourceKey, "", ""), "value", "value", "")
  }

  function MovedItems(d: Draft, path: string, sourceKey: string, from: int, end: int): Draft
    requires 0 <= from <= end
    decreases end - from
  {
    if from == end then d
    else MovedItems(MovedResource(d, Pointer(path, Itoa(from)), sourceKey), path, sourceKey, from + 1, end)
  }

  function MovedList(d: Draft, path: string, sourceKey: string): Draft {
    if d.err.Some? then d
    else match Lookup(d.settings, path)
      case Err(code) => d.(err := Some(BadPath(code, path)))
      case Ok(v) =>
        if v.Array? then MovedItems(d, path, sourceKey, 0, |v.items|) else d.(err := Some(ListRequired(path)))
  }

  function MovedFile(d: Draft, path: string, sourceKey: string, mediaFileId: string): Draft {
    var next := MovedResource(d, path, sourceKey);
    if next.err.Some? || next.references == [] then next
    else
      var last := |next.references| - 1;
      next.(references := next.references[last := next.references[last].(file := Some(mediaFileId))])
  }

  class CopyBuilder {
    var settings: Json
    var references: seq<CopyReference>
    var templates: seq<string>
    var err: Option<Problem>

    function Contents(): Draft
      reads this
    {
      Draft(settings, references, templates, err)
    }

    constructor (settings: Json, rules: Rules)
      ensures Contents() == Started(settings, rules)
      ensures err == None <==> rules.fits(settings) && settings.Object?
      ensures this.settings == settings && references == [] && templates == []
    {
      this.settings := settings;
      references, templates := [], [];
      err := if !rules.fits(settings) then Some(TooComplex(""))
             else if !settings.Object? then Some(SettingsMustBeObject)
             else None;
    }

    method Reference(path: string, resource: Selector, readAs: string, writeAs: string, access: string)
      modifies this
      ensures Contents() == Moved(old(Contents()), path, resource, readAs, writeAs, access)
      ensures err == None <==> old(err) == None && Lookup(old(settings), path).Ok?
      ensures if err == None then
                && settings == Replace(old(settings), path, Null)
                && references == old(references)
                   + [CopyReference(None, path, resource, Lookup(old(settings), path).value, readAs, writeAs, access)]
              else settings == old(settings) && references == old(references)
    {
      if err.Some? { return; }
      match Lookup(settings, path) {
        case Err(code) => err := Some(BadPath(code, path));
        case Ok(v) =>
          settings := Replace(settings, path, Null);
          references := references + [CopyReference(None, path, resource, v, readAs, writeAs, access)];
      }
    }

    method Resource(path: string, sourceKey: string)
      modifies this
      ensures Contents() == MovedResource(old(Contents()), path, sourceKey)
    {
      Reference(path, Selector("integrationResource", sourceKey, "", ""), "value", "value", "");
    }

    method SubjectVariable(path: string, valueType: string, access: string)
      modifies this
      ensures var resource := Selector("subjectVariable", "", "projectOrThisIntegration", valueType);
        Contents() == Moved(old(Contents()), path, resource, "key", "key", access)
    {
      Reference(path, Selector("subjectVariable", "", "projectOrThisIntegration", valueType), "key", "key", access);
    }

    method ResourceList(path: string, sourceKey: string)
      modifies this
      ensures Contents() == MovedList(old(Contents()), path, sourceKey)
      ensures old(err) != None || !Lookup(old(settings), path).Ok? || !Lookup(old(settings), path).value.Array? ==>
        err != None && settings == old(settings) && references == old(references)
    {
      if err.Some? { return; }
      var v := Lookup(settings, path);
      if v.Err? {
        err := Some(BadPath(v.error, path));
        return;
      }
      if !v.value.Array? {
        err := Some(ListRequired(path));
        return;
      }
      var n := |v.value.items|;
      for i := 0 to n
        invariant MovedItems(Contents(), path, sourceKey, i, n) == MovedItems(old(Contents()), path, sourceKey, 0, n)
      {
        Resource(Pointer(path, Itoa(i)), sourceKey);
      }
    }

    method File(path: string, sourceKey: string, mediaFileId: string)
      modifies this
      ensures Contents() == MovedFile(old(Contents()), path, sourceKey, mediaFileId)
    {
      Resource(path, sourceKey);
      if err == None {
        var last := |references| - 1;
        references := references[last := references[last].(file := Some(mediaFileId))];
      }
    }

    method Template(path: string)
      modifies this
      ensures Contents() == old(Contents()).(templates := old(templates) + [path])
    {
      templates := templates + [path];
    }

    method Build(rules: Rules) returns (r: Result<Response, Problem>)
      ensures r.Ok? <==> Finished(Contents(), rules).Some?
      ensures r.Ok? ==> Some(r.value) == Finished(Contents(), rules)
      ensures r.Ok? <==> err == None && ValidResponse(Response(settings, Some(Plan(references, templates))), rules)
      ensures r.Ok? ==> r.value == Response(settings, Some(Plan(references, templates)))
    {
      if err.Some? { return Err(err.value); }
      var response := Response(settings, Some(Plan(references, templates)));
      var problem := ValidateResponse(response, rules);
      return if problem.Some? then Err(problem.value) else Ok(response);
    }
  }

  function Finished(d: Draft, rules: Rules): Option<Response> {
    var response := Response(d.settings, Some(Plan(d.references, d.templates)));
    if d.err == None && ValidResponse(response, rules) then Some(response) else None
  }

  // ---- what a draft keeps ----

  lemma MovedKeeps(d: Draft, path: string, resource: Selector, readAs: string, writeAs: string, access: string)
    ensures var next := Moved(d, path, resource, readAs, writeAs, access);
      && Undone(Documents(), next.settings, next.references) == Undone(Documents(), d.settings, d.references)
      && (next.err == None ==> |next.references| == |d.references| + 1)
  {
    var next := Moved(d, path, resource, readAs, writeAs, access);
    if next.references != d.references {
      var v := Lookup(d.settings, path).value;
      ReplaceLaws(d.settings, path, Null, v);
      var ref := CopyReference(None, path, resource, v, readAs, writeAs, access);
      UndoneLast(Documents(), next.settings, d.references, ref);
    }
  }

  lemma {:induction false} MovedItemsKeeps(d: Draft, path: string, sourceKey: string, from: int, end: int)
    requires 0 <= from <= end
    ensures var next := MovedItems(d, path, sourceKey, from, end);
        Undone(Documents(), next.settings, next.references) == Undone(Documents(), d.settings, d.references)
    decreases end - from
  {
    if from < end {
      var item := Pointer(path, Itoa(from));
      MovedKeeps(d, item, Selector("integrationResource", sourceKey, "", ""), "value", "value", "");
      MovedItemsKeeps(MovedResource(d, item, sourceKey), path, sourceKey, from + 1, end);
    }
  }

  lemma FileKeeps(settings: Json, refs: seq<CopyReference>, file: Option<string>)
    requires refs != []
    ensures var last := |refs| - 1;
      Undone(Documents(), settings, refs[last := refs[last].(file := file)]) == Undone(Documents(), settings, refs)
  {
    var last := |refs| - 1;
    assert refs[last := refs[last].(file := file)][..last] == refs[..last];
  }

  /** A call on the builder; Resource and SubjectVariable are References. */
  datatype Call =
    | CallReference(path: string, resource: Selector, readAs: string, writeAs: string, access: string)
    | CallResourceList(path: string, sourceKey: string)
    | CallFile(path: string, sourceKey: string, mediaFileId: string)
    | CallTemplate(path: string)

  function Called(d: Draft, c: Call): Draft {
    match c
    case CallReference(path, resource, readAs, writeAs, access) => Moved(d, path, resource, readAs, writeAs, access)
    case CallResourceList(path, sourceKey) => MovedList(d, path, sourceKey)
    case CallFile(path, sourceKey, mediaFileId) => MovedFile(d, path, sourceKey, mediaFileId)
    case CallTemplate(path) => d.(templates := d.templates + [path])
  }

  function AllCalled(d: Draft, calls: seq<Call>): Draft
    decreases |calls|
  {
    if calls == [] then d else AllCalled(Called(d, calls[0]), calls[1..])
  }

  lemma CallKeeps(d: Draft, c: Call)
    ensures Undone(Documents(), Called(d, c).settings, Called(d, c).references)
         == Undone(Documents(), d.settings, d.references)
  {
    match c
    case CallReference(path, resource, readAs, writeAs, access) =>
      MovedKeeps(d, path, resource, readAs, writeAs, access);
    case CallResourceList(path, sourceKey) =>
      var v := Lookup(d.settings, path);
      if d.err == None && v.Ok? && v.value.Array? { MovedItemsKeeps(d, path, sourceKey, 0, |v.value.items|); }
    case CallFile(path, sourceKey, mediaFileId) =>
      MovedKeeps(d, path, Selector("integrationResource", sourceKey, "", ""), "value", "value", "");
      var next := MovedResource(d, path, sourceKey);
      if next.references != [] { FileKeeps(next.settings, next.references, Some(mediaFileId)); }
    case CallTemplate(_) =>
  }

  lemma {:induction false} CallsKeep(d: Draft, calls: seq<Call>)
    ensures var final := AllCalled(d, calls);
      Undone(Documents(), final.settings, final.references) == Undone(Documents(), d.settings, d.references)
    decreases |calls|
  {
    if calls != [] {
      CallKeeps(d, calls[0]);
      CallsKeep(Called(d, calls[0]), calls[1..]);
    }
  }

  /** Whatever was called on the builder, if Build succeeds then its response, and any valid response that lists the
      same references in another order, hydrates to exactly the original settings; meanwhile the skeleton holds null at
      every path that was moved out. */
  lemma HydrationRestoresSettings(original: Json, calls: seq<Call>, rules: Rules, other: seq<CopyReference>)
    requires Finished(AllCalled(Started(original, rules), calls), rules).Some?
    requires var r := Finished(AllCalled(Started(original, rules), calls), rules).value;
      multiset(other) == multiset(r.plan.value.references)
    ensures var r := Finished(AllCalled(Started(original, rules), calls), rules).value;
      && Filled(Documents(), r.settings, r.plan.value.references) == Filled(Documents(), r.settings, other) == original
      && forall ref | ref in r.plan.value.references :: Lookup(r.settings, ref.path) == Ok(Null) && ref.value != Null
  {
    var r := Finished(AllCalled(Started(original, rules), calls), rules).value;
    var refs := r.plan.value.references;
    CallsKeep(Started(original, rules), calls);
    PlanIsApart(r.settings, r.plan.value, rules);
    DocumentsAreLawful();
    UndoneIsFilled(Documents(), r.settings, refs);
    AnyOrder(Documents(), r.settings, refs, other);
    forall ref | ref in refs ensures Lookup(r.settings, ref.path) == Ok(Null) && ref.value != Null {
      var i :| 0 <= i < |refs| && refs[i] == ref;
      assert ValidReference(Read(r.settings), refs[i], rules);
    }
  }

  // ---- ResourceList ----

  function Nulls(n: nat): seq<Json> { seq(n, _ => Null) }

  function ItemReference(path: string, sourceKey: string, i: nat, v: Json): CopyReference {
    var resource := Selector("integrationResource", sourceKey, "", "");
    CopyReference(None, Pointer(path, Itoa(i)), resource, v, "value", "value", "")
  }

  function ItemReferences(path: string, sourceKey: string, items: seq<Json>, from: nat): seq<CopyReference>
    requires from <= |items|
    decreases |items| - from
  {
    if from == |items| then []
    else [ItemReference(path, sourceKey, from, items[from])] + ItemReferences(path, sourceKey, items, from + 1)
  }

  /** A list is moved out item by item, each with its own index, and leaves a list of as many nulls. */
  lemma ListMovesEveryItem(d: Draft, path: string, sourceKey: string, items: seq<Json>)
    requires d.err == None && Lookup(d.settings, path) == Ok(Array(items)) && |items| <= MAX_INT
    ensures MovedList(d, path, sourceKey)
         == d.(settings := Replace(d.settings, path, Array(Nulls(|items|))),
               references := d.references + ItemReferences(path, sourceKey, items, 0))
  {
    ReplaceLaws(d.settings, path, Null, Null);
    assert Nulls(0) + items[0..] == items;
    ItemsMove(d, d.settings, path, sourceKey, items, 0);
  }

  lemma {:induction false} ItemsMove(
    d: Draft, settings: Json, path: string, sourceKey: string, items: seq<Json>, from: nat)
    requires d.err == None && from <= |items| <= MAX_INT && Lookup(settings, path).Ok?
    requires d.settings == Replace(settings, path, Array(Nulls(from) + items[from..]))
    ensures MovedItems(d, path, sourceKey, from, |items|)
         == d.(settings := Replace(settings, path, Array(Nulls(|items|))),
               references := d.references + ItemReferences(path, sourceKey, items, from))
    decreases |items| - from
  {
    var now := Nulls(from) + items[from..];
    if from == |items| {
      assert now == Nulls(|items|);
      assert d.references + [] == d.references;
    } else {
      ItemMoves(d, settings, path, sourceKey, now, from);
      var next := MovedResource(d, Pointer(path, Itoa(from)), sourceKey);
      NullNext(items, from);
      ItemsMove(next, settings, path, sourceKey, items, from + 1);
      OneMore(d.references, path, sourceKey, items, from);
    }
  }

  lemma NullNext(items: seq<Json>, from: nat)
    requires from < |items|
    ensures var now := Nulls(from) + items[from..];
      now[from] == items[from] && now[from := Null] == Nulls(from + 1) + items[from + 1..]
  {}

  lemma OneMore(refs: seq<CopyReference>, path: string, sourceKey: string, items: seq<Json>, from: nat)
    requires from < |items|
    ensures refs + ItemReferences(path, sourceKey, items, from)
         == refs + [ItemReference(path, sourceKey, from, items[from])]
            + ItemReferences(path, sourceKey, items, from + 1)
  {
  }

  lemma ItemMoves(d: Draft, settings: Json, path: string, sourceKey: string, items: seq<Json>, i: nat)
    requires d.err == None && i < |items| <= MAX_INT
    requires Lookup(settings, path).Ok? && d.settings == Replace(settings, path, Array(items))
    ensures MovedResource(d, Pointer(path, Itoa(i)), sourceKey)
         == d.(settings := Replace(settings, path, Array(items[i := Null])),
               references := d.references + [ItemReference(path, sourceKey, i, items[i])])
  {
    ReplaceLaws(settings, path, Array(items), Array(items[i := Null]));
    IndexOfItoa(i, |items|);
    ChildAt(d.settings, path, Itoa(i), Null);
  }
}
