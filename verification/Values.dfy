/** Lookup and Walk of variables/values.go: what a reference stands for in loaded values. */
module Values {
  import opened Basics
  import opened JsonPointers
  import opened References

  type Fields = map<string, Json>

  datatype Values = Values(
    subject: Fields, project: Fields, integrations: map<string, Fields>, projectId: string,
    context: Fields, integrationState: Fields)

  /** The node at a path of property names and canonical indexes. */
  function Walked(value: Json, path: seq<string>): Option<Json>
    decreases |path|
  {
    if path == [] then Some(value)
    else match Child(value, path[0])
      case Err(_) => None
      case Ok(child) => Walked(child, path[1..])
  }

  method Walk(value: Json, path: seq<string>) returns (r: Option<Json>)
    ensures r == Walked(value, path)
  {
    var current := value;
    for i := 0 to |path|
      invariant Walked(value, path) == Walked(current, path[i..])
    {
      assert path[i..][0] == path[i] && path[i..][1..] == path[i + 1..];
      match current {
        case Object(fields) =>
          if path[i] !in fields { return None; }
          current := fields[path[i]];
        case Array(items) =>
          var index := Index(path[i], |items|);
          if index == None { return None; }
          current := items[index.value];
        case _ => return None;
      }
    }
    return Some(current);
  }

  const RESERVED := {"subject", "project", "context", "integrationState"}

  /** The project's variables, with its own id, if it has one, in place of any variable of that name. */
  function ProjectFields(v: Values): Fields {
    if v.projectId == "" then v.project - {"id"} else v.project["id" := Text(v.projectId)]
  }

  /** What a prefix names: a scope, or else an integration. */
  function ScopeFields(v: Values, prefix: string): Option<Fields> {
    if prefix == "subject" then Some(v.subject)
    else if prefix == "project" then Some(ProjectFields(v))
    else if prefix == "context" then Some(v.context)
    else if prefix == "integrationState" then Some(v.integrationState)
    else if prefix in v.integrations then Some(v.integrations[prefix]) else None
  }

  /** All values as one document, with a field for each scope and each integration. */
  function Document(v: Values): Json {
    Object(map prefix | prefix in v.integrations.Keys + RESERVED :: Object(ScopeFields(v, prefix).value))
  }

  /** What the one document holds: each scope under its own name, the project with its own id, and every integration. */
  lemma DocumentHolds(v: Values)
    ensures Document(v).Object? && Document(v).fields.Keys == v.integrations.Keys + RESERVED
    ensures var d := Document(v).fields;
      && d["subject"] == Object(v.subject) && d["context"] == Object(v.context)
      && d["integrationState"] == Object(v.integrationState)
      && (v.projectId != "" ==> d["project"] == Object(v.project["id" := Text(v.projectId)]))
      && (v.projectId == "" ==> d["project"] == Object(v.project - {"id"}))
      && (forall name | name in v.integrations && name !in RESERVED :: d[name] == Object(v.integrations[name]))
  {
  }

  function Prefix(ref: Reference): string {
    if ref.scope == Subject then "subject" else if ref.scope == Project then "project" else ref.namespace
  }

  /** What parsing can give: only project.id and two reserved names are runtime references, and no reserved name is an
      integration. */
  lemma ParsedScopes(parts: seq<string>)
    requires parts != []
    ensures var ref := FromParts(parts);
      && ref.scope != Unlisted
      && (ref.scope == Project ==> ref.key != "id")
      && (ref.scope == Integration ==> ref.namespace !in RESERVED)
      && (ref.scope == Runtime ==>
            || (ref.namespace == "project" && ref.key == "id")
            || ref.namespace == "context" || ref.namespace == "integrationState")
  {
  }

  lemma ExpressibleScopes(ref: Reference, letters: set<char>)
    requires Expression(ref, letters).Some?
    ensures exists parts :: parts != [] && FromParts(parts) == ref
  {
    ExpressionIsPlain(ref, letters);
    ParsedIsFromParts(Expression(ref, letters).value, letters);
  }

  lemma ParsedIsFromParts(key: string, letters: set<char>)
    requires ParseReference(key, letters).Some?
    ensures exists parts :: parts != [] && FromParts(parts) == ParseReference(key, letters).value
  {
  }

  function InScope(document: Json, prefix: string, key: string): Option<Json> {
    if document.Object? && prefix in document.fields && Child(document.fields[prefix], key).Ok?
    then Some(Child(document.fields[prefix], key).value) else None
  }

  lemma WalkedInScope(document: Json, prefix: string, key: string, path: seq<string>)
    requires document.Object?
    ensures var found := InScope(document, prefix, key);
      Walked(document, [prefix, key] + path) == if found.Some? then Walked(found.value, path) else None
  {
    var all := [prefix, key] + path;
    assert all[1..] == [key] + path && ([key] + path)[1..] == path;
  }

  /** A reference stands for exactly the node that its qualified expression names as a path into all values; a reference
      without an expression is refused. */
  method Lookup(v: Values, ref: Reference, letters: set<char>) returns (r: Result<Option<Json>, ()>)
    ensures r.Ok? <==> Expression(ref, letters).Some?
    ensures r.Ok? ==> r.value == Walked(Document(v), [Prefix(ref), ref.key] + ref.accessPath)
  {
    if Expression(ref, letters) == None { return Err(()); }
    ExpressibleScopes(ref, letters);
    var found := LookupKey(v, ref);
    WalkedInScope(Document(v), Prefix(ref), ref.key, ref.accessPath);
    if found == None { return Ok(None); }
    var value := Walk(found.value, ref.accessPath);
    return Ok(value);
  }

  /** The value of the reference's key in its scope. */
  method LookupKey(v: Values, ref: Reference) returns (r: Option<Json>)
    requires exists parts :: parts != [] && FromParts(parts) == ref
    ensures r == InScope(Document(v), Prefix(ref), ref.key)
  {
    ghost var parts :| parts != [] && FromParts(parts) == ref;
    ParsedScopes(parts);
    InScopeIs(v, Prefix(ref), ref.key);
    var root: Fields := map[];
    match ref.scope {
      case Subject => root := v.subject;
      case Project => root := v.project;
      case Integration => if ref.namespace in v.integrations { root := v.integrations[ref.namespace]; }
      case Runtime =>
        if ref.namespace == "project" { return if v.projectId == "" then None else Some(Text(v.projectId)); }
        if ref.namespace == "context" { root := v.context; } else { root := v.integrationState; }
    }
    return if ref.key in root then Some(root[ref.key]) else None;
  }

  lemma InScopeIs(v: Values, prefix: string, key: string)
    ensures var fields := ScopeFields(v, prefix);
      InScope(Document(v), prefix, key) == if fields.Some? && key in fields.value then Some(fields.value[key]) else None
  {
  }
}
