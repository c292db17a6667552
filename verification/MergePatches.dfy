/** integration/blockauthoring.go: settings prepared by an RFC 7396 merge patch. */
module MergePatches {
  import opened Basics
  import opened JsonPointers

  type Fields = map<string, Json>

  /** Section 2 of RFC 7396. A missing target and one that is no object count as an empty object. */
  function MergePatch(target: Json, patch: Json): Json
    decreases patch
  {
    if !patch.Object? then patch
    else
      var fields := if target.Object? then target.fields else map[];
      Object(map k | k in fields.Keys + patch.fields.Keys && !(k in patch.fields && patch.fields[k] == Null) ::
        if k in patch.fields then MergePatch(if k in fields then fields[k] else Null, patch.fields[k]) else fields[k])
  }

  /** mergeAuthoringObject. The keys of the patch may come in any order. */
  method MergeAuthoringObject(base: Fields, patch: Fields) returns (merged: Fields)
    ensures Object(merged) == MergePatch(Object(base), Object(patch))
    decreases Object(patch)
  {
    merged := base;
    var rest := patch.Keys;
    while rest != {}
      invariant rest <= patch.Keys && HalfMerged(merged, base, patch, rest)
      decreases |rest|
    {
      var key :| key in rest;
      rest := rest - {key};
      var value := patch[key];
      assert merged.Keys * {key} == base.Keys * {key} && (key in base ==> merged[key] == base[key]);
      if value == Null {
        merged := merged - {key};
        continue;
      }
      if !value.Object? {
        merged := merged[key := value];
        continue;
      }
      var target: Fields := if key in merged && merged[key].Object? then merged[key].fields else map[];
      var inner := MergeAuthoringObject(target, value.fields);
      merged := merged[key := Object(inner)];
      SameAsEmpty(if key in base then base[key] else Null, value);
    }
    HalfMergedIsMerged(merged, base, patch);
  }

  /** The fields whose patch is still to come are those of the base, the others are merged. */
  ghost predicate HalfMerged(merged: Fields, base: Fields, patch: Fields, rest: set<string>) {
    && (forall k | k !in patch || k in rest :: k in merged <==> k in base)
    && (forall k | (k !in patch || k in rest) && k in base :: merged[k] == base[k])
    && (forall k | k in patch && k !in rest :: k in merged <==> patch[k] != Null)
    && (forall k | k in patch && k !in rest && patch[k] != Null ::
          merged[k] == MergePatch(if k in base then base[k] else Null, patch[k]))
  }

  lemma SameAsEmpty(target: Json, patch: Json)
    requires patch.Object?
    ensures MergePatch(target, patch) == MergePatch(Object(if target.Object? then target.fields else map[]), patch)
  {}

  lemma HalfMergedIsMerged(merged: Fields, base: Fields, patch: Fields)
    requires HalfMerged(merged, base, patch, {})
    ensures Object(merged) == MergePatch(Object(base), Object(patch))
  {
    assert merged == MergePatch(Object(base), Object(patch)).fields;
  }

  // ---- what a patch does ----

  /** The node at a path of field names. */
  function Get(v: Json, path: seq<string>): Option<Json> {
    if path == [] then Some(v)
    else if v.Object? && path[0] in v.fields then Get(v.fields[path[0]], path[1..]) else None
  }

  /** The patch says nothing about the node at `path`, nor about one above it. */
  predicate Silent(patch: Json, path: seq<string>) {
    && path != [] && patch.Object?
    && (path[0] in patch.fields ==> patch.fields[path[0]].Object? && Silent(patch.fields[path[0]], path[1..]))
  }

  /** Fields outside the patch stay as they are, at every depth. */
  lemma {:induction false} UnpatchedStays(target: Json, patch: Json, path: seq<string>)
    requires Silent(patch, path) && target.Object?
    ensures Get(MergePatch(target, patch), path) == Get(target, path)
    decreases path
  {
    var k, rest := path[0], path[1..];
    if k in patch.fields {
      var child := if k in target.fields then target.fields[k] else Null;
      SameAsEmpty(child, patch.fields[k]);
      UnpatchedStays(Object(if child.Object? then child.fields else map[]), patch.fields[k], rest);
    }
  }

  /** Where the patch leads to a value that is no object, the result has that value, and nothing where it is null. */
  lemma {:induction false} PatchedIsSet(target: Json, patch: Json, path: seq<string>)
    requires path != [] && patch.Object? && Get(patch, path).Some? && !Get(patch, path).value.Object?
    ensures Get(MergePatch(target, patch), path) == if Get(patch, path).value == Null then None else Get(patch, path)
    decreases path
  {
    var k, rest := path[0], path[1..];
    if rest != [] {
      var fields := if target.Object? then target.fields else map[];
      PatchedIsSet(if k in fields then fields[k] else Null, patch.fields[k], rest);
    }
  }

  /** Applying a patch twice is applying it once. */
  lemma {:induction false} PatchTwice(target: Json, patch: Json)
    ensures MergePatch(MergePatch(target, patch), patch) == MergePatch(target, patch)
    decreases patch
  {
    if patch.Object? {
      var once := MergePatch(target, patch);
      var fields := if target.Object? then target.fields else map[];
      forall k | k in patch.fields && patch.fields[k] != Null
        ensures MergePatch(once.fields[k], patch.fields[k]) == once.fields[k]
      {
        PatchTwice(if k in fields then fields[k] else Null, patch.fields[k]);
      }
      assert MergePatch(once, patch).fields == once.fields;
    }
  }

  // ---- AuthoringSettings ----

  /** A raw message: empty, not one JSON object within the limit, or an object. */
  datatype Raw = Absent | Malformed | Document(fields: Fields)

  predicate MayEdit(settings: Raw, baseSettings: Raw, changes: Raw, fits: Json -> bool) {
    && settings.Absent? && baseSettings.Document? && changes.Document?
    && fits(MergePatch(Object(baseSettings.fields), Object(changes.fields)))
  }

  /** New settings are returned as they are; edited ones are the base with the patch merged in, if that still fits. */
  method AuthoringSettings(settings: Raw, baseSettings: Raw, changes: Raw, fits: Json -> bool)
    returns (r: Option<Fields>)
    ensures baseSettings.Absent? && changes.Absent? ==>
      r == (if settings.Document? then Some(settings.fields) else None)
    ensures !(baseSettings.Absent? && changes.Absent?) ==> (r.Some? <==> MayEdit(settings, baseSettings, changes, fits))
    ensures r.Some? && changes.Document? ==>
      Object(r.value) == MergePatch(Object(baseSettings.fields), Object(changes.fields))
  {
    if baseSettings.Absent? && changes.Absent? {
      return if settings.Document? then Some(settings.fields) else None;
    }
    if !settings.Absent? || !baseSettings.Document? || !changes.Document? { return None; }
    var merged := MergeAuthoringObject(baseSettings.fields, changes.fields);
    return if fits(Object(merged)) then Some(merged) else None;
  }
}
