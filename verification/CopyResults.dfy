/** What a plan made by the builder says: the references its calls asked for, with the values the settings had. */
module CopyResults {
  import opened Basics
  import opened CopyBuilding
  import opened CopyPlans
  import opened Decimals
  import opened JsonPointers
  import opened Placements

  /** The reference is one the call asks for. */
  ghost predicate AsksFor(c: Call, ref: CopyReference) {
    match c
    case CallReference(path, resource, readAs, writeAs, access) =>
      && ref.file == None && ref.path == path && ref.resource == resource
      && ref.readAs == readAs && ref.writeAs == writeAs && ref.access == access
    case CallResourceList(path, sourceKey) =>
      ref.file == None && IsResource(ref, sourceKey) && exists i: nat :: ref.path == path + "/" + Escape(Itoa(i))
    case CallFile(path, sourceKey, mediaFileId) =>
      ref.file == Some(mediaFileId) && IsResource(ref, sourceKey) && ref.path == path
    case CallTemplate(_) => false
  }

  predicate IsResource(ref: CopyReference, sourceKey: string) {
    && ref.resource == Selector("integrationResource", sourceKey, "", "")
    && ref.readAs == "value" && ref.writeAs == "value" && ref.access == ""
  }

  function TemplatesOf(calls: seq<Call>): seq<string> {
    if calls == [] then []
    else TemplatesOf(calls[..|calls| - 1]) + match calls[|calls| - 1] case CallTemplate(path) => [path] case _ => []
  }

  /** `after` has the references of `before` and others, each asked for by the call. */
  ghost predicate Adds(before: seq<CopyReference>, after: seq<CopyReference>, c: Call) {
    && |before| <= |after| && (forall i | 0 <= i < |before| :: after[i] == before[i])
    && (forall i | |before| <= i < |after| :: AsksFor(c, after[i]))
  }

  lemma {:induction false} ItemsAdd(d: Draft, path: string, sourceKey: string, from: int, end: int)
    requires 0 <= from <= end
    ensures var next := MovedItems(d, path, sourceKey, from, end);
      && Adds(d.references, next.references, CallResourceList(path, sourceKey)) && next.templates == d.templates
      && (d.err.Some? ==> next.err.Some?)
    decreases end - from
  {
    if from < end {
      var item: nat := from;
      assert Pointer(path, Itoa(item)) == path + "/" + Escape(Itoa(item));
      ItemsAdd(MovedResource(d, Pointer(path, Itoa(item)), sourceKey), path, sourceKey, from + 1, end);
    }
  }

  lemma CallAdds(d: Draft, c: Call)
    ensures var next := Called(d, c);
      && Adds(d.references, next.references, c) && (d.err.Some? ==> next.err.Some?)
      && next.templates == d.templates + TemplatesOf([c])
    ensures Called(d, c).err == None && (c.CallReference? || c.CallFile?) ==>
      |Called(d, c).references| == |d.references| + 1
  {
    match c
    case CallResourceList(path, sourceKey) =>
      var v := Lookup(d.settings, path);
      if d.err == None && v.Ok? && v.value.Array? { ItemsAdd(d, path, sourceKey, 0, |v.value.items|); }
    case _ =>
  }

  lemma {:induction false} TemplatesFirst(c: Call, calls: seq<Call>)
    ensures TemplatesOf([c] + calls) == TemplatesOf([c]) + TemplatesOf(calls)
    decreases |calls|
  {
    var all, n := [c] + calls, |calls| - 1;
    if calls == [] {
      assert all == [c];
    } else {
      TemplatesFirst(c, calls[..n]);
      assert all[..|all| - 1] == [c] + calls[..n] && all[|all| - 1] == calls[n];
    }
  }

  ghost predicate SomeAsks(calls: seq<Call>, ref: CopyReference) { exists c | c in calls :: AsksFor(c, ref) }

  ghost predicate SomeAsked(c: Call, refs: seq<CopyReference>) { exists ref | ref in refs :: AsksFor(c, ref) }

  /** Everything the builder has noted was asked for, and every single reference or file that was asked for is there. */
  ghost predicate Noted(d: Draft, calls: seq<Call>, final: Draft) {
    && (forall i | 0 <= i < |d.references| :: i < |final.references| && final.references[i] == d.references[i])
    && (forall i | |d.references| <= i < |final.references| :: SomeAsks(calls, final.references[i]))
    && (final.err == None ==>
          && d.err == None
          && forall c | c in calls && (c.CallReference? || c.CallFile?) :: SomeAsked(c, final.references))
  }

  lemma NotedFirst(d: Draft, c: Call, next: Draft, rest: seq<Call>, final: Draft)
    requires Adds(d.references, next.references, c) && Noted(next, rest, final) && (d.err.Some? ==> next.err.Some?)
    requires next.err == None && (c.CallReference? || c.CallFile?) ==> |next.references| > |d.references|
    ensures Noted(d, [c] + rest, final)
  {
    var calls := [c] + rest;
    forall i | |d.references| <= i < |final.references| ensures SomeAsks(calls, final.references[i]) {
      if i < |next.references| {
        assert final.references[i] == next.references[i] && AsksFor(c, next.references[i]) && c in calls;
      } else {
        assert SomeAsks(rest, final.references[i]);
        var asking :| asking in rest && AsksFor(asking, final.references[i]);
        assert asking in calls;
      }
    }
    if final.err == None {
      forall asking | asking in calls && (asking.CallReference? || asking.CallFile?)
        ensures SomeAsked(asking, final.references)
      {
        if asking !in rest {
          var i := |d.references|;
          assert final.references[i] == next.references[i] && final.references[i] in final.references;
        }
      }
    }
  }

  lemma {:induction false} CallsAreNoted(d: Draft, calls: seq<Call>)
    ensures Noted(d, calls, AllCalled(d, calls))
    decreases |calls|
  {
    if calls != [] {
      var next, rest := Called(d, calls[0]), calls[1..];
      CallAdds(d, calls[0]);
      CallsAreNoted(next, rest);
      NotedFirst(d, calls[0], next, rest, AllCalled(next, rest));
      HeadAndRest(calls);
    }
  }

  lemma HeadAndRest(calls: seq<Call>)
    requires calls != []
    ensures calls == [calls[0]] + calls[1..]
  {}

  lemma Regrouped(a: seq<string>, b: seq<string>, c: seq<string>)
    ensures a + (b + c) == a + b + c
  {}

  lemma {:induction false} TemplatesAreNoted(d: Draft, calls: seq<Call>)
    ensures AllCalled(d, calls).templates == d.templates + TemplatesOf(calls)
    decreases |calls|
  {
    if calls != [] {
      CallAdds(d, calls[0]);
      TemplatesAreNoted(Called(d, calls[0]), calls[1..]);
      TemplatesFirst(calls[0], calls[1..]);
      HeadAndRest(calls);
      Regrouped(d.templates, TemplatesOf([calls[0]]), TemplatesOf(calls[1..]));
    }
  }

  // ---- values ----

  lemma {:induction false} FilledLast<S(!new), R(!new)>(st: Store<S, R>, s: S, refs: seq<R>, r: R)
    requires Lawful(st) && AllFound(st, s, refs + [r])
    ensures st.has(Filled(st, s, refs), r)
    ensures Filled(st, s, refs + [r]) == st.put(Filled(st, s, refs), r)
    decreases |refs|
  {
    if refs == [] {
      assert refs + [r] == [r] && [r][0] == r && [r][1..] == [];
    } else {
      var first, rest := refs[0], refs[1..];
      assert refs + [r] == [first] + (rest + [r]) && refs == [first] + rest;
      FoundAfterPut(st, s, first, rest + [r]);
      FilledFirst(st, s, first, rest + [r]);
      FilledFirst(st, s, first, rest);
      FilledLast(st, st.put(s, first), rest, r);
    }
  }

  /** After all writes each place holds what was written there. */
  lemma FilledHolds(settings: Json, refs: seq<CopyReference>, n: nat)
    requires AllFound(Documents(), settings, refs) && n < |refs|
    ensures Lookup(Filled(Documents(), settings, refs), refs[n].path) == Ok(refs[n].value)
  {
    var before, ref, after := refs[..n], refs[n], refs[n + 1..];
    var others := before + after;
    DocumentsAreLawful();
    TakenApart(refs, n);
    MovedToEnd(before, ref, after);
    AnyOrder(Documents(), settings, refs, others + [ref]);
    OneMoved(Documents(), settings, before, ref, after);
    FirstToLast(Documents(), settings, ref, others);
    FilledLast(Documents(), settings, others, ref);
    ReplaceLaws(Filled(Documents(), settings, others), ref.path, ref.value, ref.value);
  }

  lemma TakenApart<R>(refs: seq<R>, n: nat)
    requires n < |refs|
    ensures refs == refs[..n] + [refs[n]] + refs[n + 1..]
  {}

  lemma MovedToEnd<R>(before: seq<R>, r: R, after: seq<R>)
    ensures multiset(before + [r] + after) == multiset(before + after + [r])
  {}

  lemma FirstToLast<S(!new), R(!new)>(st: Store<S, R>, s: S, r: R, rest: seq<R>)
    requires Lawful(st) && AllFound(st, s, [r] + rest)
    ensures AllFound(st, s, rest + [r])
  {
    var all, moved := [r] + rest, rest + [r];
    assert forall i | 0 <= i < |rest| :: moved[i] == all[i + 1];
    assert moved[|rest|] == all[0] == r;
    forall i | 0 <= i < |rest| ensures st.apart(moved[i], moved[|rest|]) {
      assert st.apart(all[0], all[i + 1]);
    }
  }

  /** A plan that Build accepts says what was asked. Each reference has the selector, encodings and file of a call on
      the builder and the value that the original settings have at its path; no reference or file asked for is missing;
      and the templates are those named, in their order. */
  lemma PlanIsAsAsked(original: Json, calls: seq<Call>, rules: Rules)
    requires Finished(AllCalled(Started(original, rules), calls), rules).Some?
    ensures var plan := Finished(AllCalled(Started(original, rules), calls), rules).value.plan.value;
      && plan.templates == TemplatesOf(calls)
      && (forall ref | ref in plan.references ::
            SomeAsks(calls, ref) && Lookup(original, ref.path) == Ok(ref.value))
      && (forall c | c in calls && (c.CallReference? || c.CallFile?) :: SomeAsked(c, plan.references))
  {
    var start := Started(original, rules);
    var r := Finished(AllCalled(start, calls), rules).value;
    var refs := r.plan.value.references;
    CallsAreNoted(start, calls);
    TemplatesAreNoted(start, calls);
    HydrationRestoresSettings(original, calls, rules, refs);
    PlanIsApart(r.settings, r.plan.value, rules);
    forall ref | ref in refs ensures SomeAsks(calls, ref) && Lookup(original, ref.path) == Ok(ref.value) {
      var n :| 0 <= n < |refs| && refs[n] == ref;
      FilledHolds(r.settings, refs, n);
    }
  }
}
