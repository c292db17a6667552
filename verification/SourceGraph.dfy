/** validateResourceSources of schemetransfer/validation.go: a depth-first search that colours the declared sources. */
module SourceGraph {
  import opened Basics
  import opened Sorting

  datatype Dependency = Dependency(sourceKey: string, required: bool)

  /** `constraints` is the constraints schema, empty when there is none. */
  datatype Source = Source(
    fileImport: bool, identityScope: string, valueType: string, parameters: map<string, Dependency>,
    supports: seq<string>, constraints: string)

  type Sources = map<string, Source>

  datatype Problem =
    | InvalidContract
    | Cyclic(key: string)
    | InvalidFileImport(key: string)
    | UnknownSource(key: string)
    | ParentRequired(key: string)
    | ResolveRequired(key: string)
    | InvalidConstraints(key: string)

  /** What is left open: the JSON Schema of the whole catalog, and which constraints schemas compile. */
  datatype Rules = Rules(shape: Sources -> bool, compiles: string -> bool)

  // ---- what validity means ----

  ghost predicate Edge(sources: Sources, from: string, to: string) {
    from in sources && exists p | p in sources[from].parameters :: sources[from].parameters[p].sourceKey == to
  }

  ghost predicate IsPath(sources: Sources, path: seq<string>) {
    forall i | 0 <= i < |path| - 1 :: Edge(sources, path[i], path[i + 1])
  }

  ghost predicate IsCycle(sources: Sources, path: seq<string>) {
    |path| > 1 && path[0] == path[|path| - 1] && IsPath(sources, path)
  }

  ghost predicate Acyclic(sources: Sources) { forall path :: !IsCycle(sources, path) }

  ghost predicate AllDeclared(sources: Sources) {
    forall k, p | k in sources && p in sources[k].parameters :: sources[k].parameters[p].sourceKey in sources
  }

  predicate ValidFileImport(s: Source) {
    s.fileImport ==>
      s.identityScope == "project" && s.valueType == "string" && |s.parameters| == 0 && "identify" in s.supports
  }

  predicate HasRequired(s: Source) { exists p | p in s.parameters :: s.parameters[p].required }

  predicate ValidSource(s: Source, rules: Rules) {
    && ValidFileImport(s) && (s.identityScope == "parent" ==> HasRequired(s)) && "resolve" in s.supports
    && (s.constraints != "" ==> rules.compiles(s.constraints))
  }

  /** Every source resolves and its constraints compile. One that imports files takes no parameters, identifies, and
      holds strings of the project; any other that depends on a parent has a required parameter. */
  lemma WhatIsValid(s: Source, rules: Rules)
    ensures ValidSource(s, rules) <==>
      && "resolve" in s.supports && (s.constraints == "" || rules.compiles(s.constraints))
      && if s.fileImport then
           s.parameters == map[] && "identify" in s.supports && s.identityScope == "project" && s.valueType == "string"
         else s.identityScope == "parent" ==> exists p | p in s.parameters :: s.parameters[p].required
  {
    assert |s.parameters| == 0 <==> s.parameters == map[];
  }

  ghost predicate ValidSources(sources: Sources, rules: Rules) {
    AllDeclared(sources) && Acyclic(sources) && forall k | k in sources :: ValidSource(sources[k], rules)
  }

  // ---- why an order of completion rules out cycles ----

  /** Each source comes after all it depends on. */
  ghost predicate Ordered(sources: Sources, order: seq<string>) {
    forall i, p | 0 <= i < |order| && order[i] in sources && p in sources[order[i]].parameters ::
      sources[order[i]].parameters[p].sourceKey in order[..i]
  }

  lemma {:induction false} PathGoesDown(sources: Sources, order: seq<string>, path: seq<string>, i: nat)
    returns (j: nat)
    requires Ordered(sources, order) && IsPath(sources, path) && path != [] && i < |order| && path[0] == order[i]
    ensures j <= i && j < |order| && order[j] == path[|path| - 1] && (|path| > 1 ==> j < i)
    decreases |path|
  {
    if |path| == 1 { return i; }
    assert Edge(sources, path[0], path[1]);
    var p :| p in sources[path[0]].parameters && sources[path[0]].parameters[p].sourceKey == path[1];
    assert path[1] in order[..i];
    var n :| 0 <= n < i && order[..i][n] == path[1];
    forall k | 0 <= k < |path[1..]| - 1 ensures Edge(sources, path[1..][k], path[1..][k + 1]) {
      assert Edge(sources, path[k + 1], path[k + 1 + 1]);
    }
    j := PathGoesDown(sources, order, path[1..], n);
  }

  lemma OrderedIsAcyclic(sources: Sources, order: seq<string>)
    requires Ordered(sources, order) && (forall k | k in sources :: k in order)
    requires forall i, j | 0 <= i < j < |order| :: order[i] != order[j]
    ensures Acyclic(sources)
  {
    forall path ensures !IsCycle(sources, path) {
      if IsCycle(sources, path) {
        assert Edge(sources, path[0], path[1]);
        var i :| 0 <= i < |order| && order[i] == path[0];
        var j := PathGoesDown(sources, order, path, i);
        assert false;
      }
    }
  }

  /** Where the search meets a source it is still visiting, the stack closes a cycle. */
  lemma StackIsCycle(sources: Sources, stack: seq<string>, key: string)
    requires IsPath(sources, stack) && stack != [] && Edge(sources, stack[|stack| - 1], key) && key in stack
    ensures !Acyclic(sources)
  {
    var i :| 0 <= i < |stack| && stack[i] == key;
    var path := stack[i..] + [key];
    forall k | 0 <= k < |path| - 1 ensures Edge(sources, path[k], path[k + 1]) {
      if k + 1 < |path| - 1 { assert Edge(sources, stack[i + k], stack[i + k + 1]); }
    }
    assert IsCycle(sources, path);
  }

  // ---- the search ----

  const VISITING := 1
  const DONE := 2

  method SortedKeys<V>(m: map<string, V>) returns (keys: seq<string>)
    ensures Ascending(keys, Before) && forall k :: k in keys <==> k in m
  {
    var found: seq<string>, rest := [], m.Keys;
    while rest != {}
      invariant rest <= m.Keys && (forall k :: k in found <==> k in m.Keys - rest) && DistinctKeys(found, Self)
      decreases |rest|
    {
      var k :| k in rest;
      assert forall j | 0 <= j < |found| :: found[j] in found;
      found, rest := found + [k], rest - {k};
    }
    StringsAreOrdered();
    keys := Sort(found, Self, Before);
    SameElements(keys, found);
    DistinctAnyOrder(found, keys, Self);
    AdjacentDiffer(keys, Self, Before);
    assert forall i, j | 0 <= i < j < |keys| :: Before(Self(keys[i]), Self(keys[j]));
  }

  predicate IsDone(state: map<string, int>, key: string) { key in state && state[key] == DONE }

  /** Colours only darken. */
  ghost predicate Later(was: map<string, int>, state: map<string, int>) {
    forall k | k in was :: k in state && (was[k] == DONE ==> state[k] == DONE)
  }

  /** The stack is being visited and the order is done. */
  ghost predicate Coloured(sources: Sources, state: map<string, int>, order: seq<string>, stack: seq<string>) {
    && (forall k | k in state :: k in sources && (state[k] == VISITING || state[k] == DONE))
    && (forall k :: k in stack <==> k in state && state[k] == VISITING)
    && (forall k :: k in order <==> IsDone(state, k))
  }

  /** The sources in `order` were completed one after the other, and passed their checks. */
  ghost predicate Completed(sources: Sources, rules: Rules, compiled: set<string>, order: seq<string>) {
    && Ordered(sources, order)
    && (forall i, j | 0 <= i < j < |order| :: order[i] != order[j])
    && (forall k | k in order :: k in sources && ValidSource(sources[k], rules))
    && (forall k :: k in compiled <==> k in order && sources[k].constraints != "")
  }

  /** What holds while `stack` are being visited, from the outermost in, and `order` are done. */
  ghost predicate Searching(
    sources: Sources, rules: Rules, state: map<string, int>, compiled: set<string>, order: seq<string>,
    stack: seq<string>)
  {
    Coloured(sources, state, order, stack) && IsPath(sources, stack) && Completed(sources, rules, compiled, order)
  }

  lemma Entered(
    sources: Sources, rules: Rules, state: map<string, int>, compiled: set<string>, order: seq<string>,
    stack: seq<string>, key: string)
    requires Searching(sources, rules, state, compiled, order, stack) && key in sources && key !in state
    requires stack == [] || Edge(sources, stack[|stack| - 1], key)
    ensures Searching(sources, rules, state[key := VISITING], compiled, order, stack + [key])
  {
    EnteredColours(sources, state, order, stack, key);
    var inner := stack + [key];
    forall i | 0 <= i < |inner| - 1 ensures Edge(sources, inner[i], inner[i + 1]) {
      if i < |stack| - 1 { assert Edge(sources, stack[i], stack[i + 1]); }
    }
  }

  lemma EnteredColours(
    sources: Sources, state: map<string, int>, order: seq<string>, stack: seq<string>, key: string)
    requires Coloured(sources, state, order, stack) && key in sources && key !in state
    ensures Coloured(sources, state[key := VISITING], order, stack + [key])
  {
    forall k ensures k in order <==> IsDone(state[key := VISITING], k) {
      assert k in order <==> IsDone(state, k);
    }
  }

  lemma Finished(
    sources: Sources, rules: Rules, state: map<string, int>, compiled: set<string>, order: seq<string>,
    stack: seq<string>, key: string)
    requires Searching(sources, rules, state, compiled, order, stack + [key]) && key !in stack && key in sources
    requires ValidSource(sources[key], rules)
    requires forall p | p in sources[key].parameters :: IsDone(state, sources[key].parameters[p].sourceKey)
    ensures Searching(sources, rules, state[key := DONE], WithConstrained(sources, compiled, key), order + [key], stack)
  {
    var inner := stack + [key];
    forall i | 0 <= i < |stack| - 1 ensures Edge(sources, stack[i], stack[i + 1]) {
      assert Edge(sources, inner[i], inner[i + 1]);
    }
    forall p | p in sources[key].parameters ensures sources[key].parameters[p].sourceKey in order {
      assert IsDone(state, sources[key].parameters[p].sourceKey);
    }
    FinishedColours(sources, state, order, stack, key);
    FinishedOrder(sources, order, key);
    FinishedCompleted(sources, rules, compiled, order, key);
  }

  lemma FinishedColours(
    sources: Sources, state: map<string, int>, order: seq<string>, stack: seq<string>, key: string)
    requires Coloured(sources, state, order, stack + [key]) && key !in stack
    ensures Coloured(sources, state[key := DONE], order + [key], stack) && key !in order && key in sources
  {
    var inner, more := stack + [key], order + [key];
    assert key in inner;
    forall k ensures k in stack <==> k in state[key := DONE] && state[key := DONE][k] == VISITING {
      assert k in inner <==> k in stack || k == key;
    }
    forall k ensures k in more <==> IsDone(state[key := DONE], k) {
      assert k in more <==> k in order || k == key;
    }
  }

  function WithConstrained(sources: Sources, compiled: set<string>, key: string): set<string>
    requires key in sources
  {
    if sources[key].constraints != "" then compiled + {key} else compiled
  }

  lemma FinishedCompleted(sources: Sources, rules: Rules, compiled: set<string>, order: seq<string>, key: string)
    requires Completed(sources, rules, compiled, order) && key !in order && key in sources
    requires ValidSource(sources[key], rules) && Ordered(sources, order + [key])
    ensures Completed(sources, rules, WithConstrained(sources, compiled, key), order + [key])
  {
    var more, now := order + [key], WithConstrained(sources, compiled, key);
    AddedOnce(order, key);
    forall k | k in more ensures k in sources && ValidSource(sources[k], rules) { assert k in order || k == key; }
    forall k ensures k in now <==> k in more && sources[k].constraints != "" {
      assert k in more <==> k in order || k == key;
    }
  }

  lemma AddedOnce(order: seq<string>, key: string)
    requires (forall i, j | 0 <= i < j < |order| :: order[i] != order[j]) && key !in order
    ensures var more := order + [key]; forall i, j | 0 <= i < j < |more| :: more[i] != more[j]
  {}

  lemma FinishedOrder(sources: Sources, order: seq<string>, key: string)
    requires Ordered(sources, order) && key in sources
    requires forall p | p in sources[key].parameters :: sources[key].parameters[p].sourceKey in order
    ensures Ordered(sources, order + [key])
  {
    var more := order + [key];
    forall i, p | 0 <= i < |more| && more[i] in sources && p in sources[more[i]].parameters
      ensures sources[more[i]].parameters[p].sourceKey in more[..i]
    {
      assert more[..i] == order[..i];
      if i == |order| { assert order[..i] == order; }
    }
  }

  lemma VisitingIsCycle(
    sources: Sources, rules: Rules, state: map<string, int>, compiled: set<string>, order: seq<string>,
    stack: seq<string>, key: string)
    requires Searching(sources, rules, state, compiled, order, stack) && key in state && state[key] == VISITING
    requires stack == [] || Edge(sources, stack[|stack| - 1], key)
    ensures !Acyclic(sources)
  {
    assert key in stack;
    StackIsCycle(sources, stack, key);
  }

  ghost predicate DoneUpTo(state: map<string, int>, keys: seq<string>, n: nat) {
    n <= |keys| && forall j | 0 <= j < n :: IsDone(state, keys[j])
  }

  lemma DoneStays(was: map<string, int>, state: map<string, int>, keys: seq<string>, n: nat)
    requires DoneUpTo(was, keys, n) && Later(was, state) && n < |keys| && IsDone(state, keys[n])
    ensures DoneUpTo(state, keys, n + 1)
  {}

  lemma AllDone(state: map<string, int>, keys: seq<string>, sources: Sources)
    requires DoneUpTo(state, keys, |keys|) && forall k :: k in keys <==> k in sources
    ensures forall k | k in sources :: IsDone(state, k)
  {
    forall k | k in sources ensures IsDone(state, k) { assert k in keys; }
  }

  /** The first `n` parameters lead to finished sources, and `required` tells whether one of them is required. */
  ghost predicate VisitedUpTo(state: map<string, int>, s: Source, names: seq<string>, n: nat, required: bool) {
    && n <= |names|
    && (forall j | 0 <= j < n :: names[j] in s.parameters && IsDone(state, s.parameters[names[j]].sourceKey))
    && (required <==> exists j | 0 <= j < n :: names[j] in s.parameters && s.parameters[names[j]].required)
  }

  lemma VisitedOne(
    was: map<string, int>, state: map<string, int>, s: Source, names: seq<string>, n: nat, required: bool,
    first: map<string, int>)
    requires n < |names| && names[n] in s.parameters && IsDone(state, s.parameters[names[n]].sourceKey)
    requires Later(first, was) && Later(was, state)
    requires exists r :: VisitedUpTo(was, s, names, n, r) && required == (r || s.parameters[names[n]].required)
    ensures VisitedUpTo(state, s, names, n + 1, required) && Later(first, state)
  {
  }

  lemma VisitedParameters(state: map<string, int>, s: Source, names: seq<string>, required: bool)
    requires VisitedUpTo(state, s, names, |names|, required) && forall p :: p in names <==> p in s.parameters
    ensures (forall p | p in s.parameters :: IsDone(state, s.parameters[p].sourceKey)) && (required <==> HasRequired(s))
  {
    forall p | p in s.parameters
      ensures IsDone(state, s.parameters[p].sourceKey) && (s.parameters[p].required ==> required)
    {
      assert p in names;
    }
  }

  class Search {
    const sources: Sources
    const rules: Rules
    var state: map<string, int>
    /** The sources whose constraints have been compiled. */
    var compiled: set<string>
    ghost var order: seq<string>

    constructor (sources: Sources, rules: Rules)
      ensures this.sources == sources && this.rules == rules && Valid([]) && order == []
    {
      this.sources, this.rules := sources, rules;
      state, compiled, order := map[], {}, [];
    }

    ghost predicate Valid(stack: seq<string>)
      reads this
    {
      Searching(sources, rules, state, compiled, order, stack)
    }

    method Visit(key: string, ghost stack: seq<string>) returns (err: Option<Problem>)
      requires Valid(stack) && key in sources && (stack == [] || Edge(sources, stack[|stack| - 1], key))
      modifies this
      ensures err == None ==> Valid(stack) && IsDone(state, key) && Later(old(state), state)
      ensures err != None ==> !ValidSources(sources, rules)
      decreases sources.Keys - state.Keys, 0
    {
      if key in state && state[key] == VISITING {
        VisitingIsCycle(sources, rules, state, compiled, order, stack, key);
        return Some(Cyclic(key));
      }
      if key in state && state[key] == DONE { return None; }
      Entered(sources, rules, state, compiled, order, stack, key);
      state := state[key := VISITING];
      ghost var inner := stack + [key];
      var s := sources[key];
      if !ValidFileImport(s) { return Some(InvalidFileImport(key)); }
      var hasRequired;
      err, hasRequired := VisitParameters(key, s, inner);
      if err != None { return; }
      err := Finish(key, s, hasRequired, stack);
    }

    /** What remains once the parameters have been visited. */
    method Finish(key: string, s: Source, hasRequired: bool, ghost stack: seq<string>) returns (err: Option<Problem>)
      requires Valid(stack + [key]) && key !in stack && key in sources && sources[key] == s
      requires ValidFileImport(s) && (hasRequired <==> HasRequired(s))
      requires forall p | p in s.parameters :: IsDone(state, s.parameters[p].sourceKey)
      modifies this
      ensures err == None ==> Valid(stack) && state == old(state)[key := DONE]
      ensures err != None ==> !ValidSource(s, rules)
    {
      if s.identityScope == "parent" && !hasRequired { return Some(ParentRequired(key)); }
      if "resolve" !in s.supports { return Some(ResolveRequired(key)); }
      if s.constraints != "" && !rules.compiles(s.constraints) { return Some(InvalidConstraints(key)); }
      Finished(sources, rules, state, compiled, order, stack, key);
      if s.constraints != "" { compiled := compiled + {key}; }
      state, order := state[key := DONE], order + [key];
      err := None;
    }

    /** The loop over the parameters. */
    method VisitParameters(key: string, s: Source, ghost stack: seq<string>)
      returns (err: Option<Problem>, hasRequired: bool)
      requires Valid(stack) && stack != [] && stack[|stack| - 1] == key && key in sources && sources[key] == s
      modifies this
      ensures err == None ==> Valid(stack) && Later(old(state), state)
      ensures err == None ==> (hasRequired <==> HasRequired(s))
      ensures err == None ==> forall p | p in s.parameters :: IsDone(state, s.parameters[p].sourceKey)
      ensures err != None ==> !ValidSources(sources, rules)
      decreases sources.Keys - state.Keys, 1
    {
      hasRequired := false;
      var names := SortedKeys(s.parameters);
      for i := 0 to |names|
        invariant Valid(stack) && Later(old(state), state) && VisitedUpTo(state, s, names, i, hasRequired)
      {
        ghost var was := state;
        var dep := s.parameters[names[i]];
        if dep.sourceKey !in sources { return Some(UnknownSource(key)), hasRequired; }
        hasRequired := hasRequired || dep.required;
        err := Visit(dep.sourceKey, stack);
        if err != None { return; }
        VisitedOne(was, state, s, names, i, hasRequired, old(state));
      }
      err := None;
      VisitedParameters(state, s, names, hasRequired);
    }

    method VisitAll() returns (err: Option<Problem>)
      requires Valid([])
      modifies this
      ensures err == None ==> Valid([]) && forall k | k in sources :: IsDone(state, k)
      ensures err != None ==> !ValidSources(sources, rules)
    {
      var keys := SortedKeys(sources);
      for i := 0 to |keys|
        invariant Valid([]) && DoneUpTo(state, keys, i)
      {
        ghost var was := state;
        err := Visit(keys[i], []);
        if err != None { return; }
        DoneStays(was, state, keys, i);
      }
      err := None;
      AllDone(state, keys, sources);
    }
  }

  /** Success means exactly that every source a parameter names is declared, no source depends on itself through others,
      and each passes its own checks; then each source that has constraints has had them compiled. */
  method ValidateResourceSources(sources: Sources, rules: Rules) returns (err: Option<Problem>, compiled: set<string>)
    ensures err == None <==> rules.shape(sources) && ValidSources(sources, rules)
    ensures err == None ==> forall k :: k in compiled <==> k in sources && sources[k].constraints != ""
  {
    if !rules.shape(sources) { return Some(InvalidContract), {}; }
    var search := new Search(sources, rules);
    err := search.VisitAll();
    compiled := search.compiled;
    if err == None { AllOrdered(sources, rules, search.state, compiled, search.order); }
  }

  lemma AllOrdered(sources: Sources, rules: Rules, state: map<string, int>, compiled: set<string>, order: seq<string>)
    requires Searching(sources, rules, state, compiled, order, []) && forall k | k in sources :: IsDone(state, k)
    ensures ValidSources(sources, rules) && forall k :: k in compiled <==> k in sources && sources[k].constraints != ""
  {
    OrderedIsAcyclic(sources, order);
    forall k, p | k in sources && p in sources[k].parameters ensures sources[k].parameters[p].sourceKey in sources {
      var i :| 0 <= i < |order| && order[i] == k;
      assert sources[order[i]].parameters[p].sourceKey in order[..i];
      assert sources[k].parameters[p].sourceKey in order;
    }
  }
}
