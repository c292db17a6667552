/** readcache/cache.go: GetTagged and InvalidateTags on top of the read calls of CacheFlights. */
module CacheTags {
  import opened Basics
  import opened CacheServer
  import F = CacheFlights

  /** A GetTagged call. `before` is its first generation read and `value` what Get returned under it. */
  datatype Call = Call(key: string, tags: seq<Tag>, before: Option<seq<Gen>>, value: Option<Entry>)

  /** The generation keys and an observer's notes: for which tags and when each nonce was used, when each tag was last
      invalidated, and when a list of generations was first read. */
  datatype Tags = Tags(
    gens: map<Tag, Gen>,
    made: map<nat, (seq<Tag>, nat)>,
    cutAt: map<Tag, nat>,
    known: map<seq<Gen>, nat>)

  datatype World = World(flights: F.Flights, tags: Tags, calls: map<nat, Call>)

  datatype Step =
    | Flight(step: F.Step)
    | InvalidateTags(tags: seq<Tag>, nonce: nat)
    | ExpireGen(tag: Tag)
    | Open(call: nat, key: string, tags: seq<Tag>)
    | ReadBefore(call: nat, nonce: nat)
    | Take(call: nat, entry: Entry)
    | ReadAfter(call: nat, nonce: nat)

  /** Nonces are never reused, and a tagged name is read only under generations its reader has read. */
  predicate Can(w: World, step: Step) {
    match step
    case Flight(s) => F.Can(w.flights, s) && !(s.Ready? && s.name.Tagged?)
    case InvalidateTags(tags, nonce) => Distinct(tags) && nonce !in w.tags.made
    case Open(call, _, tags) => call !in w.calls && Distinct(tags)
    case ReadBefore(call, nonce) => call in w.calls && w.calls[call].before == None && nonce !in w.tags.made
    case Take(call, entry) =>
      call in w.calls && w.calls[call].before != None && w.calls[call].value == None
      && (Tagged(w.calls[call].key, w.calls[call].before.value), entry) in w.flights.results
    case ReadAfter(call, nonce) => call in w.calls && w.calls[call].value != None && nonce !in w.tags.made
    case _ => true
  }

  predicate Born(t: Tags, g: Gen) { g.nonce in t.made && 0 < g.index <= |t.made[g.nonce].0| }

  function TagOf(t: Tags, g: Gen): Tag
    requires Born(t, g)
  {
    t.made[g.nonce].0[g.index - 1]
  }

  function BornAt(t: Tags, g: Gen): nat
    requires Born(t, g)
  {
    t.made[g.nonce].1
  }

  /** The generations script on behalf of somebody. */
  function Generated(t: Tags, tags: seq<Tag>, nonce: nat, now: nat): Tags {
    t.(gens := Created(t.gens, tags, nonce, |tags|), made := t.made[nonce := (tags, now)])
  }

  function CutTags(t: Tags, tags: seq<Tag>, nonce: nat, now: nat): Tags {
    t.(gens := Renewed(t.gens, tags, nonce, |tags|), made := t.made[nonce := (tags, now)],
       cutAt := t.cutAt + map g | g in tags :: now)
  }

  function Noted(t: Tags, gens: seq<Gen>, now: nat): Tags {
    if gens in t.known then t else t.(known := t.known[gens := now])
  }

  /** Equal generations end the call with its value; otherwise it starts over. */
  predicate Returns(w: World, call: nat, nonce: nat)
    requires call in w.calls
  {
    w.calls[call].before == Some(Current(w.tags.gens, w.calls[call].tags, nonce))
  }

  function NextTags(w: World, step: Step): Tags
    requires Can(w, step)
  {
    var now := w.flights.clock;
    match step
    case InvalidateTags(tags, nonce) => CutTags(w.tags, tags, nonce, now)
    case ExpireGen(tag) => w.tags.(gens := w.tags.gens - {tag})
    case ReadBefore(call, nonce) =>
      var tags := w.calls[call].tags;
      Noted(Generated(w.tags, tags, nonce, now), Current(w.tags.gens, tags, nonce), now)
    case ReadAfter(call, nonce) => Generated(w.tags, w.calls[call].tags, nonce, now)
    case _ => w.tags
  }

  /** Reading the generations makes the name built from them known; everything else is a step of the flights or none. */
  function FlightStep(w: World, step: Step): F.Step
    requires Can(w, step)
  {
    match step
    case Flight(s) => s
    case ReadBefore(call, nonce) => F.Ready(Tagged(w.calls[call].key, Current(w.tags.gens, w.calls[call].tags, nonce)))
    case _ => F.Tick
  }

  function NextCalls(w: World, step: Step): map<nat, Call>
    requires Can(w, step)
  {
    match step
    case Open(call, key, tags) => w.calls[call := Call(key, tags, None, None)]
    case ReadBefore(call, nonce) =>
      w.calls[call := w.calls[call].(before := Some(Current(w.tags.gens, w.calls[call].tags, nonce)))]
    case Take(call, entry) => w.calls[call := w.calls[call].(value := Some(entry))]
    case ReadAfter(call, nonce) =>
      if Returns(w, call, nonce) then w.calls - {call}
      else w.calls[call := w.calls[call].(before := None, value := None)]
    case _ => w.calls
  }

  function Apply(w: World, step: Step): World
    requires Can(w, step)
  {
    World(F.Apply(w.flights, FlightStep(w, step)), NextTags(w, step), NextCalls(w, step))
  }

  ghost predicate Runs(w: World, steps: seq<Step>, v: World)
    decreases |steps|
  {
    if steps == [] then w == v else Can(w, steps[0]) && Runs(Apply(w, steps[0]), steps[1..], v)
  }

  const START := World(F.START, Tags(map[], map[], map[], map[]), map[])

  // ---- invariants ----

  /** The generation a tag has belongs to it and was made no earlier than the tag's last invalidation. */
  predicate GenOk(t: Tags, tag: Tag) {
    tag in t.gens ==>
      && Born(t, t.gens[tag]) && TagOf(t, t.gens[tag]) == tag
      && (tag in t.cutAt ==> t.cutAt[tag] <= BornAt(t, t.gens[tag]))
  }

  /** A list of generations was first read after all of them were made. */
  predicate KnownOk(t: Tags, gens: seq<Gen>) {
    gens in t.known ==> forall i | 0 <= i < |gens| :: Born(t, gens[i]) && BornAt(t, gens[i]) <= t.known[gens]
  }

  ghost predicate TagsOk(t: Tags) {
    && (forall tag :: GenOk(t, tag))
    && (forall gens :: KnownOk(t, gens))
  }

  /** Nobody reads a tagged name before its generations were read. */
  ghost predicate NamesOk(w: World) {
    forall key, gens | Tagged(key, gens) in w.flights.ready ::
      gens in w.tags.known && w.tags.known[gens] <= w.flights.ready[Tagged(key, gens)]
  }

  predicate CallFits(known: map<seq<Gen>, nat>, f: F.Flights, x: Call) {
    && Distinct(x.tags)
    && (x.value != None ==> x.before != None)
    && (x.before != None ==> x.before.value in known && |x.before.value| == |x.tags|)
    && (x.value != None ==> F.Since(f, Tagged(x.key, x.before.value), x.value.value.began))
  }

  predicate CallOk(w: World, c: nat)
    requires c in w.calls
  {
    CallFits(w.tags.known, w.flights, w.calls[c])
  }

  /** Every note is of the past. */
  ghost predicate TimesOk(t: Tags, now: nat) {
    && (forall n | n in t.made :: t.made[n].1 < now)
    && (forall tag | tag in t.cutAt :: t.cutAt[tag] < now)
    && (forall gens | gens in t.known :: t.known[gens] < now)
  }

  ghost predicate Inv(w: World) {
    && F.Inv(w.flights) && TagsOk(w.tags) && NamesOk(w)
    && TimesOk(w.tags, w.flights.clock)
    && (forall c | c in w.calls :: CallOk(w, c))
  }

  lemma GeneratedKeeps(t: Tags, tags: seq<Tag>, nonce: nat, now: nat)
    requires TagsOk(t) && Distinct(tags) && nonce !in t.made
    requires forall tag | tag in t.cutAt :: t.cutAt[tag] <= now
    ensures TagsOk(Generated(t, tags, nonce, now))
  {
    var u := Generated(t, tags, nonce, now);
    forall tag ensures GenOk(u, tag) {
      assert GenOk(t, tag);
      GeneratedGen(t, tags, nonce, now, tag);
    }
    forall gens ensures KnownOk(u, gens) { assert KnownOk(t, gens); }
  }

  lemma GeneratedGen(t: Tags, tags: seq<Tag>, nonce: nat, now: nat, tag: Tag)
    requires GenOk(t, tag) && Distinct(tags) && nonce !in t.made
    requires tag in t.cutAt ==> t.cutAt[tag] <= now
    ensures GenOk(Generated(t, tags, nonce, now), tag)
  {
    var u := Generated(t, tags, nonce, now);
    CreatedAt(t.gens, tags, nonce, |tags|);
    if tag in t.gens {
      SameGenOk(t, u, tag);
    } else if tag in u.gens {
      var i :| 0 <= i < |tags| && tags[i] == tag && u.gens[tag] == Gen(nonce, i + 1);
      NewGenOk(u, tags, nonce, now, i);
    }
  }

  lemma CutKeeps(t: Tags, tags: seq<Tag>, nonce: nat, now: nat)
    requires TagsOk(t) && Distinct(tags) && nonce !in t.made
    ensures TagsOk(CutTags(t, tags, nonce, now))
  {
    var u := CutTags(t, tags, nonce, now);
    forall tag ensures GenOk(u, tag) { CutGen(t, tags, nonce, now, tag); }
    forall gens ensures KnownOk(u, gens) { assert KnownOk(t, gens); }
  }

  lemma CutGen(t: Tags, tags: seq<Tag>, nonce: nat, now: nat, tag: Tag)
    requires GenOk(t, tag) && Distinct(tags) && nonce !in t.made
    ensures GenOk(CutTags(t, tags, nonce, now), tag)
  {
    var u := CutTags(t, tags, nonce, now);
    RenewedAt(t.gens, tags, nonce, |tags|);
    if tag in tags {
      var i :| 0 <= i < |tags| && tags[i] == tag;
      NewGenOk(u, tags, nonce, now, i);
    } else {
      assert tag !in tags[..|tags|];
      SameGenOk(t, u, tag);
    }
  }

  lemma NewGenOk(u: Tags, tags: seq<Tag>, nonce: nat, now: nat, i: nat)
    requires nonce in u.made && u.made[nonce] == (tags, now) && i < |tags|
    requires tags[i] in u.gens && u.gens[tags[i]] == Gen(nonce, i + 1)
    requires tags[i] in u.cutAt ==> u.cutAt[tags[i]] <= now
    ensures GenOk(u, tags[i])
  {
  }

  lemma SameGenOk(t: Tags, u: Tags, tag: Tag)
    requires GenOk(t, tag) && (tag in u.gens ==> tag in t.gens && u.gens[tag] == t.gens[tag])
    requires tag in u.cutAt ==> tag in t.cutAt && u.cutAt[tag] == t.cutAt[tag]
    requires forall n | n in t.made :: n in u.made && u.made[n] == t.made[n]
    ensures GenOk(u, tag)
  {
  }

  /** The script returns generations that were made for these tags by now. */
  lemma CurrentIsBorn(t: Tags, tags: seq<Tag>, nonce: nat, now: nat)
    requires TagsOk(t) && nonce !in t.made && forall n | n in t.made :: t.made[n].1 < now
    ensures var u := Generated(t, tags, nonce, now); var gens := Current(t.gens, tags, nonce);
      |gens| == |tags| && forall i | 0 <= i < |gens| :: Born(u, gens[i]) && BornAt(u, gens[i]) <= now
  {
    forall i | 0 <= i < |tags| ensures Born(Generated(t, tags, nonce, now), Current(t.gens, tags, nonce)[i]) {
      assert GenOk(t, tags[i]);
    }
  }

  lemma StepTagsOk(w: World, step: Step)
    requires Inv(w) && Can(w, step)
    ensures TagsOk(NextTags(w, step))
  {
    var now := w.flights.clock;
    match step
    case InvalidateTags(tags, nonce) => CutKeeps(w.tags, tags, nonce, now);
    case ReadBefore(call, nonce) =>
      assert CallOk(w, call);
      var tags := w.calls[call].tags;
      GeneratedKeeps(w.tags, tags, nonce, now);
      CurrentIsBorn(w.tags, tags, nonce, now);
      NotedKeeps(Generated(w.tags, tags, nonce, now), Current(w.tags.gens, tags, nonce), now);
    case ReadAfter(call, nonce) =>
      assert CallOk(w, call);
      GeneratedKeeps(w.tags, w.calls[call].tags, nonce, now);
    case ExpireGen(tag) =>
      forall g ensures GenOk(NextTags(w, step), g) { assert GenOk(w.tags, g); }
      forall gens ensures KnownOk(NextTags(w, step), gens) { assert KnownOk(w.tags, gens); }
    case _ =>
  }

  lemma NotedKeeps(t: Tags, gens: seq<Gen>, now: nat)
    requires TagsOk(t) && forall i | 0 <= i < |gens| :: Born(t, gens[i]) && BornAt(t, gens[i]) <= now
    ensures TagsOk(Noted(t, gens, now))
  {
    var u := Noted(t, gens, now);
    forall tag ensures GenOk(u, tag) { assert GenOk(t, tag); }
    forall s ensures KnownOk(u, s) { assert KnownOk(t, s); }
  }

  lemma StepKnown(w: World, step: Step)
    requires Can(w, step)
    ensures var known := NextTags(w, step).known;
      && (forall gens | gens in w.tags.known :: gens in known && known[gens] == w.tags.known[gens])
      && (forall gens | gens in known :: gens in w.tags.known || known[gens] == w.flights.clock)
    ensures step.ReadBefore? ==>
      Current(w.tags.gens, w.calls[step.call].tags, step.nonce) in NextTags(w, step).known
  {
  }

  lemma ReadyMoves(f: F.Flights, step: F.Step, n: Name)
    requires n in F.NextReady(f, step)
    ensures var ready := F.NextReady(f, step);
      (n in f.ready && ready[n] == f.ready[n]) || (step == F.Ready(n) && ready[n] == f.clock)
  {
  }

  lemma StepNames(w: World, step: Step)
    requires Inv(w) && Can(w, step)
    ensures NamesOk(Apply(w, step))
  {
    var v := Apply(w, step);
    StepKnown(w, step);
    forall key, gens | Tagged(key, gens) in v.flights.ready
      ensures gens in v.tags.known && v.tags.known[gens] <= v.flights.ready[Tagged(key, gens)]
    {
      ReadyMoves(w.flights, FlightStep(w, step), Tagged(key, gens));
    }
  }

  /** What a call notes on a step is true already when the step is taken. */
  lemma CallMoves(w: World, step: Step, c: nat)
    requires Can(w, step) && c in NextCalls(w, step)
    requires c in w.calls ==> CallOk(w, c)
    requires forall r | r in w.flights.results :: F.Since(w.flights, r.0, r.1.began)
    ensures CallFits(NextTags(w, step).known, w.flights, NextCalls(w, step)[c])
  {
    StepKnown(w, step);
    match step
    case Take(call, entry) =>
      if c == call { TakenFits(w, call, entry); }
    case _ =>
  }

  lemma TakenFits(w: World, call: nat, entry: Entry)
    requires Can(w, Take(call, entry)) && CallOk(w, call)
    requires forall r | r in w.flights.results :: F.Since(w.flights, r.0, r.1.began)
    ensures CallFits(w.tags.known, w.flights, w.calls[call].(value := Some(entry)))
  {
    assert (Tagged(w.calls[call].key, w.calls[call].before.value), entry) in w.flights.results;
  }

  lemma StepCall(w: World, step: Step, c: nat)
    requires Inv(w) && Can(w, step) && c in NextCalls(w, step)
    ensures CallOk(Apply(w, step), c)
  {
    CallMoves(w, step, c);
    F.StepLater(w.flights, FlightStep(w, step));
  }

  lemma StepTimes(w: World, step: Step)
    requires Can(w, step) && TimesOk(w.tags, w.flights.clock)
    ensures TimesOk(NextTags(w, step), w.flights.clock + 1)
  {
    StepKnown(w, step);
  }

  lemma StepKeeps(w: World, step: Step)
    requires Inv(w) && Can(w, step)
    ensures Inv(Apply(w, step))
  {
    var v := Apply(w, step);
    F.StepKeeps(w.flights, FlightStep(w, step));
    StepTimes(w, step);
    StepTagsOk(w, step);
    StepNames(w, step);
    forall c | c in v.calls ensures CallOk(v, c) { StepCall(w, step, c); }
  }

  lemma {:induction false} RunKeeps(w: World, steps: seq<Step>, v: World)
    requires Inv(w) && Runs(w, steps, v)
    ensures Inv(v)
    decreases |steps|
  {
    if steps != [] {
      StepKeeps(w, steps[0]);
      RunKeeps(Apply(w, steps[0]), steps[1..], v);
    }
  }

  /** Generations that a tag has had since a reader first knew them are no older than the tag's last invalidation. */
  lemma AgreedIsOld(t: Tags, tags: seq<Tag>, nonce: nat, i: nat)
    requires i < |tags| && nonce !in t.made && GenOk(t, tags[i])
    requires var gens := Current(t.gens, tags, nonce); gens in t.known && KnownOk(t, gens)
    ensures tags[i] in t.cutAt ==> t.cutAt[tags[i]] <= t.known[Current(t.gens, tags, nonce)]
  {
    var gens := Current(t.gens, tags, nonce);
    assert Born(t, gens[i]);
  }

  lemma ReachableKeeps(steps: seq<Step>, w: World)
    requires Runs(START, steps, w)
    ensures Inv(w)
  {
    RunKeeps(START, steps, w);
  }

  lemma AgreedIsFresh(w: World, call: nat, nonce: nat, i: nat)
    requires TagsOk(w.tags) && NamesOk(w) && call in w.calls && CallOk(w, call)
    requires Can(w, ReadAfter(call, nonce)) && Returns(w, call, nonce) && i < |w.calls[call].tags|
    ensures var tag := w.calls[call].tags[i];
      tag in w.tags.cutAt ==> w.tags.cutAt[tag] < w.calls[call].value.value.began
  {
    var x := w.calls[call];
    assert GenOk(w.tags, x.tags[i]) && KnownOk(w.tags, x.before.value);
    AgreedIsOld(w.tags, x.tags, nonce, i);
    assert Tagged(x.key, x.before.value) in w.flights.ready;
  }

  /** When GetTagged returns because both generation reads agree, the load behind its value began after every
      invalidation of any of its tags that took effect before the second read. */
  lemma TaggedValueIsFresh(steps: seq<Step>, w: World, call: nat, nonce: nat, tag: Tag)
    requires Runs(START, steps, w) && Can(w, ReadAfter(call, nonce)) && Returns(w, call, nonce)
    requires tag in w.calls[call].tags && tag in w.tags.cutAt
    ensures w.tags.cutAt[tag] < w.calls[call].value.value.began
  {
    ReachableKeeps(steps, w);
    assert CallOk(w, call);
    var i: nat :| i < |w.calls[call].tags| && w.calls[call].tags[i] == tag;
    AgreedIsFresh(w, call, nonce, i);
  }
}
