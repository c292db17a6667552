/** documentation/publish.go: releasing a documentation package through a service that is shared with other publishers
    and whose answers may be lost. */
module Publication {
  import opened Basics

  // ---- the service, as far as a publisher relies on it ----

  /** A canonical package; the digest tells packages apart. */
  datatype Package = Package(provider: string, contract: string, sourceRevision: string, digest: string)

  /** The channel of one contract, and the provider-wide current channel. */
  datatype Slot = Exact(provider: string, contract: string) | Current(provider: string)

  /** What a publisher asks for: the channels are expected to be at the revisions named. */
  datatype Activation = Activation(
    digest: string, contract: string, expected: int, operationId: string, expectedCurrent: Option<int>)

  /** One activation that took effect, and the provider of the package it names. */
  datatype Commit = Commit(request: Activation, provider: string)

  /** Everything else follows from the packages uploaded and the commits in their order. */
  datatype State = State(uploads: map<string, Package>, commits: seq<Commit>)

  datatype Info = Info(provider: string, contract: string, digest: string, revision: int)

  datatype Receipt = Receipt(operationId: string, channel: Info, currentChannel: Option<Info>)

  datatype Catalog = Catalog(channel: Info, sourceRevision: string)

  predicate Moves(c: Commit, slot: Slot) {
    match slot
    case Exact(provider, contract) => c.provider == provider && c.request.contract == contract
    case Current(provider) => c.provider == provider && c.request.expectedCurrent.Some?
  }

  /** How often a channel has been moved. */
  function Revision(commits: seq<Commit>, slot: Slot): nat {
    if commits == [] then 0
    else Revision(commits[..|commits| - 1], slot) + if Moves(commits[|commits| - 1], slot) then 1 else 0
  }

  function InfoAt(commits: seq<Commit>, slot: Slot): Info
    requires commits != []
  {
    var c := commits[|commits| - 1];
    Info(c.provider, c.request.contract, c.request.digest, Revision(commits, slot))
  }

  /** What a channel points to: the last commit that moved it. */
  function ChannelOf(commits: seq<Commit>, slot: Slot): Option<Info> {
    if commits == [] then None
    else if Moves(commits[|commits| - 1], slot) then Some(InfoAt(commits, slot))
    else ChannelOf(commits[..|commits| - 1], slot)
  }

  function ReceiptAt(commits: seq<Commit>): Receipt
    requires commits != []
  {
    var c := commits[|commits| - 1];
    Receipt(c.request.operationId, InfoAt(commits, Exact(c.provider, c.request.contract)),
      if c.request.expectedCurrent.Some? then Some(InfoAt(commits, Current(c.provider))) else None)
  }

  function ReceiptOf(commits: seq<Commit>, operationId: string): Option<Receipt> {
    if commits == [] then None
    else if commits[|commits| - 1].request.operationId == operationId then Some(ReceiptAt(commits))
    else ReceiptOf(commits[..|commits| - 1], operationId)
  }

  /** The service stores a receipt for each operation together with its commit, and commits only where the channels are
      still at the revisions named. */
  predicate MayCommit(s: State, a: Activation) {
    && ReceiptOf(s.commits, a.operationId) == None
    && a.digest in s.uploads && s.uploads[a.digest].contract == a.contract
    && Expects(a, s.uploads[a.digest].provider, s.commits)
  }

  /** After `commits` the channels of the provider are at the revisions that the activation names. */
  predicate Expects(a: Activation, provider: string, commits: seq<Commit>) {
    && Revision(commits, Exact(provider, a.contract)) == a.expected
    && (a.expectedCurrent.Some? ==> Revision(commits, Current(provider)) == a.expectedCurrent.value)
  }

  function Committed(s: State, a: Activation): State
    requires a.digest in s.uploads
  {
    s.(commits := s.commits + [Commit(a, s.uploads[a.digest].provider)])
  }

  ghost predicate OneCommitEach(commits: seq<Commit>) {
    forall i, j | 0 <= i < j < |commits| :: commits[i].request.operationId != commits[j].request.operationId
  }

  ghost predicate MadeAsExpected(commits: seq<Commit>) {
    forall n | 0 <= n < |commits| :: Expects(commits[n].request, commits[n].provider, commits[..n])
  }

  ghost predicate Sound(s: State) { OneCommitEach(s.commits) && MadeAsExpected(s.commits) }

  ghost predicate Later(s: State, t: State) {
    s.commits <= t.commits && forall d | d in s.uploads :: d in t.uploads && t.uploads[d] == s.uploads[d]
  }

  lemma {:induction false} ReceiptMeansCommit(commits: seq<Commit>, operationId: string)
    ensures ReceiptOf(commits, operationId) == None
      <==> forall i | 0 <= i < |commits| :: commits[i].request.operationId != operationId
    ensures ReceiptOf(commits, operationId).Some? ==> exists n :: CommitAt(commits, operationId, n)
    decreases |commits|
  {
    if commits != [] {
      var n := |commits| - 1;
      if commits[n].request.operationId == operationId {
        assert commits[..n + 1] == commits;
        assert CommitAt(commits, operationId, n);
      } else {
        ReceiptMeansCommit(commits[..n], operationId);
        if ReceiptOf(commits, operationId).Some? {
          var m: nat :| CommitAt(commits[..n], operationId, m);
          assert commits[..n][..m + 1] == commits[..m + 1];
          assert CommitAt(commits, operationId, m);
        }
      }
    }
  }

  /** Commit `n` is the operation's, and its receipt says what it did. */
  ghost predicate CommitAt(commits: seq<Commit>, operationId: string, n: nat) {
    && n < |commits| && commits[n].request.operationId == operationId
    && ReceiptOf(commits, operationId) == Some(ReceiptAt(commits[..n + 1]))
  }

  lemma CommitKeeps(s: State, a: Activation)
    requires Sound(s) && MayCommit(s, a)
    ensures Sound(Committed(s, a)) && Later(s, Committed(s, a))
  {
    ReceiptMeansCommit(s.commits, a.operationId);
    var made := Committed(s, a).commits;
    forall n | 0 <= n < |made| ensures made[..n] == s.commits[..n] {}
    assert s.commits[..|s.commits|] == s.commits;
  }

  // ---- revisions tell commits apart ----

  lemma {:induction false} RevisionGrows(early: seq<Commit>, late: seq<Commit>, slot: Slot)
    requires early <= late
    ensures Revision(early, slot) <= Revision(late, slot)
    ensures Revision(early, slot) == Revision(late, slot) <==> forall i | |early| <= i < |late| :: !Moves(late[i], slot)
    decreases |late|
  {
    if |early| < |late| {
      RevisionGrows(early, late[..|late| - 1], slot);
    } else {
      assert early == late;
    }
  }

  lemma {:induction false} ChannelIsLastMove(commits: seq<Commit>, slot: Slot)
    ensures ChannelOf(commits, slot) == None ==> Revision(commits, slot) == 0
    ensures ChannelOf(commits, slot).Some? ==> ChannelOf(commits, slot).value.revision == Revision(commits, slot) >= 1
    decreases |commits|
  {
    if commits != [] && !Moves(commits[|commits| - 1], slot) { ChannelIsLastMove(commits[..|commits| - 1], slot); }
  }

  /** A receipt never changes. */
  lemma {:induction false} ReceiptStays(early: seq<Commit>, late: seq<Commit>, operationId: string)
    requires early <= late && OneCommitEach(late) && ReceiptOf(early, operationId).Some?
    ensures ReceiptOf(late, operationId) == ReceiptOf(early, operationId)
    decreases |late|
  {
    if |early| < |late| {
      ReceiptMeansCommit(early, operationId);
      var n: nat :| CommitAt(early, operationId, n);
      assert late[n].request.operationId == operationId && late[|late| - 1].request.operationId != operationId;
      ReceiptStays(early, late[..|late| - 1], operationId);
    } else {
      assert early == late;
    }
  }

  /** A stored receipt is about its operation and consistent in itself. */
  lemma {:induction false} StoredConsistent(commits: seq<Commit>, operationId: string)
    requires ReceiptOf(commits, operationId).Some?
    ensures Consistent(ReceiptOf(commits, operationId).value, operationId)
    decreases |commits|
  {
    if commits[|commits| - 1].request.operationId != operationId {
      StoredConsistent(commits[..|commits| - 1], operationId);
    }
  }

  /** What has been committed meets the patterns of keys and digests. */
  ghost predicate Patterned(commits: seq<Commit>, rules: Rules) {
    forall i | 0 <= i < |commits| ::
      rules.validDigest(commits[i].request.digest) && rules.validKey(commits[i].request.contract)
  }

  /** A channel points to a commit of its own provider, and the channel of a contract to one of that contract. */
  lemma {:induction false} ChannelNames(commits: seq<Commit>, slot: Slot, rules: Rules)
    requires Patterned(commits, rules) && ChannelOf(commits, slot).Some?
    ensures var info := ChannelOf(commits, slot).value;
      && info.provider == slot.provider && (slot.Exact? ==> info.contract == slot.contract)
      && info.revision == Revision(commits, slot) >= 1
      && rules.validDigest(info.digest) && rules.validKey(info.contract)
    decreases |commits|
  {
    ChannelIsLastMove(commits, slot);
    if !Moves(commits[|commits| - 1], slot) { ChannelNames(commits[..|commits| - 1], slot, rules); }
  }

  lemma ChannelFits(commits: seq<Commit>, slot: Slot, rules: Rules)
    ensures Patterned(commits, rules) && ChannelOf(commits, slot).Some? ==>
      var info := ChannelOf(commits, slot).value;
      && info.provider == slot.provider && (slot.Exact? ==> info.contract == slot.contract)
      && info.revision == Revision(commits, slot) >= 1
      && rules.validDigest(info.digest) && rules.validKey(info.contract)
    ensures ChannelOf(commits, slot) == None ==> Revision(commits, slot) == 0
  {
    ChannelIsLastMove(commits, slot);
    if Patterned(commits, rules) && ChannelOf(commits, slot).Some? { ChannelNames(commits, slot, rules); }
  }

  function SourceOf(s: State, digest: string): string {
    if digest in s.uploads then s.uploads[digest].sourceRevision else ""
  }

  // ---- the service among its publishers ----

  datatype Reply<+T> = Answer(value: T) | NotFound | Failed

  predicate Names(c: Catalog, slot: Slot) {
    && c.channel.revision >= 1 && c.channel.provider == slot.provider
    && (slot.Exact? ==> c.channel.contract == slot.contract)
  }

  /** A receipt that is about the operation and consistent in itself. */
  predicate Consistent(r: Receipt, operationId: string) {
    && r.operationId == operationId && r.channel.revision >= 1
    && (r.currentChannel.Some? ==>
          && r.currentChannel.value.provider == r.channel.provider
          && r.currentChannel.value.contract == r.channel.contract
          && r.currentChannel.value.digest == r.channel.digest && r.currentChannel.value.revision >= 1)
  }

  /** A request for an activation, and the state in which it was sent. */
  datatype Asking = Asking(request: Activation, sentAt: State)

  function StoredReceipt(s: State, operationId: string): Reply<Receipt> {
    match ReceiptOf(s.commits, operationId)
    case None => NotFound
    case Some(r) => Answer(r)
  }

  function StoredCatalog(s: State, slot: Slot): Reply<Catalog> {
    match ChannelOf(s.commits, slot)
    case None => NotFound
    case Some(info) => Answer(Catalog(info, SourceOf(s, info.digest)))
  }

  function WithPackage(s: State, p: Package): State {
    if p.digest in s.uploads then s else s.(uploads := s.uploads[p.digest := p])
  }

  /** Requests and answers may be lost, and an answer that does not name what was asked for may say anything; others are
      taken to be true. A service that is `quiet` has no other publishers, loses nothing but answers to activations,
      and answers in full. */
  class Service {
    const quiet: bool
    var state: State
    /** The activations sent by the publisher in view. */
    ghost var asked: seq<Asking>

    constructor (quiet: bool)
      ensures Sound(state) && this.quiet == quiet
    {
      this.quiet := quiet;
      state, asked := State(map[], []), [];
    }

    /** Any number of uploads and activations by anybody, under any operation. */
    method Others()
      requires Sound(state)
      modifies `state
      ensures Sound(state) && Later(old(state), state) && (quiet ==> state == old(state))
    {
      var n: nat := *;
      while n > 0 && !quiet
        invariant Sound(state) && Later(old(state), state) && (quiet ==> state == old(state))
      {
        n := n - 1;
        var p: Package := *;
        var a: Activation := *;
        Store(p);
        Commit(a);
      }
    }

    /** A package once uploaded stays as it is. */
    method Store(p: Package)
      requires Sound(state)
      modifies `state
      ensures Sound(state) && Later(old(state), state) && state == WithPackage(old(state), p)
    {
      if p.digest !in state.uploads { state := state.(uploads := state.uploads[p.digest := p]); }
    }

    method Commit(a: Activation)
      requires Sound(state)
      modifies `state
      ensures Sound(state) && Later(old(state), state)
      ensures state == if MayCommit(old(state), a) then Committed(old(state), a) else old(state)
    {
      if MayCommit(state, a) {
        CommitKeeps(state, a);
        state := Committed(state, a);
      }
    }

    method Receipt(operationId: string) returns (reply: Reply<Receipt>)
      requires Sound(state)
      modifies `state
      ensures Sound(state) && Later(old(state), state)
      ensures reply.NotFound? ==> ReceiptOf(state.commits, operationId) == None
      ensures reply.Answer? && Consistent(reply.value, operationId) ==>
        ReceiptOf(state.commits, operationId) == Some(reply.value)
      ensures quiet ==> state == old(state) && reply == StoredReceipt(state, operationId)
    {
      Others();
      reply := AnswerReceipt(operationId);
    }

    method AnswerReceipt(operationId: string) returns (reply: Reply<Receipt>)
      ensures reply.NotFound? ==> ReceiptOf(state.commits, operationId) == None
      ensures reply.Answer? && Consistent(reply.value, operationId) ==>
        ReceiptOf(state.commits, operationId) == Some(reply.value)
      ensures quiet ==> reply == StoredReceipt(state, operationId)
    {
      var lost: bool := *;
      if lost && !quiet { return Failed; }
      var r: Receipt := *;
      if !Consistent(r, operationId) && !quiet { return Answer(r); }
      return StoredReceipt(state, operationId);
    }

    method Catalog(slot: Slot) returns (reply: Reply<Catalog>)
      requires Sound(state)
      modifies `state
      ensures Sound(state) && Later(old(state), state)
      ensures reply.NotFound? ==> ChannelOf(state.commits, slot) == None
      ensures reply.Answer? && Names(reply.value, slot) ==> reply == StoredCatalog(state, slot)
      ensures quiet ==> state == old(state) && reply == StoredCatalog(state, slot)
    {
      Others();
      var lost: bool := *;
      if lost && !quiet { return Failed; }
      var c: Catalog := *;
      if !Names(c, slot) && !quiet { return Answer(c); }
      reply := StoredCatalog(state, slot);
    }

    /** An upload that is acknowledged has arrived. */
    method Upload(p: Package) returns (ok: bool)
      requires Sound(state)
      modifies `state
      ensures Sound(state) && Later(old(state), state) && (ok ==> p.digest in state.uploads)
      ensures quiet ==> ok && state == WithPackage(old(state), p)
    {
      Others();
      var arrives: bool := *;
      if arrives || quiet { Store(p); }
      var acknowledged: bool := *;
      ok := (arrives && acknowledged) || quiet;
    }

    /** The request may be lost, or take effect and its answer be lost. */
    method Activate(a: Activation) returns (reply: Reply<Receipt>)
      requires Sound(state)
      modifies this
      ensures Sound(state) && Later(old(state), state) && asked == old(asked) + [Asking(a, old(state))]
      ensures reply.Answer? && Consistent(reply.value, a.operationId) ==>
        ReceiptOf(state.commits, a.operationId) == Some(reply.value)
      ensures quiet ==>
        && state == (if MayCommit(old(state), a) then Committed(old(state), a) else old(state))
        && (reply == Failed || reply == StoredReceipt(state, a.operationId))
    {
      asked := asked + [Asking(a, state)];
      Others();
      var arrives: bool := *;
      if arrives || quiet { Commit(a); }
      reply := AnswerReceipt(a.operationId);
      var lost: bool := *;
      if lost { reply := Failed; }
    }
  }

  // ---- publishPackage ----

  datatype Failure =
    | NotAllowed
    | InvalidOperation
    | NotAnIntegration
    | ReceiptMismatch
    | NotVerified
    | NoLongerCurrent
    | NotRecovered
    | NotUploaded
    | ChannelMismatch
    | ChannelNotRead
    | Unconfirmed

  /** What the model leaves open: the publication context and the patterns of keys and digests. */
  datatype Rules = Rules(
    allowed: Package -> bool, validOperation: string -> bool, isIntegration: string -> bool,
    validKey: string -> bool, validDigest: string -> bool)

  /** An activation, the state in which it was sent, and the earlier ones in which its operation had no receipt and in
      which its expected revisions were read. */
  datatype Sent = Sent(request: Activation, missed: State, channelRead: State, currentRead: State, sentAt: State)

  ghost predicate Between(first: State, s: State, last: State) { Later(first, s) && Later(s, last) }

  /** The operation's receipt as stored, and the channels found to be as it says and to come from the package's
      source: the one of the contract in state `seen`, the current one in `seenCurrent`. */
  ghost predicate Confirmed(
    r: Receipt, p: Package, operationId: string, current: bool, seen: State, seenCurrent: State) {
    && ReceiptOf(seen.commits, operationId) == Some(r)
    && r.channel.provider == p.provider && r.channel.contract == p.contract && r.channel.digest == p.digest
    && (r.currentChannel.Some? <==> current) && SourceOf(seen, p.digest) == p.sourceRevision
    && ChannelOf(seen.commits, Exact(p.provider, p.contract)) == Some(r.channel)
    && (current ==>
          && ReceiptOf(seenCurrent.commits, operationId) == Some(r)
          && SourceOf(seenCurrent, p.digest) == p.sourceRevision
          && r.currentChannel.value.contract == p.contract && r.currentChannel.value.digest == p.digest
          && ChannelOf(seenCurrent.commits, Current(p.provider)) == r.currentChannel)
  }

  /** The receipt is the operation's, and its channels still are as it says and come from the package's source. */
  predicate Stands(r: Receipt, p: Package, operationId: string, current: bool, s: State) {
    && ReceiptOf(s.commits, operationId) == Some(r)
    && r.channel.provider == p.provider && r.channel.contract == p.contract && r.channel.digest == p.digest
    && (r.currentChannel.Some? <==> current) && SourceOf(s, p.digest) == p.sourceRevision
    && ChannelOf(s.commits, Exact(p.provider, p.contract)) == Some(r.channel)
    && (current ==> ChannelOf(s.commits, Current(p.provider)) == r.currentChannel)
  }

  lemma StandingFits(r: Receipt, p: Package, operationId: string, current: bool, s: State)
    requires Stands(r, p, operationId, current, s)
    ensures Consistent(r, operationId)
  {
    StoredConsistent(s.commits, operationId);
  }

  /** The function `check`. */
  method Check(service: Service, p: Package, operationId: string, current: bool, receipt: Receipt)
    returns (r: Result<Receipt, Failure>, ghost seen: State, ghost seenCurrent: State)
    requires Sound(service.state)
    requires Consistent(receipt, operationId) ==> ReceiptOf(service.state.commits, operationId) == Some(receipt)
    modifies service`state
    ensures Sound(service.state) && Later(old(service.state), service.state)
    ensures Later(old(service.state), seen) && Later(seen, seenCurrent) && Later(seenCurrent, service.state)
    ensures r.Ok? ==> r.value == receipt && Confirmed(receipt, p, operationId, current, seen, seenCurrent)
    ensures service.quiet ==> service.state == old(service.state)
    ensures service.quiet && Stands(receipt, p, operationId, current, old(service.state)) ==> r == Ok(receipt)
  {
    seen, seenCurrent := service.state, service.state;
    if Stands(receipt, p, operationId, current, service.state) {
      StandingFits(receipt, p, operationId, current, service.state);
    }
    if receipt.operationId != operationId || receipt.channel.provider != p.provider
       || receipt.channel.contract != p.contract || receipt.channel.digest != p.digest || receipt.channel.revision < 1 {
      return Err(ReceiptMismatch), seen, seenCurrent;
    }
    if receipt.currentChannel.Some? != current { return Err(ReceiptMismatch), seen, seenCurrent; }
    var reply := service.Catalog(Exact(p.provider, p.contract));
    seen, seenCurrent := service.state, service.state;
    if !reply.Answer? { return Err(NotVerified), seen, seenCurrent; }
    var catalog := reply.value;
    if catalog.channel.provider != p.provider || catalog.channel.contract != p.contract
       || catalog.channel.digest != p.digest || catalog.channel.revision != receipt.channel.revision
       || catalog.sourceRevision != p.sourceRevision {
      return Err(NoLongerCurrent), seen, seenCurrent;
    }
    if current {
      var channel := receipt.currentChannel.value;
      if channel.provider != p.provider || channel.contract != p.contract || channel.digest != p.digest
         || channel.revision < 1 {
        return Err(ReceiptMismatch), seen, seenCurrent;
      }
      ReceiptStays(old(service.state).commits, seen.commits, operationId);
      reply := service.Catalog(Current(p.provider));
      seenCurrent := service.state;
      if !reply.Answer? { return Err(NotVerified), seen, seenCurrent; }
      var active := reply.value;
      if active.channel.provider != p.provider || active.channel.contract != p.contract
         || active.channel.digest != p.digest || active.channel.revision != channel.revision
         || active.sourceRevision != p.sourceRevision {
        return Err(NoLongerCurrent), seen, seenCurrent;
      }
      ReceiptStays(seen.commits, seenCurrent.commits, operationId);
    } else {
      ReceiptStays(old(service.state).commits, seen.commits, operationId);
    }
    return Ok(receipt), seen, seenCurrent;
  }

  /** The activation is the operation's and names revisions read before it was sent, and after the operation was found
      to have no receipt and, where asked to, the package had been uploaded. */
  ghost predicate WellSent(q: Sent, p: Package, operationId: string, upload: bool, current: bool, first: State) {
    && q.request.operationId == operationId && q.request.digest == p.digest && q.request.contract == p.contract
    && Later(first, q.missed) && ReceiptOf(q.missed.commits, operationId) == None
    && Between(q.missed, q.channelRead, q.sentAt) && (upload ==> p.digest in q.channelRead.uploads)
    && q.request.expected == Revision(q.channelRead.commits, Exact(p.provider, p.contract))
    && (q.request.expectedCurrent.Some? <==> current)
    && (current ==>
          && Between(q.channelRead, q.currentRead, q.sentAt)
          && q.request.expectedCurrent.value == Revision(q.currentRead.commits, Current(p.provider)))
  }

  /** Where the activation took effect, nobody had moved its channels since their revisions were read. (The digest names
      the package, so a commit of this activation is one for the package's provider.) */
  ghost predicate NotOverwritten(q: Sent, p: Package, current: bool, commits: seq<Commit>) {
    forall n | 0 <= n < |commits| && commits[n] == Commit(q.request, p.provider) ::
      && StillBetween(q.channelRead.commits, commits, n, Exact(p.provider, p.contract))
      && (current ==> StillBetween(q.currentRead.commits, commits, n, Current(p.provider)))
  }

  /** No commit after those of `early` and before commit `n` moves the channel. */
  ghost predicate StillBetween(early: seq<Commit>, commits: seq<Commit>, n: nat, slot: Slot) {
    |early| <= n <= |commits| && forall i | |early| <= i < n :: !Moves(commits[i], slot)
  }

  ghost function Askings(sent: Option<Sent>): seq<Asking> {
    if sent.Some? then [Asking(sent.value.request, sent.value.sentAt)] else []
  }

  predicate MayPublish(p: Package, operationId: string, current: bool, rules: Rules) {
    rules.allowed(p) && rules.validOperation(operationId) && (current ==> rules.isIntegration(p.provider))
  }

  /** The package is there or is being uploaded, under its own digest, and the patterns fit what is there already. */
  ghost predicate Ready(s: State, p: Package, upload: bool, rules: Rules) {
    && (upload || p.digest in s.uploads) && (p.digest in s.uploads ==> s.uploads[p.digest] == p)
    && Patterned(s.commits, rules)
  }

  /** What the activation is to be, when it is sent in this state. */
  function RequestFor(commits: seq<Commit>, p: Package, operationId: string, current: bool): Activation {
    Activation(p.digest, p.contract, Revision(commits, Exact(p.provider, p.contract)), operationId,
               if current then Some(Revision(commits, Current(p.provider))) else None)
  }

  /** Undisturbed, a new operation takes effect with one commit, and an earlier one that still stands is confirmed
      without any. */
  ghost predicate Delivers(
    s: State, t: State, p: Package, operationId: string, upload: bool, current: bool, rules: Rules,
    r: Result<Receipt, Failure>)
  {
    && (ReceiptOf(s.commits, operationId) == None && Ready(s, p, upload, rules) ==>
          TakesEffect(s.commits, t.commits, p, operationId, current, r))
    && (ReceiptOf(s.commits, operationId).Some?
        && Stands(ReceiptOf(s.commits, operationId).value, p, operationId, current, s) ==>
          t == s && r == Ok(ReceiptOf(s.commits, operationId).value))
  }

  /** At most one activation is sent, naming revisions read before it, and none when the operation had a receipt when
      asked; wherever it takes effect, it overwrites nothing that was not read. Success means that the operation's
      receipt and the channels agree. */
  method PublishPackage(service: Service, p: Package, operationId: string, upload: bool, current: bool, rules: Rules)
    returns (r: Result<Receipt, Failure>, ghost sent: Option<Sent>, ghost seen: State, ghost seenCurrent: State)
    requires Sound(service.state)
    modifies service
    ensures Sound(service.state) && Later(old(service.state), service.state)
    ensures service.asked == old(service.asked) + Askings(sent)
    ensures sent.Some? ==>
      && WellSent(sent.value, p, operationId, upload, current, old(service.state))
      && Later(sent.value.sentAt, service.state)
      && NotOverwritten(sent.value, p, current, service.state.commits)
    ensures r.Ok? ==> Later(old(service.state), seen) && Later(seen, seenCurrent) && Later(seenCurrent, service.state)
    ensures r.Ok? ==> Confirmed(r.value, p, operationId, current, seen, seenCurrent)
    ensures !MayPublish(p, operationId, current, rules) ==> r.Err? && service.state == old(service.state)
    ensures service.quiet && MayPublish(p, operationId, current, rules) ==>
      Delivers(old(service.state), service.state, p, operationId, upload, current, rules, r)
  {
    sent, seen, seenCurrent := None, service.state, service.state;
    if !rules.allowed(p) { return Err(NotAllowed), sent, seen, seenCurrent; }
    if !rules.validOperation(operationId) { return Err(InvalidOperation), sent, seen, seenCurrent; }
    if current && !rules.isIntegration(p.provider) { return Err(NotAnIntegration), sent, seen, seenCurrent; }

    r, sent, seen, seenCurrent := RecoverOrPublish(service, p, operationId, upload, current, rules);
    if sent.Some? {
      NothingIsOverwritten(sent.value, p, operationId, upload, current, old(service.state), service.state);
    }
  }

  /** The rest of the function after its first checks. */
  method RecoverOrPublish(
    service: Service, p: Package, operationId: string, upload: bool, current: bool, rules: Rules)
    returns (r: Result<Receipt, Failure>, ghost sent: Option<Sent>, ghost seen: State, ghost seenCurrent: State)
    requires Sound(service.state)
    modifies service
    ensures Sound(service.state) && Later(old(service.state), service.state)
    ensures service.asked == old(service.asked) + Askings(sent)
    ensures sent.Some? ==>
      && WellSent(sent.value, p, operationId, upload, current, old(service.state))
      && Later(sent.value.sentAt, service.state)
    ensures r.Ok? ==> Later(old(service.state), seen) && Later(seen, seenCurrent) && Later(seenCurrent, service.state)
    ensures r.Ok? ==> Confirmed(r.value, p, operationId, current, seen, seenCurrent)
    ensures service.quiet ==>
      Delivers(old(service.state), service.state, p, operationId, upload, current, rules, r)
  {
    sent, seen, seenCurrent := None, service.state, service.state;
    var recovered := service.Receipt(operationId);
    if recovered.Answer? {
      r, seen, seenCurrent := Check(service, p, operationId, current, recovered.value);
      return;
    }
    if recovered.Failed? { return Err(NotRecovered), sent, seen, seenCurrent; }
    r, sent, seen, seenCurrent := PublishAnew(service, p, operationId, upload, current, rules);
  }

  /** The rest of the function once the operation was found to have no receipt. */
  method PublishAnew(service: Service, p: Package, operationId: string, upload: bool, current: bool, rules: Rules)
    returns (r: Result<Receipt, Failure>, ghost sent: Option<Sent>, ghost seen: State, ghost seenCurrent: State)
    requires Sound(service.state) && ReceiptOf(service.state.commits, operationId) == None
    modifies service
    ensures Sound(service.state) && Later(old(service.state), service.state)
    ensures service.asked == old(service.asked) + Askings(sent)
    ensures sent.Some? ==> WellSent(sent.value, p, operationId, upload, current, old(service.state))
    ensures sent.Some? ==> Later(sent.value.sentAt, service.state)
    ensures r.Ok? ==> Later(old(service.state), seen) && Later(seen, seenCurrent) && Later(seenCurrent, service.state)
    ensures r.Ok? ==> Confirmed(r.value, p, operationId, current, seen, seenCurrent)
    ensures service.quiet && Ready(old(service.state), p, upload, rules) ==>
      TakesEffect(old(service.state).commits, service.state.commits, p, operationId, current, r)
  {
    sent, seen, seenCurrent := None, service.state, service.state;
    if upload {
      var ok := service.Upload(p);
      if !ok { return Err(NotUploaded), sent, seen, seenCurrent; }
    }
    r, sent, seen, seenCurrent := ReadAndActivate(service, p, operationId, upload, current, rules, old(service.state));
  }

  /** One commit, of what was to be sent, and its receipt returned. */
  ghost predicate TakesEffect(
    before: seq<Commit>, after: seq<Commit>, p: Package, operationId: string, current: bool,
    r: Result<Receipt, Failure>)
  {
    && after == before + [Commit(RequestFor(before, p, operationId, current), p.provider)]
    && r.Ok? && ReceiptOf(after, operationId) == Some(r.value)
  }

  /** A request for the revisions as they are is committed, and then stands. */
  lemma RequestStands(s: State, p: Package, operationId: string, current: bool)
    requires ReceiptOf(s.commits, operationId) == None && p.digest in s.uploads && s.uploads[p.digest] == p
    ensures var a := RequestFor(s.commits, p, operationId, current);
      && MayCommit(s, a) && ReceiptOf(Committed(s, a).commits, operationId).Some?
      && Stands(ReceiptOf(Committed(s, a).commits, operationId).value, p, operationId, current, Committed(s, a))
  {
    var a := RequestFor(s.commits, p, operationId, current);
    var made := Committed(s, a).commits;
    assert made[|made| - 1] == Commit(a, p.provider) && made[..|made| - 1] == s.commits;
  }

  method ReadAndActivate(
    service: Service, p: Package, operationId: string, ghost upload: bool, current: bool, rules: Rules,
    ghost missed: State)
    returns (r: Result<Receipt, Failure>, ghost sent: Option<Sent>, ghost seen: State, ghost seenCurrent: State)
    requires Sound(service.state) && Later(missed, service.state) && ReceiptOf(missed.commits, operationId) == None
    requires upload ==> p.digest in service.state.uploads
    modifies service
    ensures Sound(service.state) && Later(old(service.state), service.state)
    ensures service.asked == old(service.asked) + Askings(sent)
    ensures sent.Some? ==> WellSent(sent.value, p, operationId, upload, current, missed)
    ensures sent.Some? ==> Later(sent.value.sentAt, service.state)
    ensures r.Ok? ==> Later(old(service.state), seen) && Later(seen, seenCurrent) && Later(seenCurrent, service.state)
    ensures r.Ok? ==> Confirmed(r.value, p, operationId, current, seen, seenCurrent)
    ensures service.quiet && Committable(old(service.state), p, operationId, rules) ==>
      TakesEffect(old(service.state).commits, service.state.commits, p, operationId, current, r)
  {
    sent, seen, seenCurrent := None, service.state, service.state;
    var problem, request, channelRead, currentRead := ReadRevisions(service, p, operationId, current, rules);
    if problem.Some? { return Err(problem.value), sent, seen, seenCurrent; }
    sent := Some(Sent(request, missed, channelRead, currentRead, service.state));
    r, seen, seenCurrent := ActivateAndCheck(service, p, current, request);
  }

  /** The package is there and the operation is new. */
  ghost predicate Committable(s: State, p: Package, operationId: string, rules: Rules) {
    && ReceiptOf(s.commits, operationId) == None && p.digest in s.uploads && s.uploads[p.digest] == p
    && Patterned(s.commits, rules)
  }

  method ActivateAndCheck(service: Service, p: Package, current: bool, request: Activation)
    returns (r: Result<Receipt, Failure>, ghost seen: State, ghost seenCurrent: State)
    requires Sound(service.state)
    modifies service
    ensures Sound(service.state) && Later(old(service.state), service.state)
    ensures service.asked == old(service.asked) + [Asking(request, old(service.state))]
    ensures r.Ok? ==> Later(old(service.state), seen) && Later(seen, seenCurrent) && Later(seenCurrent, service.state)
    ensures r.Ok? ==> Confirmed(r.value, p, request.operationId, current, seen, seenCurrent)
    ensures service.quiet && Commits(old(service.state), p, current, request) ==>
      TakesEffect(old(service.state).commits, service.state.commits, p, request.operationId, current, r)
  {
    seen, seenCurrent := service.state, service.state;
    ghost var ready := service.quiet && Commits(service.state, p, current, request);
    if ready { RequestStands(service.state, p, request.operationId, current); }
    var receipt := ActivateOrRecover(service, request);
    assert ready ==> receipt.Some? && Stands(receipt.value, p, request.operationId, current, service.state);
    if receipt == None { return Err(Unconfirmed), seen, seenCurrent; }
    r, seen, seenCurrent := Check(service, p, request.operationId, current, receipt.value);
  }

  predicate Commits(s: State, p: Package, current: bool, request: Activation) {
    && ReceiptOf(s.commits, request.operationId) == None && p.digest in s.uploads && s.uploads[p.digest] == p
    && request == RequestFor(s.commits, p, request.operationId, current)
  }

  /** The one activation, and after an error the one attempt to read its receipt. */
  method ActivateOrRecover(service: Service, request: Activation) returns (receipt: Option<Receipt>)
    requires Sound(service.state)
    modifies service
    ensures Sound(service.state) && Later(old(service.state), service.state)
    ensures service.asked == old(service.asked) + [Asking(request, old(service.state))]
    ensures receipt.Some? && Consistent(receipt.value, request.operationId) ==>
      ReceiptOf(service.state.commits, request.operationId) == receipt
    ensures service.quiet ==>
      && service.state
         == (if MayCommit(old(service.state), request) then Committed(old(service.state), request)
             else old(service.state))
      && receipt == ReceiptOf(service.state.commits, request.operationId)
  {
    var reply := service.Activate(request);
    if !reply.Answer? {
      reply := service.Receipt(request.operationId);
      if !reply.Answer? { return None; }
    }
    return Some(reply.value);
  }

  /** Reads the revisions that the activation will expect. */
  method ReadRevisions(service: Service, p: Package, operationId: string, current: bool, rules: Rules)
    returns (problem: Option<Failure>, request: Activation, ghost channelRead: State, ghost currentRead: State)
    requires Sound(service.state)
    modifies service`state
    ensures Sound(service.state) && Later(old(service.state), service.state)
    ensures request.operationId == operationId && request.digest == p.digest && request.contract == p.contract
    ensures problem == None ==>
      && Between(old(service.state), channelRead, service.state)
      && request.expected == Revision(channelRead.commits, Exact(p.provider, p.contract))
      && (request.expectedCurrent.Some? <==> current)
    ensures problem == None && current ==>
      && Between(channelRead, currentRead, service.state)
      && request.expectedCurrent.value == Revision(currentRead.commits, Current(p.provider))
    ensures service.quiet && Patterned(old(service.state).commits, rules) ==>
      && problem == None && service.state == old(service.state)
      && request == RequestFor(service.state.commits, p, operationId, current)
  {
    ghost var commits := service.state.commits;
    ChannelFits(commits, Exact(p.provider, p.contract), rules);
    ChannelFits(commits, Current(p.provider), rules);
    var expected := 0;
    request := Activation(p.digest, p.contract, expected, operationId, None);
    var reply := service.Catalog(Exact(p.provider, p.contract));
    channelRead, currentRead := service.state, service.state;
    ChannelIsLastMove(channelRead.commits, Exact(p.provider, p.contract));
    if reply.Answer? {
      var channel := reply.value.channel;
      if channel.provider != p.provider || channel.contract != p.contract || channel.revision < 1
         || !rules.validDigest(channel.digest) {
        return Some(ChannelMismatch), request, channelRead, currentRead;
      }
      expected := channel.revision;
    } else if reply.Failed? {
      return Some(ChannelNotRead), request, channelRead, currentRead;
    }
    request := request.(expected := expected);
    if current {
      var revision := 0;
      reply := service.Catalog(Current(p.provider));
      currentRead := service.state;
      ChannelIsLastMove(currentRead.commits, Current(p.provider));
      if reply.Answer? {
        var channel := reply.value.channel;
        if channel.provider != p.provider || !rules.validKey(channel.contract) || channel.revision < 1
           || !rules.validDigest(channel.digest) {
          return Some(ChannelMismatch), request, channelRead, currentRead;
        }
        revision := channel.revision;
      } else if reply.Failed? {
        return Some(ChannelNotRead), request, channelRead, currentRead;
      }
      request := request.(expectedCurrent := Some(revision));
    }
    return None, request, channelRead, currentRead;
  }

  // ---- what a confirmed publication means ----

  /** The operation took effect exactly once, and when its channels were read nobody had moved them since. */
  lemma ConfirmedIsCurrent(r: Receipt, p: Package, operationId: string, current: bool, seen: State, seenCurrent: State)
    returns (n: nat)
    requires Sound(seen) && Later(seen, seenCurrent) && Confirmed(r, p, operationId, current, seen, seenCurrent)
    ensures n < |seen.commits| && seen.commits[n].request.operationId == operationId
    ensures seen.commits[n].provider == p.provider && seen.commits[n].request.contract == p.contract
    ensures seen.commits[n].request.digest == p.digest && (seen.commits[n].request.expectedCurrent.Some? <==> current)
    ensures forall i | 0 <= i < |seen.commits| && seen.commits[i].request.operationId == operationId :: i == n
    ensures forall i | n < i < |seen.commits| :: !Moves(seen.commits[i], Exact(p.provider, p.contract))
    ensures current ==> forall i | n < i < |seenCurrent.commits| :: !Moves(seenCurrent.commits[i], Current(p.provider))
  {
    ReceiptMeansCommit(seen.commits, operationId);
    var found: nat :| CommitAt(seen.commits, operationId, found);
    n := found;
    LastMoved(seen.commits, n, Exact(p.provider, p.contract));
    if current {
      assert seenCurrent.commits[..n + 1] == seen.commits[..n + 1];
      LastMoved(seenCurrent.commits, n, Current(p.provider));
    }
  }

  lemma LastMoved(commits: seq<Commit>, n: nat, slot: Slot)
    requires n < |commits|
    requires ChannelOf(commits, slot).Some?
    requires ChannelOf(commits, slot).value.revision == Revision(commits[..n + 1], slot)
    ensures forall i | n < i < |commits| :: !Moves(commits[i], slot)
  {
    ChannelIsLastMove(commits, slot);
    RevisionGrows(commits[..n + 1], commits, slot);
  }

  /** Whenever an activation takes effect, at any time after it was sent and by whichever delivery, nobody has moved its
      channels between the reading of their revisions and its commit. */
  lemma NothingIsOverwritten(
    q: Sent, p: Package, operationId: string, upload: bool, current: bool, first: State, t: State)
    requires WellSent(q, p, operationId, upload, current, first) && Later(q.sentAt, t) && Sound(t)
    ensures NotOverwritten(q, p, current, t.commits)
  {
    forall n | 0 <= n < |t.commits| && t.commits[n] == Commit(q.request, p.provider)
      ensures StillBetween(q.channelRead.commits, t.commits, n, Exact(p.provider, p.contract))
      ensures current ==> StillBetween(q.currentRead.commits, t.commits, n, Current(p.provider))
    {
      NoMoveSince(q.channelRead.commits, t.commits, n, Exact(p.provider, p.contract));
      if current { NoMoveSince(q.currentRead.commits, t.commits, n, Current(p.provider)); }
    }
  }

  /** A commit that moves a channel from the revision read comes after the reading, and no other does in between. */
  lemma NoMoveSince(early: seq<Commit>, commits: seq<Commit>, n: nat, slot: Slot)
    requires early <= commits && n < |commits| && Moves(commits[n], slot)
    requires Revision(commits[..n], slot) == Revision(early, slot)
    ensures StillBetween(early, commits, n, slot)
  {
    if n < |early| {
      assert early[..n] == commits[..n];
      MoveCounts(early, n, slot);
      assert false;
    }
    RevisionGrows(early, commits[..n], slot);
    forall i | |early| <= i < n ensures !Moves(commits[i], slot) { assert commits[..n][i] == commits[i]; }
  }

  lemma MoveCounts(commits: seq<Commit>, n: nat, slot: Slot)
    requires n < |commits| && Moves(commits[n], slot)
    ensures Revision(commits[..n], slot) < Revision(commits, slot)
  {
    RevisionGrows(commits[..n], commits, slot);
  }
}
