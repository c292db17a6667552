/** integration/lifecycle.go: installation messages that may arrive late, repeated and out of order. */
module Lifecycle {
  import opened Basics

  const PROTOCOL := "aheron.installation-lifecycle.v1"
  const INSTALL := "install"
  const UNINSTALL := "uninstall"

  /** Public installation settings. */
  datatype Settings = Settings(
    integrationId: string, projectId: string, installationId: string, clientId: string, keyId: string,
    accessVersion: int, integrationAccessVersion: int, grantVersion: int, policyRevision: int, policyDigest: string)

  datatype Request = Request(
    protocol: string, eventId: string, integrationId: string, projectId: string, installationId: string,
    sequence: int, action: string, oauth: Option<Settings>)

  datatype State = State(
    integrationId: string, projectId: string, installationId: string, sequence: int, eventId: string, action: string,
    requestDigest: string)

  const UNINITIALIZED := State("", "", "", 0, "", "", "")

  datatype Outcome = Applied | Duplicate | Superseded

  datatype Receipt = Receipt(
    protocol: string, eventId: string, integrationId: string, projectId: string, installationId: string, sequence: int,
    requestDigest: string, outcome: Outcome, observedSequence: int)

  datatype Decision = Decision(state: State, receipt: Receipt)

  datatype Error = Invalid | Conflict | BadState

  /** What is left open: the pattern of an identifier, which settings are valid by themselves, and the digest with its
      pattern. */
  datatype Rules = Rules(
    validId: string -> bool, validSettings: Settings -> bool, hash: Request -> string, validDigest: string -> bool)

  /** The digest is taken to tell all messages apart, and the empty string is no identifier. */
  ghost predicate Sound(rules: Rules) {
    && (forall a, b :: rules.hash(a) == rules.hash(b) ==> a == b)
    && (forall a :: rules.validDigest(rules.hash(a))) && !rules.validId("")
  }

  predicate ValidRequest(r: Request, rules: Rules) {
    && r.protocol == PROTOCOL && rules.validId(r.eventId)
    && rules.validId(r.integrationId) && rules.validId(r.projectId) && rules.validId(r.installationId)
    && r.sequence >= 1 && (r.action == INSTALL || r.action == UNINSTALL)
    && (r.oauth.Some? ==>
          && r.action == INSTALL && rules.validSettings(r.oauth.value) && r.oauth.value.integrationId == r.integrationId
          && r.oauth.value.projectId == r.projectId && r.oauth.value.installationId == r.installationId)
  }

  function Digest(r: Request, rules: Rules): Option<string> {
    if ValidRequest(r, rules) then Some(rules.hash(r)) else None
  }

  predicate ValidState(s: State, rules: Rules) {
    s == UNINITIALIZED ||
    (&& s.sequence >= 1
     && rules.validId(s.integrationId) && rules.validId(s.projectId) && rules.validId(s.installationId)
     && rules.validId(s.eventId) && (s.action == INSTALL || s.action == UNINSTALL)
     && rules.validDigest(s.requestDigest))
  }

  function ReceiptFor(r: Request, digest: string, outcome: Outcome, observed: int): Receipt {
    Receipt(PROTOCOL, r.eventId, r.integrationId, r.projectId, r.installationId, r.sequence, digest, outcome, observed)
  }

  /** The state after applying a request. */
  function StateOf(r: Request, rules: Rules): State {
    State(r.integrationId, r.projectId, r.installationId, r.sequence, r.eventId, r.action, rules.hash(r))
  }

  function DecideLifecycle(current: State, r: Request, rules: Rules): Result<Decision, Error> {
    match Digest(r, rules)
    case None => Err(Invalid)
    case Some(digest) =>
      if !ValidState(current, rules) then Err(BadState)
      else if current.sequence != 0 && (current.projectId != r.projectId || current.integrationId != r.integrationId)
      then Err(Conflict)
      else if r.sequence < current.sequence
      then Ok(Decision(current, ReceiptFor(r, digest, Superseded, current.sequence)))
      else if r.sequence == current.sequence then
        if digest != current.requestDigest || r.eventId != current.eventId || r.installationId != current.installationId
           || r.action != current.action then Err(Conflict)
        else Ok(Decision(current, ReceiptFor(r, digest, Duplicate, current.sequence)))
      else if current.eventId == r.eventId then Err(Conflict)
      else if current.installationId == r.installationId && current.action == UNINSTALL && r.action == INSTALL
      then Err(Conflict)
      else Ok(Decision(StateOf(r, rules), ReceiptFor(r, digest, Applied, r.sequence)))
  }

  /** LifecycleReceipt.ValidateFor. */
  predicate ValidFor(receipt: Receipt, r: Request, rules: Rules) {
    && Digest(r, rules).Some?
    && receipt == ReceiptFor(r, Digest(r, rules).value, receipt.outcome, receipt.observedSequence)
    && (if receipt.outcome == Superseded then receipt.observedSequence > r.sequence
        else receipt.observedSequence == r.sequence)
  }

  /** Whatever the state, an accepted request gets a receipt that is valid for it and for no other, the watermark does
      not fall, and the state changes only when the request is applied. */
  lemma DecisionIsConsistent(current: State, r: Request, rules: Rules)
    requires Sound(rules) && DecideLifecycle(current, r, rules).Ok?
    ensures var d := DecideLifecycle(current, r, rules).value;
      && ValidFor(d.receipt, r, rules) && (forall other :: ValidFor(d.receipt, other, rules) ==> other == r)
      && ValidState(d.state, rules) && d.state.sequence >= current.sequence
      && d.receipt.observedSequence == d.state.sequence
      && (d.state != current <==> d.receipt.outcome == Applied)
      && (d.receipt.outcome == Applied ==> d.state == StateOf(r, rules) && r.sequence > current.sequence)
  {
  }

  /** A first message is accepted exactly when it names the protocol, everybody concerned, a sequence and one of the two
      actions, and carries settings, if any, for an installation of its own. */
  lemma FirstMessage(r: Request, rules: Rules)
    requires Sound(rules)
    ensures DecideLifecycle(UNINITIALIZED, r, rules).Ok? <==>
      && r.protocol == "aheron.installation-lifecycle.v1" && r.sequence > 0
      && (forall id | id in [r.eventId, r.integrationId, r.projectId, r.installationId] :: rules.validId(id))
      && match r.oauth
         case None => r.action in {"install", "uninstall"}
         case Some(own) =>
           && r.action == "install" && rules.validSettings(own)
           && (own.integrationId, own.projectId, own.installationId)
              == (r.integrationId, r.projectId, r.installationId)
  {
    var ids := [r.eventId, r.integrationId, r.projectId, r.installationId];
    assert ids[0] in ids && ids[1] in ids && ids[2] in ids && ids[3] in ids;
  }

  // ---- histories ----

  /** One message per sequence and per event, all of one stream, and no installation installed after it was
      uninstalled. */
  ghost predicate IsStream(history: set<Request>, rules: Rules) {
    && (forall r | r in history :: ValidRequest(r, rules))
    && (forall a, b | a in history && b in history :: Agree(a, b))
  }

  predicate Agree(a: Request, b: Request) {
    && a.projectId == b.projectId && a.integrationId == b.integrationId
    && (a.sequence == b.sequence ==> a == b) && (a.eventId == b.eventId ==> a == b)
    && (a.sequence < b.sequence && a.installationId == b.installationId && a.action == UNINSTALL ==>
          b.action != INSTALL)
  }

  /** The state after a list of deliveries, or none where one of them is refused. */
  function Delivered(s: State, deliveries: seq<Request>, rules: Rules): Option<State>
    decreases |deliveries|
  {
    if deliveries == [] then Some(s)
    else match DecideLifecycle(s, deliveries[0], rules)
      case Err(_) => None
      case Ok(d) => Delivered(d.state, deliveries[1..], rules)
  }

  predicate Over(deliveries: seq<Request>, history: set<Request>) { forall r | r in deliveries :: r in history }

  lemma NextDelivery(h: Request, r: Request, rules: Rules)
    requires Sound(rules) && ValidRequest(h, rules) && ValidRequest(r, rules)
    ensures DecideLifecycle(UNINITIALIZED, r, rules).Ok?
    ensures DecideLifecycle(UNINITIALIZED, r, rules).value.state == StateOf(r, rules)
    ensures Agree(h, r) && Agree(r, h) ==>
      var d := DecideLifecycle(StateOf(h, rules), r, rules);
      d.Ok? && d.value.state == StateOf(if r.sequence > h.sequence then r else h, rules)
  {
  }

  ghost predicate IsHighest(h: Request, deliveries: seq<Request>) {
    h in deliveries && forall r | r in deliveries :: r.sequence <= h.sequence
  }

  /** From the state of `h` on, the deliveries end in the state of the highest of `h` and them. */
  lemma {:induction false} EndsAtHighest(h: Request, deliveries: seq<Request>, history: set<Request>, rules: Rules)
    returns (top: Request)
    requires Sound(rules) && IsStream(history, rules) && h in history && Over(deliveries, history)
    ensures IsHighest(top, [h] + deliveries)
    ensures Delivered(StateOf(h, rules), deliveries, rules) == Some(StateOf(top, rules))
    decreases |deliveries|
  {
    if deliveries == [] { return h; }
    var r, rest := deliveries[0], deliveries[1..];
    assert r in deliveries && Agree(h, r) && Agree(r, h);
    NextDelivery(h, r, rules);
    top := EndsAtHighest(if r.sequence > h.sequence then r else h, rest, history, rules);
    assert deliveries == [r] + rest;
  }

  /** Every delivery order of a stream, with any repetition, is accepted and ends in the state of the highest sequence
      delivered. */
  lemma StreamConverges(history: set<Request>, deliveries: seq<Request>, top: Request, rules: Rules)
    requires Sound(rules) && IsStream(history, rules) && Over(deliveries, history) && IsHighest(top, deliveries)
    ensures Delivered(UNINITIALIZED, deliveries, rules) == Some(StateOf(top, rules))
  {
    var first, rest := deliveries[0], deliveries[1..];
    assert deliveries == [first] + rest;
    assert first in deliveries;
    NextDelivery(first, first, rules);
    var highest := EndsAtHighest(first, rest, history, rules);
    assert highest in deliveries && Agree(highest, top);
  }

  ghost predicate AcceptedInEveryOrder(history: set<Request>, rules: Rules) {
    forall deliveries | Over(deliveries, history) :: Delivered(UNINITIALIZED, deliveries, rules).Some?
  }

  lemma TwoDeliveries(a: Request, b: Request, rules: Rules)
    requires Sound(rules)
    requires Delivered(UNINITIALIZED, [a, b], rules).Some? && Delivered(UNINITIALIZED, [b, a], rules).Some?
    ensures ValidRequest(a, rules) && ValidRequest(b, rules) && Agree(a, b)
  {
    assert [a, b][1..] == [b] && [b][1..] == [] && [b, a][1..] == [a] && [a][1..] == [];
  }

  /** The conditions on a history are exactly those under which no delivery order is ever refused. */
  lemma ConvergesIffStream(history: set<Request>, rules: Rules)
    requires Sound(rules)
    ensures AcceptedInEveryOrder(history, rules) <==> IsStream(history, rules)
  {
    if IsStream(history, rules) {
      forall deliveries | Over(deliveries, history) ensures Delivered(UNINITIALIZED, deliveries, rules).Some? {
        if deliveries != [] {
          var first, rest := deliveries[0], deliveries[1..];
          assert first in deliveries && forall r | r in rest :: r in deliveries;
          NextDelivery(first, first, rules);
          var _ := EndsAtHighest(first, rest, history, rules);
        }
      }
    }
    if AcceptedInEveryOrder(history, rules) {
      forall a, b | a in history && b in history ensures ValidRequest(a, rules) && Agree(a, b) {
        assert Over([a, b], history) && Over([b, a], history);
        TwoDeliveries(a, b, rules);
      }
    }
  }

  // ---- stored settings ----

  function StoredRequest(s: State, settings: Settings): Request {
    Request(PROTOCOL, s.eventId, s.integrationId, s.projectId, s.installationId, s.sequence, s.action, Some(settings))
  }

  /** ValidateLifecycleOAuth. */
  predicate ValidOAuth(s: State, settings: Settings, rules: Rules) {
    && ValidState(s, rules) && s.sequence != 0 && s.action == INSTALL
    && Digest(StoredRequest(s, settings), rules) == Some(s.requestDigest)
  }

  /** After any deliveries of a stream, stored settings pass exactly when they are the ones carried by the highest
      install delivered: not those of an earlier install, nor any after an uninstall. */
  lemma OnlyAppliedSettingsPass(
    history: set<Request>, deliveries: seq<Request>, top: Request, settings: Settings, rules: Rules)
    requires Sound(rules) && IsStream(history, rules) && Over(deliveries, history) && IsHighest(top, deliveries)
    ensures var s := Delivered(UNINITIALIZED, deliveries, rules);
      s.Some? && (ValidOAuth(s.value, settings, rules) <==> top.action == INSTALL && top.oauth == Some(settings))
  {
    StreamConverges(history, deliveries, top, rules);
    assert top in history && ValidRequest(top, rules);
    if top.oauth == Some(settings) { assert StoredRequest(StateOf(top, rules), settings) == top; }
  }
}
