/**
 Device authorization (RFC 8628): a store of grants reached by two codes.

 A grant is copied on write, so it is a value here, with one function a
 transition. The store keeps grants under the hexadecimal digest of their device
 code and a second map from the digest of the user code to the first. A log of
 operations and replies, kept for the specification, says what a run promised.
 */
module Device {
  import opened Foundation
  import Encoding

  /** What a session asserts about the person who approves. */
  datatype Claims = Claims(identity: string, provider: string, assurance: nat, factors: nat, phishingResistant: bool, authenticatedAt: int)

  datatype GrantStatus = Pending | Approved | Denied | Consumed

  datatype Grant = Grant(
    deviceCode: Digest, userCode: Digest, clientId: string, scopes: seq<string>, resource: Option<string>,
    issuedAt: int, expiresAt: int, pollInterval: int, status: GrantStatus, claims: Option<Claims>, lastPollAt: Option<int>)

  const SLOW_DOWN := 5000

  /** A grant as its factory makes it. */
  predicate Fresh(g: Grant) {
    && g.clientId != "" && g.expiresAt > g.issuedAt && g.pollInterval > 0
    && g.status == Pending && g.claims.None? && g.lastPollAt.None?
  }

  /** Everything about a grant that no transition changes. */
  predicate SameGrant(a: Grant, b: Grant) {
    a.deviceCode == b.deviceCode && a.userCode == b.userCode && a.clientId == b.clientId && a.scopes == b.scopes
    && a.resource == b.resource && a.issuedAt == b.issuedAt && a.expiresAt == b.expiresAt
  }

  predicate Expired(g: Grant, now: int) { now >= g.expiresAt }

  // ----- Transitions of a grant: None is a failed precondition -----

  function Approve(g: Grant, claims: Claims, now: int): Option<Grant> {
    if g.status != Pending || Expired(g, now) then None else Some(g.(status := Approved, claims := Some(claims)))
  }

  function Deny(g: Grant, now: int): Option<Grant> {
    if g.status != Pending || Expired(g, now) then None else Some(g.(status := Denied))
  }

  function MarkPolled(g: Grant, now: int): Option<Grant> {
    if Expired(g, now) || g.status == Consumed then None else Some(g.(lastPollAt := Some(now)))
  }

  function SlowDown(g: Grant, now: int): Option<Grant> {
    if Expired(g, now) || g.status == Consumed then None
    else Some(g.(pollInterval := g.pollInterval + SLOW_DOWN, lastPollAt := Some(now)))
  }

  function Consume(g: Grant, now: int): Option<Grant> {
    if Expired(g, now) || g.status != Approved then None else Some(g.(status := Consumed, lastPollAt := Some(now)))
  }

  // ----- Operations of the store -----

  datatype Store = Store(byDevice: map<string, Grant>, userToDevice: map<string, string>)

  datatype Op =
    | Add(grant: Grant)
    | Find(user: Digest, at: int)
    | ApproveOp(user: Digest, session: Claims, at: int)
    | DenyOp(user: Digest, at: int)
    | Poll(device: Digest, client: string, at: int)

  datatype Reply =
    | Accepted
    | Found(grant: Grant)
    | IsPending(retryAfter: int)
    | SlowedDown(retryAfter: int)
    | IsApproved(grant: Grant, retryAfter: int)
    | IsDenied(retryAfter: int)
    | IsExpired(retryAfter: int)
    | AlreadyExists | NotFound | FailedPrecondition | AuthenticationFailed

  function Key(code: Digest): string {
    Encoding.HexText(code)
  }

  /** The grant a user code leads to. */
  function ByUser(s: Store, user: Digest): Option<Grant> {
    if Key(user) in s.userToDevice && s.userToDevice[Key(user)] in s.byDevice
    then Some(s.byDevice[s.userToDevice[Key(user)]]) else None
  }

  /** The reply to a poll of a grant, and the grant to store if it changed. */
  function Polled(g: Grant, client: string, now: int): (Option<Grant>, Reply) {
    if g.clientId != client then (None, AuthenticationFailed)
    else if Expired(g, now) then (None, IsExpired(g.pollInterval))
    else if g.status == Denied then (None, IsDenied(g.pollInterval))
    else if g.status == Consumed then (None, AuthenticationFailed)
    else if g.lastPollAt.Some? && now < g.lastPollAt.value + g.pollInterval then
      var slowed := SlowDown(g, now);
      if slowed.None? then (None, FailedPrecondition) else (slowed, SlowedDown(slowed.value.pollInterval))
    else if g.status == Approved then
      var consumed := Consume(g, now);
      if consumed.None? then (None, FailedPrecondition) else (consumed, IsApproved(consumed.value, consumed.value.pollInterval))
    else
      var polled := MarkPolled(g, now);
      if polled.None? then (None, FailedPrecondition) else (polled, IsPending(polled.value.pollInterval))
  }

  function With(s: Store, g: Grant): Store {
    s.(byDevice := s.byDevice[Key(g.deviceCode) := g])
  }

  function Step(s: Store, op: Op): (Store, Reply) {
    match op
    case Add(grant) =>
      if Key(grant.deviceCode) in s.byDevice || Key(grant.userCode) in s.userToDevice then (s, AlreadyExists)
      else (With(s, grant).(userToDevice := s.userToDevice[Key(grant.userCode) := Key(grant.deviceCode)]), Accepted)
    case Find(user, now) =>
      var g := ByUser(s, user);
      if g.None? || Expired(g.value, now) || g.value.status != Pending then (s, NotFound) else (s, Found(g.value))
    case ApproveOp(user, session, now) =>
      var g := ByUser(s, user);
      if g.None? then (s, NotFound)
      else
        var approved := Approve(g.value, session, now);
        if approved.None? then (s, FailedPrecondition) else (With(s, approved.value), Found(approved.value))
    case DenyOp(user, now) =>
      var g := ByUser(s, user);
      if g.None? then (s, NotFound)
      else
        var denied := Deny(g.value, now);
        if denied.None? then (s, FailedPrecondition) else (With(s, denied.value), Accepted)
    case Poll(device, client, now) =>
      if Key(device) !in s.byDevice then (s, NotFound)
      else
        var (next, reply) := Polled(s.byDevice[Key(device)], client, now);
        (if next.Some? then With(s, next.value) else s, reply)
  }

  /** The two maps mirror each other. */
  predicate Consistent(s: Store) {
    && (forall k <- s.byDevice ::
        k == Key(s.byDevice[k].deviceCode) && Key(s.byDevice[k].userCode) in s.userToDevice
        && s.userToDevice[Key(s.byDevice[k].userCode)] == k)
    && (forall u <- s.userToDevice ::
        s.userToDevice[u] in s.byDevice && Key(s.byDevice[s.userToDevice[u]].userCode) == u)
  }

  // ----- Runs and their log -----

  datatype Event = Event(op: Op, reply: Reply)

  /** When an operation reads the clock; for an added grant, when it was issued. */
  function Time(op: Op): int {
    if op.Add? then op.grant.issuedAt else op.at
  }

  function Final(ops: seq<Op>): Store {
    if ops == [] then Store(map[], map[]) else Step(Final(ops[..|ops| - 1]), ops[|ops| - 1]).0
  }

  function Log(ops: seq<Op>): (log: seq<Event>)
    ensures |log| == |ops|
  {
    if ops == [] then []
    else
      var init, op := ops[..|ops| - 1], ops[|ops| - 1];
      Log(init) + [Event(op, Step(Final(init), op).1)]
  }

  /** Operations read a clock that never goes back, and grants are added as their factory makes them. */
  predicate WellTimed(ops: seq<Op>) {
    && (forall i, j :: 0 <= i < j < |ops| && !ops[j].Add? ==> Time(ops[i]) <= Time(ops[j]))
    && (forall i :: 0 <= i < |ops| && ops[i].Add? ==> Fresh(ops[i].grant))
  }

  predicate PollOf(e: Event, k: string) { e.op.Poll? && Key(e.op.device) == k }

  /** How often a device code was answered with approval. */
  function Approvals(log: seq<Event>, k: string): nat {
    if log == [] then 0
    else Approvals(log[..|log| - 1], k) + (if PollOf(log[|log| - 1], k) && log[|log| - 1].reply.IsApproved? then 1 else 0)
  }

  /** How often it was told to slow down. */
  function SlowDowns(log: seq<Event>, k: string): nat {
    if log == [] then 0
    else SlowDowns(log[..|log| - 1], k) + (if PollOf(log[|log| - 1], k) && log[|log| - 1].reply.SlowedDown? then 1 else 0)
  }

  /** An instant of polling and the interval then in force. */
  datatype Tick = Tick(at: int, interval: int)

  /** The polls of a device code that were neither refused nor slowed down. */
  function Unthrottled(log: seq<Event>, k: string): seq<Tick> {
    if log == [] then []
    else
      var e := log[|log| - 1];
      Unthrottled(log[..|log| - 1], k)
      + (if PollOf(e, k) && (e.reply.IsPending? || e.reply.IsApproved?) then [Tick(e.op.at, e.reply.retryAfter)] else [])
  }

  /** Polls within the life of a grant, each a whole interval after every earlier one. */
  predicate Spaced(ticks: seq<Tick>, initial: int, g: Grant) {
    && (forall i :: 0 <= i < |ticks| ==> g.issuedAt <= ticks[i].at < g.expiresAt && initial <= ticks[i].interval)
    && (forall i, j :: 0 <= i < j < |ticks| ==> ticks[j].at - ticks[i].at >= ticks[j].interval)
  }

  /** The grant was added with this interval. */
  ghost predicate Origin(log: seq<Event>, g: Grant, initial: int) {
    exists h :: 0 <= h < |log| && log[h].op.Add? && log[h].reply == Accepted
      && Fresh(log[h].op.grant) && SameGrant(log[h].op.grant, g) && log[h].op.grant.pollInterval == initial
  }

  /** A session approved the grant's user code, with these claims, before the grant expired. */
  ghost predicate ApprovedBy(log: seq<Event>, g: Grant, claims: Claims) {
    exists i :: 0 <= i < |log| && log[i].op.ApproveOp? && log[i].op.user == g.userCode && log[i].op.session == claims
      && log[i].reply.Found? && log[i].op.at < g.expiresAt
  }

  /** The interval a grant was added with. */
  function Initial(log: seq<Event>, k: string, g: Grant): int {
    g.pollInterval - SLOW_DOWN * SlowDowns(log, k)
  }

  ghost predicate ClaimsOk(log: seq<Event>, k: string, g: Grant) {
    && (g.claims.Some? <==> g.status == Approved || g.status == Consumed)
    && (g.claims.Some? ==> ApprovedBy(log, g, g.claims.value))
    && Approvals(log, k) == (if g.status == Consumed then 1 else 0)
  }

  /** The last poll of a grant is its latest, and its unthrottled polls were spaced. */
  predicate Paced(ticks: seq<Tick>, initial: int, g: Grant, now: int) {
    && g.issuedAt <= now
    && (g.lastPollAt.Some? ==> g.issuedAt <= g.lastPollAt.value <= now)
    && Spaced(ticks, initial, g)
    && (forall i :: 0 <= i < |ticks| ==> g.lastPollAt.Some? && ticks[i].at <= g.lastPollAt.value)
  }

  ghost predicate PollsOk(log: seq<Event>, k: string, g: Grant, now: int) {
    Paced(Unthrottled(log, k), Initial(log, k, g), g, now)
  }

  /** What the log says about one stored grant. */
  ghost predicate GrantOk(log: seq<Event>, k: string, g: Grant, now: int) {
    && Initial(log, k, g) > 0 && Origin(log, g, Initial(log, k, g))
    && ClaimsOk(log, k, g) && PollsOk(log, k, g, now)
  }

  ghost predicate Silent(log: seq<Event>, k: string) {
    Approvals(log, k) == 0 && SlowDowns(log, k) == 0 && Unthrottled(log, k) == []
  }

  ghost predicate Inv(s: Store, log: seq<Event>, now: int) {
    && Consistent(s)
    && (forall k <- s.byDevice :: GrantOk(log, k, s.byDevice[k], now))
    && (forall k: string :: k !in s.byDevice ==> Silent(log, k))
  }

  lemma {:induction false} KeyInjective(a: Digest, b: Digest)
    requires Key(a) == Key(b)
    ensures a == b
  {
    Encoding.HexInjective(a, b);
  }

  /** Every operation keeps the two maps mirroring each other. */
  lemma {:induction false} StepConsistent(s: Store, op: Op)
    requires Consistent(s)
    ensures Consistent(Step(s, op).0)
  {
    hide Key;
  }

  lemma {:induction false} LogSnoc(log: seq<Event>, e: Event, k: string)
    ensures Approvals(log + [e], k) == Approvals(log, k) + (if PollOf(e, k) && e.reply.IsApproved? then 1 else 0)
    ensures SlowDowns(log + [e], k) == SlowDowns(log, k) + (if PollOf(e, k) && e.reply.SlowedDown? then 1 else 0)
    ensures Unthrottled(log + [e], k) == Unthrottled(log, k)
      + (if PollOf(e, k) && (e.reply.IsPending? || e.reply.IsApproved?) then [Tick(e.op.at, e.reply.retryAfter)] else [])
  {
    assert (log + [e])[..|log|] == log;
  }

  lemma {:induction false} OriginKept(log: seq<Event>, e: Event, g: Grant, g': Grant, initial: int)
    requires Origin(log, g, initial) && SameGrant(g, g')
    ensures Origin(log + [e], g', initial)
  {
    var h :| 0 <= h < |log| && log[h].op.Add? && log[h].reply == Accepted
      && Fresh(log[h].op.grant) && SameGrant(log[h].op.grant, g) && log[h].op.grant.pollInterval == initial;
    assert (log + [e])[h] == log[h];
  }

  lemma {:induction false} ApprovedByKept(log: seq<Event>, e: Event, g: Grant, g': Grant, claims: Claims)
    requires ApprovedBy(log, g, claims) && SameGrant(g, g')
    ensures ApprovedBy(log + [e], g', claims)
  {
    var i :| 0 <= i < |log| && log[i].op.ApproveOp? && log[i].op.user == g.userCode && log[i].op.session == claims
      && log[i].reply.Found? && log[i].op.at < g.expiresAt;
    assert (log + [e])[i] == log[i];
  }

  predicate Moves(e: Event, k: string) {
    PollOf(e, k) && (e.reply.IsApproved? || e.reply.SlowedDown? || e.reply.IsPending?)
  }

  lemma {:induction false} PacedLater(ticks: seq<Tick>, initial: int, g: Grant, g': Grant, now: int, later: int)
    requires Paced(ticks, initial, g, now) && now <= later && SameGrant(g, g') && g.lastPollAt == g'.lastPollAt
    ensures Paced(ticks, initial, g', later)
  {
  }

  /** An event that is not a poll leaves the account of a grant as it was, whatever became of its status. */
  lemma {:induction false} PollsKept(log: seq<Event>, e: Event, k: string, g: Grant, g': Grant, now: int, later: int)
    requires PollsOk(log, k, g, now) && now <= later && !Moves(e, k)
    requires SameGrant(g, g') && g.pollInterval == g'.pollInterval && g.lastPollAt == g'.lastPollAt
    ensures PollsOk(log + [e], k, g', later) && Initial(log + [e], k, g') == Initial(log, k, g)
  {
    hide Key, Paced, Unthrottled, SlowDowns, Approvals;
    LogSnoc(log, e, k);
    assert Unthrottled(log + [e], k) == Unthrottled(log, k);
    PacedLater(Unthrottled(log, k), Initial(log, k, g), g, g', now, later);
  }

  lemma {:induction false} GrantUntouched(log: seq<Event>, e: Event, k: string, g: Grant, now: int, later: int)
    requires GrantOk(log, k, g, now) && now <= later && !Moves(e, k)
    ensures GrantOk(log + [e], k, g, later)
  {
    hide Key, Fresh, PollsOk, Origin, ApprovedBy;
    LogSnoc(log, e, k);
    PollsKept(log, e, k, g, g, now, later);
    OriginKept(log, e, g, g, Initial(log, k, g));
    if g.claims.Some? {
      ApprovedByKept(log, e, g, g, g.claims.value);
    }
  }

  lemma {:induction false} SpacedSnoc(ticks: seq<Tick>, initial: int, g: Grant, t: Tick)
    requires Spaced(ticks, initial, g) && g.issuedAt <= t.at < g.expiresAt && initial <= t.interval
    requires forall i :: 0 <= i < |ticks| ==> ticks[i].at + t.interval <= t.at
    ensures Spaced(ticks + [t], initial, g)
  {
  }

  lemma {:induction false} PacedMoved(ticks: seq<Tick>, initial: int, g: Grant, now: int, client: string, at: int)
    requires Paced(ticks, initial, g, now) && initial <= g.pollInterval && now <= at
    requires Polled(g, client, at).0.Some?
    ensures var (next, reply) := Polled(g, client, at);
      Paced(ticks + (if reply.SlowedDown? then [] else [Tick(at, g.pollInterval)]), initial, next.value, at)
  {
    var (next, reply) := Polled(g, client, at);
    assert Spaced(ticks, initial, next.value);
    if reply.SlowedDown? {
      assert ticks + [] == ticks;
    } else {
      SpacedSnoc(ticks, initial, next.value, Tick(at, g.pollInterval));
    }
  }

  lemma {:induction false} PollsMoved(log: seq<Event>, k: string, g: Grant, now: int, op: Op)
    requires PollsOk(log, k, g, now) && op.Poll? && Key(op.device) == k && now <= op.at
    requires Polled(g, op.client, op.at).0.Some?
    ensures var (next, reply) := Polled(g, op.client, op.at);
      PollsOk(log + [Event(op, reply)], k, next.value, op.at)
      && Initial(log + [Event(op, reply)], k, next.value) == Initial(log, k, g)
  {
    hide Key, Paced, Unthrottled, SlowDowns, Approvals;
    var (next, reply) := Polled(g, op.client, op.at);
    LogSnoc(log, Event(op, reply), k);
    PacedMoved(Unthrottled(log, k), Initial(log, k, g), g, now, op.client, op.at);
  }

  lemma {:induction false} ClaimsMoved(log: seq<Event>, k: string, g: Grant, op: Op)
    requires ClaimsOk(log, k, g) && op.Poll? && Key(op.device) == k
    requires Polled(g, op.client, op.at).0.Some?
    ensures ClaimsOk(log + [Event(op, Polled(g, op.client, op.at).1)], k, Polled(g, op.client, op.at).0.value)
  {
    hide Key, ApprovedBy;
    var (next, reply) := Polled(g, op.client, op.at);
    LogSnoc(log, Event(op, reply), k);
    if g.claims.Some? {
      ApprovedByKept(log, Event(op, reply), g, next.value, g.claims.value);
    }
  }

  lemma {:induction false} GrantPolled(log: seq<Event>, k: string, g: Grant, now: int, op: Op)
    requires GrantOk(log, k, g, now) && op.Poll? && Key(op.device) == k && now <= op.at
    requires Polled(g, op.client, op.at).0.Some?
    ensures GrantOk(log + [Event(op, Polled(g, op.client, op.at).1)], k, Polled(g, op.client, op.at).0.value, op.at)
  {
    hide Key, Fresh, Origin, ClaimsOk, PollsOk, Initial;
    var (next, reply) := Polled(g, op.client, op.at);
    PollsMoved(log, k, g, now, op);
    ClaimsMoved(log, k, g, op);
    OriginKept(log, Event(op, reply), g, next.value, Initial(log, k, g));
  }

  lemma {:induction false} GrantApproved(log: seq<Event>, k: string, g: Grant, now: int, op: Op)
    requires GrantOk(log, k, g, now) && op.ApproveOp? && op.user == g.userCode && now <= op.at
    requires Approve(g, op.session, op.at).Some?
    ensures GrantOk(log + [Event(op, Found(Approve(g, op.session, op.at).value))], k, Approve(g, op.session, op.at).value, op.at)
  {
    hide Key, Fresh, Origin, PollsOk, Initial;
    var g' := Approve(g, op.session, op.at).value;
    var e := Event(op, Found(g'));
    LogSnoc(log, e, k);
    PollsKept(log, e, k, g, g', now, op.at);
    OriginKept(log, e, g, g', Initial(log, k, g));
    assert (log + [e])[|log|] == e;
  }

  lemma {:induction false} GrantDenied(log: seq<Event>, k: string, g: Grant, now: int, op: Op)
    requires GrantOk(log, k, g, now) && op.DenyOp? && now <= op.at
    requires Deny(g, op.at).Some?
    ensures GrantOk(log + [Event(op, Accepted)], k, Deny(g, op.at).value, op.at)
  {
    hide Key, Fresh, Origin, ApprovedBy, PollsOk, Initial;
    var g' := Deny(g, op.at).value;
    var e := Event(op, Accepted);
    LogSnoc(log, e, k);
    PollsKept(log, e, k, g, g', now, op.at);
    OriginKept(log, e, g, g', Initial(log, k, g));
  }

  lemma {:induction false} GrantAdded(log: seq<Event>, k: string, op: Op, now: int)
    requires op.Add? && Fresh(op.grant) && op.grant.issuedAt <= now && Silent(log, k)
    ensures GrantOk(log + [Event(op, Accepted)], k, op.grant, now)
  {
    hide Key, ApprovedBy;
    var e := Event(op, Accepted);
    LogSnoc(log, e, k);
    assert (log + [e])[|log|] == e;
  }

  /** What a step does to the grant stored under one key. */
  lemma {:induction false} StepAt(s: Store, op: Op, k: string)
    requires Consistent(s) && k in Step(s, op).0.byDevice
    ensures k !in s.byDevice ==> op.Add? && Step(s, op) == (Step(s, op).0, Accepted) && Step(s, op).0.byDevice[k] == op.grant
    ensures k in s.byDevice ==>
      var (s', reply) := Step(s, op);
      var g, g' := s.byDevice[k], s'.byDevice[k];
      || (g' == g && !Moves(Event(op, reply), k))
      || (op.ApproveOp? && op.user == g.userCode && Approve(g, op.session, op.at) == Some(g') && reply == Found(g'))
      || (op.DenyOp? && Deny(g, op.at) == Some(g') && reply == Accepted)
      || (op.Poll? && Key(op.device) == k && Polled(g, op.client, op.at) == (Some(g'), reply))
  {
    hide Key;
    if op.ApproveOp? && k in s.byDevice && Key(op.user) == Key(s.byDevice[k].userCode) {
      KeyInjective(op.user, s.byDevice[k].userCode);
    }
  }

  lemma {:induction false} StepKeepsGrant(s: Store, log: seq<Event>, before: int, op: Op, now: int, k: string)
    requires Inv(s, log, before) && (!op.Add? ==> before <= op.at) && before <= now && Time(op) <= now
    requires op.Add? ==> Fresh(op.grant)
    requires k in Step(s, op).0.byDevice
    ensures GrantOk(log + [Event(op, Step(s, op).1)], k, Step(s, op).0.byDevice[k], now)
  {
    hide Key, GrantOk, Fresh, Step, Approve, Deny, Polled, Silent, Moves;
    var (s', reply) := Step(s, op);
    StepAt(s, op, k);
    if k !in s.byDevice {
      GrantAdded(log, k, op, now);
    } else {
      var g, e := s.byDevice[k], Event(op, reply);
      if s'.byDevice[k] == g && !Moves(e, k) {
        GrantUntouched(log, e, k, g, before, now);
      } else {
        if op.ApproveOp? {
          GrantApproved(log, k, g, before, op);
        } else if op.DenyOp? {
          GrantDenied(log, k, g, before, op);
        } else {
          GrantPolled(log, k, g, before, op);
        }
        Later(log + [e], k, s'.byDevice[k], op.at, now);
      }
    }
  }

  lemma {:induction false} Later(log: seq<Event>, k: string, g: Grant, now: int, later: int)
    requires GrantOk(log, k, g, now) && now <= later
    ensures GrantOk(log, k, g, later)
  {
    hide Origin, ClaimsOk, Paced;
    PacedLater(Unthrottled(log, k), Initial(log, k, g), g, g, now, later);
  }

  lemma {:induction false} StepSilent(s: Store, log: seq<Event>, now: int, op: Op, k: string)
    requires Inv(s, log, now) && k !in Step(s, op).0.byDevice
    ensures Silent(log + [Event(op, Step(s, op).1)], k)
  {
    hide Key, GrantOk;
    LogSnoc(log, Event(op, Step(s, op).1), k);
  }

  /** Every operation, at an instant no earlier than the last, keeps the store and its log in agreement. */
  lemma {:induction false} StepKeepsInv(s: Store, log: seq<Event>, before: int, op: Op, now: int)
    requires Inv(s, log, before) && (!op.Add? ==> before <= op.at) && before <= now && Time(op) <= now
    requires op.Add? ==> Fresh(op.grant)
    ensures Inv(Step(s, op).0, log + [Event(op, Step(s, op).1)], now)
  {
    hide Key, GrantOk, Fresh, Step, Silent;
    StepConsistent(s, op);
    forall k | k in Step(s, op).0.byDevice ensures GrantOk(log + [Event(op, Step(s, op).1)], k, Step(s, op).0.byDevice[k], now) {
      StepKeepsGrant(s, log, before, op, now, k);
    }
    forall k | k !in Step(s, op).0.byDevice ensures Silent(log + [Event(op, Step(s, op).1)], k) {
      StepSilent(s, log, before, op, k);
    }
  }

  lemma {:induction false} RunKeepsInv(ops: seq<Op>, now: int)
    requires WellTimed(ops) && forall i :: 0 <= i < |ops| ==> Time(ops[i]) <= now
    ensures Inv(Final(ops), Log(ops), now)
  {
    hide Key, GrantOk, Fresh, Step;
    if ops == [] {
    } else {
      var init, op := ops[..|ops| - 1], ops[|ops| - 1];
      var before := if op.Add? then now else op.at;
      RunKeepsInv(init, before);
      StepKeepsInv(Final(init), Log(init), before, op, now);
    }
  }

  // ----- What a run promises -----

  /** Logs of prefixes are prefixes of the log. */
  lemma {:induction false} LogPrefix(ops: seq<Op>, i: nat)
    requires i < |ops|
    ensures |Log(ops)| == |ops| && Log(ops)[i] == Event(ops[i], Step(Final(ops[..i]), ops[i]).1)
    ensures Log(ops)[..i] == Log(ops[..i])
  {
    hide Step;
    var init, op := ops[..|ops| - 1], ops[|ops| - 1];
    if i < |init| {
      LogPrefix(init, i);
      assert init[..i] == ops[..i];
    } else if 0 < |init| {
      LogPrefix(init, |init| - 1);
      assert Log(ops)[..i] == Log(init);
    }
  }

  lemma {:induction false} WellTimedPrefix(ops: seq<Op>, i: nat)
    requires WellTimed(ops) && i < |ops| && !ops[i].Add?
    ensures WellTimed(ops[..i]) && Inv(Final(ops[..i]), Log(ops[..i]), ops[i].at)
  {
    hide Fresh, Inv, Final, Log;
    RunKeepsInv(ops[..i], ops[i].at);
  }

  /** The latest instant of a run, or `floor` if that is later. */
  function Latest(ops: seq<Op>, floor: int): (t: int)
    ensures t >= floor && forall i :: 0 <= i < |ops| ==> Time(ops[i]) <= t
  {
    if ops == [] then floor
    else
      var t := Latest(ops[..|ops| - 1], floor);
      if Time(ops[|ops| - 1]) <= t then t else Time(ops[|ops| - 1])
  }

  /** Along every run the maps mirror each other and a device code is answered with approval at most once. */
  lemma {:induction false} ApprovedAtMostOnce(ops: seq<Op>, k: string)
    requires WellTimed(ops)
    ensures Consistent(Final(ops)) && Approvals(Log(ops), k) <= 1
  {
    hide Key, Fresh, Step;
    RunKeepsInv(ops, Latest(ops, 0));
    if k in Final(ops).byDevice {
      assert GrantOk(Log(ops), k, Final(ops).byDevice[k], Latest(ops, 0));
    } else {
      assert Silent(Log(ops), k);
    }
  }

  /** An approval answers a poll of the client it was issued to, in time, with the claims of a session that approved the user code. */
  lemma {:induction false} ApprovalIsGenuine(ops: seq<Op>, i: nat)
    requires WellTimed(ops) && i < |ops| && ops[i].Poll? && Step(Final(ops[..i]), ops[i]).1.IsApproved?
    ensures var g := Step(Final(ops[..i]), ops[i]).1.grant;
      && g.deviceCode == ops[i].device && g.clientId == ops[i].client && g.issuedAt <= ops[i].at < g.expiresAt
      && g.claims.Some? && ApprovedBy(Log(ops)[..i], g, g.claims.value)
      && (exists initial :: Origin(Log(ops)[..i], g, initial))
  {
    hide Key, Fresh, Paced, Final, Log, Unthrottled, SlowDowns, Approvals, Origin, ApprovedBy;
    WellTimedPrefix(ops, i);
    LogPrefix(ops, i);
    var s, log := Final(ops[..i]), Log(ops[..i]);
    var before := s.byDevice[Key(ops[i].device)];
    var g := Step(s, ops[i]).1.grant;
    KeyInjective(before.deviceCode, ops[i].device);
    assert GrantOk(log, Key(ops[i].device), before, ops[i].at);
    PacedIssued(Unthrottled(log, Key(ops[i].device)), Initial(log, Key(ops[i].device), before), before, ops[i].at);
    SameOrigin(log, before, g, Initial(log, Key(ops[i].device), before));
    SameApproval(log, before, g, before.claims.value);
  }

  lemma {:induction false} PacedIssued(ticks: seq<Tick>, initial: int, g: Grant, now: int)
    requires Paced(ticks, initial, g, now)
    ensures g.issuedAt <= now
  {
  }

  lemma {:induction false} SameOrigin(log: seq<Event>, g: Grant, g': Grant, initial: int)
    requires Origin(log, g, initial) && SameGrant(g, g')
    ensures Origin(log, g', initial)
  {
    hide Fresh;
  }

  lemma {:induction false} SameApproval(log: seq<Event>, g: Grant, g': Grant, claims: Claims)
    requires ApprovedBy(log, g, claims) && SameGrant(g, g')
    ensures ApprovedBy(log, g', claims)
  {
  }

  /** After n answers to slow down, the interval is the one the grant was added with plus n times five seconds. */
  lemma {:induction false} BackOff(ops: seq<Op>, k: string)
    requires WellTimed(ops) && k in Final(ops).byDevice
    ensures var g := Final(ops).byDevice[k];
      exists initial :: (initial > 0 && Origin(Log(ops), g, initial)
          && g.pollInterval == initial + 5_000 * SlowDowns(Log(ops), k)
          && Spaced(Unthrottled(Log(ops), k), initial, g)
          && (|Unthrottled(Log(ops), k)| - 1) * initial < g.expiresAt - g.issuedAt)
  {
    hide Key, Fresh, Step, Final, Log, Unthrottled, SlowDowns, Approvals, Origin, ClaimsOk;
    RunKeepsInv(ops, Latest(ops, 0));
    var g, log := Final(ops).byDevice[k], Log(ops);
    assert GrantOk(log, k, g, Latest(ops, 0));
    var initial := Initial(log, k, g);
    OriginLives(log, g, initial);
    PollsBounded(Unthrottled(log, k), initial, g, Latest(ops, 0));
  }

  lemma {:induction false} OriginLives(log: seq<Event>, g: Grant, initial: int)
    requires Origin(log, g, initial)
    ensures g.expiresAt > g.issuedAt
  {
  }

  lemma {:induction false} PollsBounded(ticks: seq<Tick>, initial: int, g: Grant, now: int)
    requires Paced(ticks, initial, g, now) && initial > 0 && g.expiresAt > g.issuedAt
    ensures (|ticks| - 1) * initial < g.expiresAt - g.issuedAt
  {
    if ticks == [] {
      assert (|ticks| - 1) * initial == -initial;
    } else {
      Spread(ticks, initial, g, |ticks| - 1);
    }
  }

  lemma {:induction false} Spread(ticks: seq<Tick>, initial: int, g: Grant, i: nat)
    requires Spaced(ticks, initial, g) && i < |ticks|
    ensures ticks[i].at >= ticks[0].at + i * initial
  {
    if i == 0 {
    } else {
      Spread(ticks, initial, g, i - 1);
      assert ticks[i].at - ticks[i - 1].at >= ticks[i].interval >= initial;
      assert (i - 1) * initial + initial == i * initial;
    }
  }

  // ----- What never happens again -----

  /** A code that was denied, was spent or has expired. */
  predicate Dead(s: Store, k: string, now: int) {
    k in s.byDevice && (s.byDevice[k].status == Denied || s.byDevice[k].status == Consumed || Expired(s.byDevice[k], now))
  }

  /** The operation names this grant, by either of its codes. */
  predicate Names(op: Op, g: Grant) {
    match op
    case Add(grant) => grant.deviceCode == g.deviceCode || grant.userCode == g.userCode
    case Find(user, _) => user == g.userCode
    case ApproveOp(user, _, _) => user == g.userCode
    case DenyOp(user, _) => user == g.userCode
    case Poll(device, _, _) => device == g.deviceCode
  }

  predicate Refusal(r: Reply) {
    r.IsDenied? || r.IsExpired? || r.AlreadyExists? || r.NotFound? || r.FailedPrecondition? || r.AuthenticationFailed?
  }

  lemma {:induction false} DeadStays(s: Store, op: Op, k: string, now: int)
    requires Consistent(s) && Dead(s, k, now) && (!op.Add? ==> now <= op.at)
    ensures Dead(Step(s, op).0, k, now) && Step(s, op).0.byDevice[k] == s.byDevice[k]
    ensures Names(op, s.byDevice[k]) ==> Refusal(Step(s, op).1)
  {
    hide Key;
  }

  /** Once dead, a grant stays as it is, and every operation that names it is refused. */
  lemma {:induction false} DeadForever(ops: seq<Op>, i: nat, j: nat, k: string, now: int)
    requires i <= j <= |ops| && Dead(Final(ops[..i]), k, now)
    requires forall m :: i <= m < |ops| && !ops[m].Add? ==> now <= ops[m].at
    ensures Dead(Final(ops[..j]), k, now) && Final(ops[..j]).byDevice[k] == Final(ops[..i]).byDevice[k]
    ensures j < |ops| && Names(ops[j], Final(ops[..i]).byDevice[k]) ==> Refusal(Log(ops)[j].reply)
    decreases j
  {
    hide Key, Fresh, Step, Names;
    FinalConsistent(ops[..j]);
    if i == j {
    } else {
      DeadForever(ops, i, j - 1, k, now);
      FinalConsistent(ops[..j - 1]);
      DeadStays(Final(ops[..j - 1]), ops[j - 1], k, now);
      assert ops[..j][..j - 1] == ops[..j - 1];
    }
    if j < |ops| {
      DeadStays(Final(ops[..j]), ops[j], k, now);
      LogPrefix(ops, j);
    }
  }

  lemma {:induction false} FinalConsistent(ops: seq<Op>)
    ensures Consistent(Final(ops))
  {
    hide Key, Step;
    if ops == [] {
    } else {
      FinalConsistent(ops[..|ops| - 1]);
      StepConsistent(Final(ops[..|ops| - 1]), ops[|ops| - 1]);
    }
  }

  /** The operations of a run that were not refused. */
  function Granted(ops: seq<Op>): seq<Op> {
    if ops == [] then []
    else
      var init, op := ops[..|ops| - 1], ops[|ops| - 1];
      Granted(init) + (if Refusal(Step(Final(init), op).1) then [] else [op])
  }

  function GrantedLog(log: seq<Event>): seq<Event> {
    if log == [] then []
    else GrantedLog(log[..|log| - 1]) + (if Refusal(log[|log| - 1].reply) then [] else [log[|log| - 1]])
  }

  /** Refused operations, polls by the wrong client among them, leave no trace: without them the rest of the run is the same. */
  lemma {:induction false} RefusalsLeaveNoTrace(ops: seq<Op>)
    ensures Final(Granted(ops)) == Final(ops) && Log(Granted(ops)) == GrantedLog(Log(ops))
  {
    hide Step, Key;
    if ops == [] {
    } else {
      var init, op := ops[..|ops| - 1], ops[|ops| - 1];
      RefusalsLeaveNoTrace(init);
      assert Log(ops)[..|ops| - 1] == Log(init);
      if Refusal(Step(Final(init), op).1) {
        RefusalChangesNothing(Final(init), op);
        assert Granted(ops) == Granted(init);
        assert GrantedLog(Log(ops)) == GrantedLog(Log(init));
      } else {
        assert Granted(ops)[..|Granted(init)|] == Granted(init);
      }
    }
  }

  lemma {:induction false} RefusalChangesNothing(s: Store, op: Op)
    requires Refusal(Step(s, op).1)
    ensures Step(s, op).0 == s
  {
    hide Key;
  }

  function Inserted(ops: seq<Op>, op: Op, i: nat): seq<Op>
    requires i <= |ops|
  {
    ops[..i] + [op] + ops[i..]
  }

  /** A poll by another client than the grant's can be put anywhere into a run: it is refused, and every other answer and the store stay the same. */
  lemma {:induction false} WrongClientIsInvisible(ops: seq<Op>, i: nat, device: Digest, client: string, now: int)
    requires i <= |ops| && Key(device) in Final(ops[..i]).byDevice && Final(ops[..i]).byDevice[Key(device)].clientId != client
    ensures var poll := Poll(device, client, now);
      && Final(Inserted(ops, poll, i)) == Final(ops)
      && Log(Inserted(ops, poll, i)) == Log(ops)[..i] + [Event(poll, AuthenticationFailed)] + Log(ops)[i..]
  {
    hide Step, Key, Final, Log;
    var poll := Poll(device, client, now);
    WrongClientRefused(Final(ops[..i]), device, client, now);
    InvisibleFrom(ops, i, poll, AuthenticationFailed);
  }

  lemma {:induction false} WrongClientRefused(s: Store, device: Digest, client: string, now: int)
    requires Key(device) in s.byDevice && s.byDevice[Key(device)].clientId != client
    ensures Step(s, Poll(device, client, now)) == (s, AuthenticationFailed)
  {
    hide Key;
  }

  lemma {:induction false} RunSnoc(ops: seq<Op>, op: Op)
    ensures Final(ops + [op]) == Step(Final(ops), op).0 && Log(ops + [op]) == Log(ops) + [Event(op, Step(Final(ops), op).1)]
  {
    hide Step;
    assert (ops + [op])[..|ops|] == ops;
  }

  /** An operation that changes nothing where it stands changes nothing later. */
  lemma {:induction false} InvisibleFrom(ops: seq<Op>, i: nat, op: Op, reply: Reply)
    requires i <= |ops| && Step(Final(ops[..i]), op) == (Final(ops[..i]), reply)
    ensures Final(Inserted(ops, op, i)) == Final(ops)
    ensures Log(Inserted(ops, op, i)) == Log(ops)[..i] + [Event(op, reply)] + Log(ops)[i..]
    decreases |ops|
  {
    hide Step, Final, Log;
    if i == |ops| {
      assert ops[..i] == ops && Inserted(ops, op, i) == ops + [op];
      RunSnoc(ops, op);
    } else {
      var init, last := ops[..|ops| - 1], ops[|ops| - 1];
      assert ops == init + [last] && init[..i] == ops[..i];
      assert Inserted(ops, op, i) == Inserted(init, op, i) + [last];
      InvisibleFrom(init, i, op, reply);
      RunSnoc(init, last);
      RunSnoc(Inserted(init, op, i), last);
    }
  }

  // ----- The store is what the log says -----

  datatype Decision = Undecided | Consented(claims: Claims) | Declined

  /** The grant that was added under a device code. */
  function AddedAs(log: seq<Event>, k: string): Option<Grant> {
    if log == [] then None
    else
      var e := log[|log| - 1];
      if e.op.Add? && e.reply == Accepted && Key(e.op.grant.deviceCode) == k then Some(e.op.grant) else AddedAs(log[..|log| - 1], k)
  }

  /** The grant that was added under a user code. */
  function AddedFor(log: seq<Event>, u: string): Option<Grant> {
    if log == [] then None
    else
      var e := log[|log| - 1];
      if e.op.Add? && e.reply == Accepted && Key(e.op.grant.userCode) == u then Some(e.op.grant) else AddedFor(log[..|log| - 1], u)
  }

  /** What was decided about a user code. */
  function Decided(log: seq<Event>, u: string): Decision {
    if log == [] then Undecided
    else
      var e := log[|log| - 1];
      if e.op.ApproveOp? && Key(e.op.user) == u && e.reply.Found? then Consented(e.op.session)
      else if e.op.DenyOp? && Key(e.op.user) == u && e.reply == Accepted then Declined
      else Decided(log[..|log| - 1], u)
  }

  /** When a device code was last polled to any effect. */
  function LastPoll(log: seq<Event>, k: string): Option<int> {
    if log == [] then None
    else
      var e := log[|log| - 1];
      if Moves(e, k) then Some(e.op.at) else LastPoll(log[..|log| - 1], k)
  }

  /** The interval in force: the initial one, and five seconds for every answer to slow down. */
  function Interval(log: seq<Event>, k: string, g: Grant): int {
    g.pollInterval + 5_000 * SlowDowns(log, k)
  }

  /** A grant as the log leaves it, given how it was added. */
  function Recounted(log: seq<Event>, k: string, g: Grant): Grant {
    var d := Decided(log, Key(g.userCode));
    g.(pollInterval := Interval(log, k, g), lastPollAt := LastPoll(log, k),
       claims := if d.Consented? then Some(d.claims) else None,
       status := if Approvals(log, k) > 0 then Consumed else if d.Consented? then Approved else if d.Declined? then Denied else Pending)
  }

  /** What the log says about one device code is what is stored under it. */
  predicate Tracked(s: Store, log: seq<Event>, k: string) {
    var g := AddedAs(log, k);
    && (k in s.byDevice <==> g.Some?)
    && (g.Some? ==> s.byDevice[k] == Recounted(log, k, g.value) && (Approvals(log, k) > 0 ==> Decided(log, Key(g.value.userCode)).Consented?))
    && (g.None? ==> Approvals(log, k) == 0 && SlowDowns(log, k) == 0 && LastPoll(log, k) == None)
  }

  predicate UserTracked(s: Store, log: seq<Event>, u: string) {
    var g := AddedFor(log, u);
    && (u in s.userToDevice <==> g.Some?)
    && (g.Some? ==> s.userToDevice[u] == Key(g.value.deviceCode) && AddedAs(log, s.userToDevice[u]) == g && Key(g.value.userCode) == u)
    && (g.None? ==> Decided(log, u) == Undecided)
  }

  ghost predicate AllTracked(s: Store, log: seq<Event>) {
    Consistent(s) && (forall k :: Tracked(s, log, k)) && (forall u :: UserTracked(s, log, u))
  }

  lemma {:induction false} HistorySnoc(log: seq<Event>, e: Event, k: string)
    ensures AddedAs(log + [e], k) == if e.op.Add? && e.reply == Accepted && Key(e.op.grant.deviceCode) == k then Some(e.op.grant) else AddedAs(log, k)
    ensures AddedFor(log + [e], k) == if e.op.Add? && e.reply == Accepted && Key(e.op.grant.userCode) == k then Some(e.op.grant) else AddedFor(log, k)
    ensures Decided(log + [e], k) ==
      if e.op.ApproveOp? && Key(e.op.user) == k && e.reply.Found? then Consented(e.op.session)
      else if e.op.DenyOp? && Key(e.op.user) == k && e.reply == Accepted then Declined
      else Decided(log, k)
    ensures LastPoll(log + [e], k) == if Moves(e, k) then Some(e.op.at) else LastPoll(log, k)
  {
    hide Key, Moves;
    assert (log + [e])[..|log|] == log;
  }

  /** A decision is about the grant whose user code it names, and about no other. */
  lemma {:induction false} DecisionAt(s: Store, op: Op, k: string)
    requires Consistent(s) && k in s.byDevice && (op.ApproveOp? || op.DenyOp?)
    ensures var (s', reply) := Step(s, op);
      var g := s.byDevice[k];
      && k in s'.byDevice
      && (if Key(op.user) != Key(g.userCode) then s'.byDevice[k] == g
          else if g.status != Pending || op.at >= g.expiresAt then s'.byDevice[k] == g && reply == FailedPrecondition
          else if op.ApproveOp? then s'.byDevice[k] == g.(status := Approved, claims := Some(op.session)) && reply == Found(s'.byDevice[k])
          else s'.byDevice[k] == g.(status := Denied) && reply == Accepted)
  {
    hide Key;
  }

  lemma {:induction false} TrackedPoll(s: Store, log: seq<Event>, op: Op, k: string)
    requires Consistent(s) && Tracked(s, log, k) && op.Poll?
    ensures Tracked(Step(s, op).0, log + [Event(op, Step(s, op).1)], k)
  {
    hide Key, AddedAs, AddedFor, Decided, LastPoll, Approvals, SlowDowns, Unthrottled;
    var e := Event(op, Step(s, op).1);
    HistorySnoc(log, e, k);
    LogSnoc(log, e, k);
    if AddedAs(log, k).Some? {
      HistorySnoc(log, e, Key(AddedAs(log, k).value.userCode));
    }
  }

  lemma {:induction false} TrackedDecision(s: Store, log: seq<Event>, op: Op, k: string)
    requires Consistent(s) && Tracked(s, log, k) && (op.ApproveOp? || op.DenyOp?)
    ensures Tracked(Step(s, op).0, log + [Event(op, Step(s, op).1)], k)
  {
    hide Key, AddedAs, AddedFor, Decided, LastPoll, Approvals, SlowDowns, Unthrottled, Step, Consistent;
    var e := Event(op, Step(s, op).1);
    HistorySnoc(log, e, k);
    LogSnoc(log, e, k);
    if k in s.byDevice {
      DecisionAt(s, op, k);
      HistorySnoc(log, e, Key(s.byDevice[k].userCode));
    } else {
      DecisionAddsNothing(s, op, k);
    }
  }

  lemma {:induction false} DecisionAddsNothing(s: Store, op: Op, k: string)
    requires Consistent(s) && (op.ApproveOp? || op.DenyOp?) && k !in s.byDevice
    ensures k !in Step(s, op).0.byDevice
  {
    hide Key;
  }

  lemma {:induction false} TrackedRest(s: Store, log: seq<Event>, op: Op, k: string)
    requires AllTracked(s, log) && (op.Add? || op.Find?) && (op.Add? ==> Fresh(op.grant))
    ensures Tracked(Step(s, op).0, log + [Event(op, Step(s, op).1)], k)
  {
    hide Key, AddedAs, AddedFor, Decided, LastPoll, Approvals, SlowDowns, Unthrottled, Consistent;
    var e := Event(op, Step(s, op).1);
    HistorySnoc(log, e, k);
    LogSnoc(log, e, k);
    assert Tracked(s, log, k);
    if AddedAs(log, k).Some? {
      HistorySnoc(log, e, Key(AddedAs(log, k).value.userCode));
    }
    if op.Add? {
      HistorySnoc(log, e, Key(op.grant.userCode));
      assert UserTracked(s, log, Key(op.grant.userCode));
    }
  }

  lemma {:induction false} UserTrackedStep(s: Store, log: seq<Event>, op: Op, u: string)
    requires AllTracked(s, log)
    ensures UserTracked(Step(s, op).0, log + [Event(op, Step(s, op).1)], u)
  {
    hide Key, AddedAs, AddedFor, Decided, LastPoll, Approvals, SlowDowns, Unthrottled, Consistent, Recounted;
    var e := Event(op, Step(s, op).1);
    HistorySnoc(log, e, u);
    assert UserTracked(s, log, u);
    if u in s.userToDevice {
      HistorySnoc(log, e, s.userToDevice[u]);
      assert Tracked(s, log, s.userToDevice[u]);
    }
    if op.Add? {
      HistorySnoc(log, e, Key(op.grant.deviceCode));
    }
  }

  lemma {:induction false} TrackedStep(s: Store, log: seq<Event>, op: Op)
    requires AllTracked(s, log) && (op.Add? ==> Fresh(op.grant))
    ensures AllTracked(Step(s, op).0, log + [Event(op, Step(s, op).1)])
  {
    hide Step, Tracked, UserTracked, Consistent, Fresh;
    StepConsistent(s, op);
    forall k ensures Tracked(Step(s, op).0, log + [Event(op, Step(s, op).1)], k) {
      if op.Poll? {
        TrackedPoll(s, log, op, k);
      } else if op.ApproveOp? || op.DenyOp? {
        TrackedDecision(s, log, op, k);
      } else {
        TrackedRest(s, log, op, k);
      }
    }
    forall u ensures UserTracked(Step(s, op).0, log + [Event(op, Step(s, op).1)], u) {
      UserTrackedStep(s, log, op, u);
    }
  }

  /** Grants are added as their factory makes them. */
  predicate FreshAdds(ops: seq<Op>) {
    forall i :: 0 <= i < |ops| && ops[i].Add? ==> Fresh(ops[i].grant)
  }

  /** Along every run, whatever the clock does, the two maps hold exactly what the log of operations and answers says. */
  lemma {:induction false} StoreIsHistory(ops: seq<Op>)
    requires FreshAdds(ops)
    ensures AllTracked(Final(ops), Log(ops))
  {
    hide Step, Fresh, AllTracked;
    if ops == [] {
      NothingTracked();
    } else {
      StoreIsHistory(ops[..|ops| - 1]);
      TrackedStep(Final(ops[..|ops| - 1]), Log(ops[..|ops| - 1]), ops[|ops| - 1]);
    }
  }

  lemma {:induction false} NothingTracked()
    ensures AllTracked(Store(map[], map[]), [])
  {
  }

  /** The answer that the log so far calls for. */
  function Expected(log: seq<Event>, op: Op): Reply {
    match op
    case Add(grant) =>
      if AddedAs(log, Key(grant.deviceCode)).Some? || AddedFor(log, Key(grant.userCode)).Some? then AlreadyExists else Accepted
    case Find(user, now) =>
      var g := AddedFor(log, Key(user));
      if g.None? || now >= g.value.expiresAt || Decided(log, Key(user)) != Undecided then NotFound
      else Found(Recounted(log, Key(g.value.deviceCode), g.value))
    case ApproveOp(user, session, now) =>
      var g := AddedFor(log, Key(user));
      if g.None? then NotFound
      else if now >= g.value.expiresAt || Decided(log, Key(user)) != Undecided then FailedPrecondition
      else Found(Recounted(log, Key(g.value.deviceCode), g.value).(status := Approved, claims := Some(session)))
    case DenyOp(user, now) =>
      var g := AddedFor(log, Key(user));
      if g.None? then NotFound
      else if now >= g.value.expiresAt || Decided(log, Key(user)) != Undecided then FailedPrecondition else Accepted
    case Poll(device, client, now) =>
      var k := Key(device);
      if AddedAs(log, k).None? then NotFound
      else
        var g, last := AddedAs(log, k).value, LastPoll(log, k);
        var d, interval := Decided(log, Key(g.userCode)), Interval(log, k, g);
        if g.clientId != client then AuthenticationFailed
        else if now >= g.expiresAt then IsExpired(interval)
        else if d == Declined then IsDenied(interval)
        else if Approvals(log, k) > 0 then AuthenticationFailed
        else if last.Some? && now < last.value + interval then SlowedDown(interval + 5_000)
        else if d.Consented? then IsApproved(Recounted(log, k, g).(status := Consumed, lastPollAt := Some(now)), interval)
        else IsPending(interval)
  }

  lemma {:induction false} ReplyExpected(s: Store, log: seq<Event>, op: Op)
    requires AllTracked(s, log)
    ensures Step(s, op).1 == Expected(log, op)
  {
    hide Key, AddedAs, AddedFor, Decided, LastPoll, Approvals, SlowDowns, Unthrottled, Consistent;
    match op
    case Add(grant) =>
      assert Tracked(s, log, Key(grant.deviceCode)) && UserTracked(s, log, Key(grant.userCode));
    case Poll(device, _, _) =>
      assert Tracked(s, log, Key(device));
    case _ =>
      assert UserTracked(s, log, Key(op.user));
      if Key(op.user) in s.userToDevice {
        assert Tracked(s, log, s.userToDevice[Key(op.user)]);
      }
  }

  /** Every answer of every run is the one that the earlier operations and answers call for. */
  lemma {:induction false} AnswersExactly(ops: seq<Op>, i: nat)
    requires FreshAdds(ops) && i < |ops|
    ensures Log(ops)[i].reply == Expected(Log(ops)[..i], ops[i])
  {
    hide Step, Fresh, AllTracked, Expected, Final, Log;
    LogPrefix(ops, i);
    StoreIsHistory(ops[..i]);
    ReplyExpected(Final(ops[..i]), Log(ops[..i]), ops[i]);
  }

  /** A poll delivers an approval exactly if its client's grant was approved and not yet delivered, has not expired, and is not polled too early. */
  lemma {:induction false} ApprovalExactly(ops: seq<Op>, i: nat)
    requires FreshAdds(ops) && i < |ops| && ops[i].Poll?
    ensures var log, k, t := Log(ops)[..i], Key(ops[i].device), ops[i].at;
      var g, last := AddedAs(log, k), LastPoll(log, k);
      && (Log(ops)[i].reply.IsApproved? <==>
          && g.Some? && g.value.clientId == ops[i].client && t < g.value.expiresAt
          && Decided(log, Key(g.value.userCode)).Consented? && Approvals(log, k) == 0
          && (last.Some? ==> t >= last.value + g.value.pollInterval + 5_000 * SlowDowns(log, k)))
      && (Log(ops)[i].reply.IsDenied? <==>
          && g.Some? && g.value.clientId == ops[i].client && t < g.value.expiresAt && Decided(log, Key(g.value.userCode)) == Declined)
  {
    hide Key, Log, AddedAs, Decided, LastPoll, Approvals, SlowDowns, Fresh;
    AnswersExactly(ops, i);
  }

  // ----- The store -----

  method DigestKey(code: Digest) returns (key: string)
    ensures key == Key(code)
  {
    key := Encoding.ToHex(code);
  }

  class InMemoryDeviceAuthorizationStore {
    var byDevice: map<string, Grant>
    var userToDevice: map<string, string>

    ghost function Contents(): Store
      reads this
    {
      Store(byDevice, userToDevice)
    }

    constructor ()
      ensures Contents() == Store(map[], map[])
    {
      byDevice, userToDevice := map[], map[];
    }

    method Add(grant: Grant) returns (reply: Reply)
      requires Consistent(Contents())
      modifies this
      ensures (Contents(), reply) == Step(old(Contents()), Op.Add(grant))
      ensures Consistent(Contents())
    {
      hide Key;
      var device := DigestKey(grant.deviceCode);
      var user := DigestKey(grant.userCode);
      if device in byDevice || user in userToDevice {
        return AlreadyExists;
      }
      userToDevice := userToDevice[user := device];
      byDevice := byDevice[device := grant];
      return Accepted;
    }

    method FindByUserCode(user: Digest, now: int) returns (reply: Reply)
      ensures (Contents(), reply) == Step(Contents(), Op.Find(user, now))
    {
      var u := DigestKey(user);
      if u !in userToDevice {
        return NotFound;
      }
      var device := userToDevice[u];
      if device !in byDevice || Expired(byDevice[device], now) || byDevice[device].status != Pending {
        return NotFound;
      }
      return Found(byDevice[device]);
    }

    method Approve(user: Digest, session: Claims, now: int) returns (reply: Reply)
      requires Consistent(Contents())
      modifies this
      ensures (Contents(), reply) == Step(old(Contents()), ApproveOp(user, session, now))
      ensures Consistent(Contents())
    {
      hide Key;
      var u := DigestKey(user);
      if u !in userToDevice {
        return NotFound;
      }
      var device := userToDevice[u];
      if device !in byDevice {
        return NotFound;
      }
      var value := byDevice[device];
      if value.status != Pending || Expired(value, now) {
        return FailedPrecondition;
      }
      value := value.(claims := Some(session), status := Approved);
      byDevice := byDevice[device := value];
      return Found(value);
    }

    method Deny(user: Digest, now: int) returns (reply: Reply)
      requires Consistent(Contents())
      modifies this
      ensures (Contents(), reply) == Step(old(Contents()), DenyOp(user, now))
      ensures Consistent(Contents())
    {
      hide Key;
      var u := DigestKey(user);
      if u !in userToDevice {
        return NotFound;
      }
      var device := userToDevice[u];
      if device !in byDevice {
        return NotFound;
      }
      var value := byDevice[device];
      if value.status != Pending || Expired(value, now) {
        return FailedPrecondition;
      }
      value := value.(status := Denied);
      byDevice := byDevice[device := value];
      return Accepted;
    }

    method Poll(code: Digest, client: string, now: int) returns (reply: Reply)
      requires Consistent(Contents())
      modifies this
      ensures (Contents(), reply) == Step(old(Contents()), Op.Poll(code, client, now))
      ensures Consistent(Contents())
    {
      hide Key;
      ghost var s := Contents();
      StepConsistent(s, Op.Poll(code, client, now));
      var device := DigestKey(code);
      if device !in byDevice {
        return NotFound;
      }
      var value := byDevice[device];
      if value.clientId != client {
        return AuthenticationFailed;
      }
      if Expired(value, now) {
        return IsExpired(value.pollInterval);
      }
      if value.status == Denied {
        return IsDenied(value.pollInterval);
      }
      if value.status == Consumed {
        return AuthenticationFailed;
      }
      if value.lastPollAt.Some? && now < value.lastPollAt.value + value.pollInterval {
        value := value.(pollInterval := value.pollInterval + SLOW_DOWN, lastPollAt := Some(now));
        byDevice := byDevice[device := value];
        return SlowedDown(value.pollInterval);
      }
      if value.status == Approved {
        value := value.(status := Consumed, lastPollAt := Some(now));
        byDevice := byDevice[device := value];
        return IsApproved(value, value.pollInterval);
      }
      value := value.(lastPollAt := Some(now));
      byDevice := byDevice[device := value];
      return IsPending(value.pollInterval);
    }
  }
}
