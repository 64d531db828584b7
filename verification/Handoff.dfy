/**
 Browser handoffs: single-use tickets that carry an authentication from the
 browser that performed it to the one that asked for it.

 A handoff is issued with two tickets. The publisher's ticket is consumed once, by
 an authentication under the provider named at issue, which leaves a result behind;
 the other ticket redeems that result once. Both are transactions of one store,
 shared with connection handoffs and with ordinary authentication, so the system is
 a machine whose steps are the store's atomic calls: publishing takes two.
 SHA-256 and random identifiers are parameters.
 */
module Handoff {
  import opened Foundation
  import Text
  import Encoding

  // ----- Authentications and their attributes -----

  datatype Assurance = Ial0 | Ial1 | Ial2 | Ial3 | Ial4

  function AssuranceName(level: Assurance): string {
    match level
    case Ial0 => "ial0"
    case Ial1 => "ial1"
    case Ial2 => "ial2"
    case Ial3 => "ial3"
    case Ial4 => "ial4"
  }

  function ParseAssurance(text: string): Option<Assurance> {
    if text == AssuranceName(Ial0) then Some(Ial0)
    else if text == AssuranceName(Ial1) then Some(Ial1)
    else if text == AssuranceName(Ial2) then Some(Ial2)
    else if text == AssuranceName(Ial3) then Some(Ial3)
    else if text == AssuranceName(Ial4) then Some(Ial4)
    else None
  }

  datatype Authentication = Authentication(
    identity: string, provider: string, subject: string, assurance: Assurance,
    factors: Byte, phishingResistant: bool, verifiedAt: int)

  /** The metadata keys of the handoff transactions. */
  datatype Attribute =
    | HandoffIdentity | HandoffProvider | HandoffReturn | ResultId | RedeemDigest
    | AuthIdentity | AuthSubject | AuthAssurance | AuthFactors | AuthPhishing | AuthVerifiedAt
    | OtherAttribute(name: string)

  type Metadata = map<Attribute, string>

  /** What publishing writes into the result. */
  function ResultMetadata(v: Authentication): Metadata {
    map[
      AuthIdentity := v.identity,
      HandoffProvider := v.provider,
      AuthSubject := v.subject,
      AuthAssurance := AssuranceName(v.assurance),
      AuthFactors := Text.Decimal(v.factors),
      AuthPhishing := if v.phishingResistant then "1" else "0",
      AuthVerifiedAt := Text.SignedDecimal(v.verifiedAt)]
  }

  /** What redeeming reads from it. */
  function ReadResult(m: Metadata): Option<Authentication> {
    if AuthIdentity !in m || HandoffProvider !in m || AuthSubject !in m || AuthAssurance !in m
       || AuthFactors !in m || AuthPhishing !in m || AuthVerifiedAt !in m then None
    else
      var assurance := ParseAssurance(m[AuthAssurance]);
      var factors := Text.ParseUnsigned(m[AuthFactors]);
      var verifiedAt := Text.ParseSigned(m[AuthVerifiedAt]);
      if assurance.None? || factors.None? || factors.value > 7
         || (m[AuthPhishing] != "0" && m[AuthPhishing] != "1")
         || verifiedAt.None? || verifiedAt.value < 0 then None
      else Some(Authentication(
                  m[AuthIdentity], m[HandoffProvider], m[AuthSubject], assurance.value,
                  factors.value, m[AuthPhishing] == "1", verifiedAt.value))
  }

  /** An instant that fits the 64-bit clock. */
  predicate Representable(v: Authentication) {
    -(TWO_64 / 2) <= v.verifiedAt < TWO_64 / 2
  }

  /** A published authentication reads back as it was, provided its factor bits and its instant are in range. */
  lemma {:induction false} ResultRoundTrip(v: Authentication)
    requires Representable(v)
    ensures ReadResult(ResultMetadata(v)) == if v.factors <= 7 && v.verifiedAt >= 0 then Some(v) else None
  {
    hide Text.Decimal, Text.SignedDecimal, Text.ParseUnsigned, Text.ParseSigned, ParseAssurance, AssuranceName;
    AssuranceRoundTrip(v.assurance);
    Text.UnsignedRoundTrip(v.factors);
    Text.SignedRoundTrip(v.verifiedAt);
  }

  lemma {:induction false} AssuranceRoundTrip(level: Assurance)
    ensures ParseAssurance(AssuranceName(level)) == Some(level)
  {
  }

  // ----- Transactions -----

  /** The provider name of a transaction: one of the three reserved ones, or a real provider's. */
  datatype Purpose = Connection | Publisher | Result | Ordinary(provider: string)

  datatype TransactionState = Pending | Consumed | Spoiled | Expired

  datatype Transaction = Transaction(
    id: string, purpose: Purpose, nonce: Digest, binding: Digest, correlation: string,
    state: TransactionState, createdAt: int, expiresAt: int, metadata: Metadata)

  /** What the model cannot see: the hash, and the operator's limit on lifetimes. */
  datatype World = World(sha: string -> Option<Digest>, maximumLifetime: int)

  const HANDOFF_LIFETIME := 120_000

  /** Two minutes, or less if the operator allows less. */
  function Lifetime(w: World): (lifetime: int)
    ensures lifetime <= 120_000 && lifetime <= w.maximumLifetime
    ensures lifetime == 120_000 || lifetime == w.maximumLifetime
  {
    if HANDOFF_LIFETIME <= w.maximumLifetime then HANDOFF_LIFETIME else w.maximumLifetime
  }

  /** The binding of a ticket that any browser may present. */
  function NoBinding(): Digest {
    [0, 0, 0, 0, 0, 0, 0, 0, 0, 0, 0, 0, 0, 0, 0, 0, 0, 0, 0, 0, 0, 0, 0, 0, 0, 0, 0, 0, 0, 0, 0, 0]
  }

  /** A pending transaction as its factory makes it. */
  function Created(w: World, id: string, purpose: Purpose, secret: string, correlation: string, now: int, metadata: Metadata): Option<Transaction> {
    if id == "" || secret == "" || Lifetime(w) <= 0 then None
    else
      var nonce := w.sha(secret);
      if nonce.None? then None
      else Some(Transaction(id, purpose, nonce.value, NoBinding(), correlation, Pending, now, now + Lifetime(w), metadata))
  }

  /** One presentation of a secret: the state it leaves, and whether it is accepted. */
  function Presented(w: World, t: Transaction, secret: string, binding: Digest, now: int): (TransactionState, bool) {
    if t.state != Pending then (t.state, false)
    else if now >= t.expiresAt then (Expired, false)
    else
      var nonce := w.sha(secret);
      if nonce == Some(t.nonce) && binding == t.binding then (Consumed, true) else (Spoiled, false)
  }

  type Store = map<string, Transaction>

  function Begun(s: Store, t: Transaction): (Store, bool) {
    if t.id in s then (s, false) else (s[t.id := t], true)
  }

  function ConsumedFrom(w: World, s: Store, id: string, secret: string, binding: Digest, now: int): (Store, Option<Transaction>) {
    if id !in s then (s, None)
    else
      var (state, ok) := Presented(w, s[id], secret, binding, now);
      var t := s[id].(state := state);
      (s[id := t], if ok then Some(t) else None)
  }

  function Purged(s: Store, now: int): Store {
    map id | id in s && now < s[id].expiresAt :: s[id]
  }

  // ----- Tickets -----

  datatype Ticket = Ticket(id: string, secret: string)

  /** A ticket is an identifier and a secret, parted by the only dot. */
  function ParseTicket(text: string): Option<Ticket> {
    var dot := Text.IndexOf(text, '.', 0);
    if dot == |text| || dot == 0 || dot + 1 >= |text| || |text| > 256 || Text.IndexOf(text, '.', dot + 1) != |text| then None
    else Some(Ticket(text[..dot], text[dot + 1..]))
  }

  predicate Dotless(text: string) { text != "" && '.' !in text }

  /** Tickets that parse are exactly the short joins of two non-empty dotless texts, and they parse into those. */
  lemma {:induction false} TicketMeaning(text: string, t: Ticket)
    ensures ParseTicket(text) == Some(t) <==> Dotless(t.id) && Dotless(t.secret) && |text| <= 256 && text == t.id + "." + t.secret
  {
    var dot := Text.IndexOf(text, '.', 0);
    if ParseTicket(text) == Some(t) {
      assert text == text[..dot] + "." + text[dot + 1..];
      assert text[dot + 1..Text.IndexOf(text, '.', dot + 1)] == t.secret;
    }
    if Dotless(t.id) && Dotless(t.secret) && |text| <= 256 && text == t.id + "." + t.secret {
      assert text[|t.id|] == '.' && text[..|t.id|] == t.id;
      assert dot == |t.id|;
      assert text[dot + 1..] == t.secret;
    }
  }

  // ----- The machine -----

  /** An authentication whose publisher ticket is consumed and whose result is not yet stored. */
  datatype Publication = Publication(transaction: Transaction, authentication: Authentication, redeem: Digest)

  datatype System = System(store: Store, inflight: seq<Publication>)

  /** The checks redemption makes against the rest of the server. */
  datatype Checks = Checks(trusted: bool, active: bool, owned: bool)

  datatype Action =
    | Issue(provider: string, correlation: string, available: bool,
        publisherId: string, publisherSecret: string, resultId: string, redeemSecret: string, now: int)
    | Take(ticket: string, authentication: Authentication, now: int)
    | Publish(index: nat, now: int)
    | Redeem(ticket: string, checks: Checks, now: int)
    | IssueConnection(identity: string, provider: string, returnTarget: string, correlation: string, active: bool,
        id: string, secret: string, now: int)
    | ConsumeConnection(ticket: string, active: bool, now: int)
    | OtherBegin(transaction: Transaction)
    | OtherConsume(id: string, secret: string, binding: Digest, now: int)
    | Purge(now: int)

  datatype Reply =
    | Refused
    | Done
    | Issued
    | Taken(resultId: string)
    | Published(resultId: string, authentication: Authentication)
    | Redeemed(resultId: string, authentication: Authentication)
    | ConnectionIssued
    | Connected(id: string, identity: string, provider: string, returnTarget: string)

  /** The transaction of the publisher's ticket. */
  function PublisherTransaction(w: World, a: Action): Option<Transaction>
    requires a.Issue?
  {
    if a.provider == "" || a.correlation == "" || !a.available then None
    else
      var digest := w.sha(a.redeemSecret);
      if digest.None? then None
      else
        Created(w, a.publisherId, Publisher, a.publisherSecret, a.correlation, a.now,
                map[HandoffProvider := a.provider, ResultId := a.resultId, RedeemDigest := Encoding.HexText(digest.value)])
  }

  function ConnectionTransaction(w: World, a: Action): Option<Transaction>
    requires a.IssueConnection?
  {
    if a.identity == "" || a.provider == "" || a.returnTarget == "" || |a.returnTarget| > 2048 || a.correlation == "" || !a.active then None
    else
      Created(w, a.id, Connection, a.secret, a.correlation, a.now,
              map[HandoffIdentity := a.identity, HandoffProvider := a.provider, HandoffReturn := a.returnTarget])
  }

  /** A digest in 64 hexadecimal digits. */
  function ParseDigestHex(text: string): Option<Digest> {
    if |text| != 64 then None
    else
      var bytes := Encoding.HexBytes(text);
      if bytes.None? then None else Some(bytes.value)
  }

  /** The publication a consumed publisher ticket allows, if it names this authentication's provider. */
  function Publishable(t: Transaction, v: Authentication): Option<Publication> {
    if t.purpose != Publisher then None
    else if HandoffProvider !in t.metadata || ResultId !in t.metadata || RedeemDigest !in t.metadata
            || t.metadata[HandoffProvider] == "" || t.metadata[ResultId] == "" then None
    else if v.provider != t.metadata[HandoffProvider] then None
    else
      var digest := ParseDigestHex(t.metadata[RedeemDigest]);
      if digest.None? then None else Some(Publication(t, v, digest.value))
  }

  function ResultTransaction(p: Publication, now: int): Option<Transaction>
    requires ResultId in p.transaction.metadata
  {
    if p.transaction.expiresAt <= now then None
    else if p.transaction.metadata[ResultId] == "" || p.transaction.correlation == "" then None
    else Some(Transaction(p.transaction.metadata[ResultId], Result, p.redeem, NoBinding(), p.transaction.correlation,
                          Pending, now, p.transaction.expiresAt, ResultMetadata(p.authentication)))
  }

  /** What a consumed ticket yields at the redemption endpoint. */
  function Redeemable(t: Transaction, c: Checks): Option<Authentication> {
    if t.purpose != Result then None
    else
      var v := ReadResult(t.metadata);
      if v.None? || !c.trusted || !c.active || !c.owned || v.value.provider == "" || v.value.subject == "" then None else v
  }

  function ConnectionTarget(t: Transaction, active: bool): Reply {
    if t.purpose != Connection then Refused
    else if HandoffIdentity !in t.metadata || t.metadata[HandoffIdentity] == ""
            || HandoffProvider !in t.metadata || t.metadata[HandoffProvider] == ""
            || HandoffReturn !in t.metadata || t.metadata[HandoffReturn] == "" || !active then Refused
    else Connected(t.id, t.metadata[HandoffIdentity], t.metadata[HandoffProvider], t.metadata[HandoffReturn])
  }

  function Step(w: World, s: System, a: Action): (System, Reply) {
    match a
    case Issue(_, _, _, _, _, _, _, _) =>
      var t := PublisherTransaction(w, a);
      if t.None? then (s, Refused)
      else
        var (store, ok) := Begun(s.store, t.value);
        (s.(store := store), if ok then Issued else Refused)
    case Take(text, v, now) =>
      var ticket := ParseTicket(text);
      if ticket.None? then (s, Refused)
      else
        var (store, t) := ConsumedFrom(w, s.store, ticket.value.id, ticket.value.secret, NoBinding(), now);
        var p := if t.None? then None else Publishable(t.value, v);
        if p.None? then (s.(store := store), Refused)
        else (System(store, s.inflight + [p.value]), Taken(p.value.transaction.metadata[ResultId]))
    case Publish(index, now) =>
      if index >= |s.inflight| || ResultId !in s.inflight[index].transaction.metadata then (s, Refused)
      else
        var p, rest := s.inflight[index], s.inflight[..index] + s.inflight[index + 1..];
        var t := ResultTransaction(p, now);
        if t.None? then (System(s.store, rest), Refused)
        else
          var (store, ok) := Begun(s.store, t.value);
          (System(store, rest), if ok then Published(t.value.id, p.authentication) else Refused)
    case Redeem(text, checks, now) =>
      var ticket := ParseTicket(text);
      if ticket.None? then (s, Refused)
      else
        var (store, t) := ConsumedFrom(w, s.store, ticket.value.id, ticket.value.secret, NoBinding(), now);
        var v := if t.None? then None else Redeemable(t.value, checks);
        (s.(store := store), if v.None? then Refused else Redeemed(ticket.value.id, v.value))
    case IssueConnection(_, _, _, _, _, _, _, _) =>
      var t := ConnectionTransaction(w, a);
      if t.None? then (s, Refused)
      else
        var (store, ok) := Begun(s.store, t.value);
        (s.(store := store), if ok then ConnectionIssued else Refused)
    case ConsumeConnection(text, active, now) =>
      var ticket := ParseTicket(text);
      if ticket.None? then (s, Refused)
      else
        var (store, t) := ConsumedFrom(w, s.store, ticket.value.id, ticket.value.secret, NoBinding(), now);
        (s.(store := store), if t.None? then Refused else ConnectionTarget(t.value, active))
    case OtherBegin(t) =>
      (s.(store := Begun(s.store, t).0), Done)
    case OtherConsume(id, secret, binding, now) =>
      (s.(store := ConsumedFrom(w, s.store, id, secret, binding, now).0), Done)
    case Purge(now) =>
      (s.(store := Purged(s.store, now)), Done)
  }

  // ----- Runs and what their log counts -----

  datatype Event = Event(action: Action, reply: Reply)

  datatype Kind = Issuing | Taking | Publishing | Redeeming | Linking | Connecting

  datatype Mark = Mark(kind: Kind, id: string)

  /** The stage of a handoff, named by its result or connection identifier, that an event completes. */
  function MarkOf(e: Event): Option<Mark> {
    match e.reply
    case Issued => if e.action.Issue? then Some(Mark(Issuing, e.action.resultId)) else None
    case Taken(id) => Some(Mark(Taking, id))
    case Published(id, _) => Some(Mark(Publishing, id))
    case Redeemed(id, _) => Some(Mark(Redeeming, id))
    case ConnectionIssued => if e.action.IssueConnection? then Some(Mark(Linking, e.action.id)) else None
    case Connected(id, _, _, _) => Some(Mark(Connecting, id))
    case _ => None
  }

  function Count(log: seq<Event>, m: Mark): nat {
    if log == [] then 0 else Count(log[..|log| - 1], m) + (if MarkOf(log[|log| - 1]) == Some(m) then 1 else 0)
  }

  /** The last event that completed a stage. */
  function Last(log: seq<Event>, m: Mark): Option<Event> {
    if log == [] then None
    else if MarkOf(log[|log| - 1]) == Some(m) then Some(log[|log| - 1])
    else Last(log[..|log| - 1], m)
  }

  function Final(w: World, actions: seq<Action>): System {
    if actions == [] then System(map[], []) else Step(w, Final(w, actions[..|actions| - 1]), actions[|actions| - 1]).0
  }

  function Log(w: World, actions: seq<Action>): (log: seq<Event>)
    ensures |log| == |actions|
  {
    if actions == [] then []
    else
      var init, a := actions[..|actions| - 1], actions[|actions| - 1];
      Log(w, init) + [Event(a, Step(w, Final(w, init), a).1)]
  }

  /** Random identifiers are not drawn twice, ordinary providers have ordinary names, and instants fit the clock. */
  predicate Admissible(log: seq<Event>, a: Action) {
    match a
    case Issue(_, _, _, _, _, resultId, _, _) => Count(log, Mark(Issuing, resultId)) == 0
    case IssueConnection(_, _, _, _, _, id, _, _) => Count(log, Mark(Linking, id)) == 0
    case OtherBegin(t) => t.purpose.Ordinary?
    case Take(_, v, _) => Representable(v)
    case _ => true
  }

  predicate AdmissibleRun(w: World, actions: seq<Action>) {
    forall i :: 0 <= i < |actions| ==> Admissible(Log(w, actions[..i]), actions[i])
  }

  lemma {:induction false} CountSnoc(log: seq<Event>, e: Event, m: Mark)
    ensures Count(log + [e], m) == Count(log, m) + (if MarkOf(e) == Some(m) then 1 else 0)
    ensures Last(log + [e], m) == if MarkOf(e) == Some(m) then Some(e) else Last(log, m)
  {
    assert (log + [e])[..|log|] == log;
  }

  lemma {:induction false} LastCounted(log: seq<Event>, m: Mark)
    ensures Last(log, m).Some? <==> Count(log, m) > 0
  {
    if log == [] {
    } else {
      LastCounted(log[..|log| - 1], m);
    }
  }

  lemma {:induction false} LastHappened(log: seq<Event>, m: Mark)
    requires Last(log, m).Some?
    ensures MarkOf(Last(log, m).value) == Some(m) && exists i :: 0 <= i < |log| && log[i] == Last(log, m).value
  {
    if MarkOf(log[|log| - 1]) != Some(m) {
      var init := log[..|log| - 1];
      LastHappened(init, m);
      var i :| 0 <= i < |init| && init[i] == Last(init, m).value;
      assert log[i] == init[i];
    }
  }

  // ----- What the log says about the system -----

  /** The handoff was issued, and this is the transaction of its publisher's ticket. */
  predicate Offered(w: World, log: seq<Event>, r: string, t: Transaction) {
    var issue := Last(log, Mark(Issuing, r));
    && issue.Some? && issue.value.action.Issue? && issue.value.action.resultId == r
    && PublisherTransaction(w, issue.value.action) == Some(t.(state := Pending))
  }

  /** The publisher presented this authentication, with the publisher's ticket and in time. */
  predicate Delivered(w: World, log: seq<Event>, r: string, v: Authentication) {
    var issue, take := Last(log, Mark(Issuing, r)), Last(log, Mark(Taking, r));
    && issue.Some? && issue.value.action.Issue? && take.Some? && take.value.action.Take?
    && var a, b := issue.value.action, take.value.action;
       && b.authentication == v && b.now < a.now + Lifetime(w)
       && var ticket := ParseTicket(b.ticket);
          ticket.Some? && ticket.value.id == a.publisherId && w.sha(ticket.value.secret).Some?
          && w.sha(ticket.value.secret) == w.sha(a.publisherSecret)
  }

  /** The result of a handoff holds an authentication published under the provider its issue named. */
  predicate Answered(w: World, log: seq<Event>, r: string, t: Transaction) {
    var issue, publish := Last(log, Mark(Issuing, r)), Last(log, Mark(Publishing, r));
    && issue.Some? && issue.value.action.Issue? && publish.Some? && publish.value.reply.Published?
    && var a, v := issue.value.action, publish.value.reply.authentication;
       && v.provider == a.provider && Representable(v) && Delivered(w, log, r, v)
       && w.sha(a.redeemSecret) == Some(t.nonce) && t.binding == NoBinding()
       && t.expiresAt == a.now + Lifetime(w) && t.metadata == ResultMetadata(v)
  }

  predicate Linked(w: World, log: seq<Event>, id: string, t: Transaction) {
    var link := Last(log, Mark(Linking, id));
    && link.Some? && link.value.action.IssueConnection?
    && ConnectionTransaction(w, link.value.action) == Some(t.(state := Pending))
  }

  /** The result a publisher's ticket stands for. */
  function Names(t: Transaction): string {
    if ResultId in t.metadata then t.metadata[ResultId] else ""
  }

  predicate PublisherOk(w: World, log: seq<Event>, t: Transaction) {
    ResultId in t.metadata && Offered(w, log, Names(t), t) && (t.state == Pending ==> Count(log, Mark(Taking, Names(t))) == 0)
  }

  predicate ResultOk(w: World, log: seq<Event>, t: Transaction) {
    && Answered(w, log, t.id, t) && Count(log, Mark(Publishing, t.id)) == 1
    && (t.state == Pending ==> Count(log, Mark(Redeeming, t.id)) == 0)
  }

  predicate ConnectionOk(w: World, log: seq<Event>, t: Transaction) {
    Linked(w, log, t.id, t) && (t.state == Pending ==> Count(log, Mark(Connecting, t.id)) == 0)
  }

  predicate TransactionOk(w: World, log: seq<Event>, t: Transaction) {
    match t.purpose
    case Publisher => PublisherOk(w, log, t)
    case Result => ResultOk(w, log, t)
    case Connection => ConnectionOk(w, log, t)
    case Ordinary(_) => true
  }

  predicate PublicationOk(w: World, log: seq<Event>, p: Publication) {
    && p.transaction.purpose == Publisher && ResultId in p.transaction.metadata
    && Representable(p.authentication)
    && var r := Names(p.transaction);
       && Offered(w, log, r, p.transaction)
       && p.authentication.provider == Last(log, Mark(Issuing, r)).value.action.provider
       && Some(p.redeem) == w.sha(Last(log, Mark(Issuing, r)).value.action.redeemSecret)
       && Delivered(w, log, r, p.authentication)
       && Count(log, Mark(Taking, r)) == 1 && Count(log, Mark(Publishing, r)) == 0
  }

  /** Every stage of a handoff happens at most once, and none before the one it needs. */
  predicate Ordered(log: seq<Event>, r: string) {
    && Count(log, Mark(Redeeming, r)) <= Count(log, Mark(Publishing, r)) <= Count(log, Mark(Taking, r)) <= Count(log, Mark(Issuing, r)) <= 1
    && Count(log, Mark(Connecting, r)) <= Count(log, Mark(Linking, r)) <= 1
  }

  ghost predicate StoreOk(w: World, store: Store, log: seq<Event>) {
    forall id <- store :: store[id].id == id && TransactionOk(w, log, store[id])
  }

  ghost predicate InflightOk(w: World, inflight: seq<Publication>, log: seq<Event>) {
    && (forall j :: 0 <= j < |inflight| ==> PublicationOk(w, log, inflight[j]))
    && (forall i, j :: 0 <= i < j < |inflight| ==> Names(inflight[i].transaction) != Names(inflight[j].transaction))
  }

  ghost predicate Inv(w: World, s: System, log: seq<Event>) {
    StoreOk(w, s.store, log) && InflightOk(w, s.inflight, log) && forall r :: Ordered(log, r)
  }

  // ----- Every step keeps it -----

  /** The event completes a stage that the account of this transaction depends on. */
  predicate Disturbs(e: Event, t: Transaction) {
    var m := MarkOf(e);
    m.Some? && match m.value.kind
    case Issuing => (t.purpose == Publisher && Names(t) == m.value.id) || (t.purpose == Result && t.id == m.value.id)
    case Taking => (t.purpose == Publisher && t.state == Pending && Names(t) == m.value.id) || (t.purpose == Result && t.id == m.value.id)
    case Publishing => t.purpose == Result && t.id == m.value.id
    case Redeeming => t.purpose == Result && t.state == Pending && t.id == m.value.id
    case Linking => t.purpose == Connection && t.id == m.value.id
    case Connecting => t.purpose == Connection && t.state == Pending && t.id == m.value.id
  }

  lemma {:induction false} Undisturbed(w: World, log: seq<Event>, e: Event, t: Transaction)
    requires TransactionOk(w, log, t) && !Disturbs(e, t)
    ensures TransactionOk(w, log + [e], t)
  {
    hide Count, Last, MarkOf, PublisherTransaction, ConnectionTransaction, ResultMetadata, NoBinding, ParseTicket;
    match t.purpose
    case Publisher =>
      CountSnoc(log, e, Mark(Issuing, Names(t)));
      CountSnoc(log, e, Mark(Taking, Names(t)));
    case Result =>
      CountSnoc(log, e, Mark(Issuing, t.id));
      CountSnoc(log, e, Mark(Taking, t.id));
      CountSnoc(log, e, Mark(Publishing, t.id));
      CountSnoc(log, e, Mark(Redeeming, t.id));
    case Connection =>
      CountSnoc(log, e, Mark(Linking, t.id));
      CountSnoc(log, e, Mark(Connecting, t.id));
    case Ordinary(_) =>
  }

  lemma {:induction false} StateChanged(w: World, log: seq<Event>, t: Transaction, state: TransactionState)
    requires TransactionOk(w, log, t) && (state == Pending ==> t.state == Pending)
    ensures TransactionOk(w, log, t.(state := state))
  {
    hide Count, Last, PublisherTransaction, ConnectionTransaction, ResultMetadata, NoBinding;
    assert t.(state := state).(state := Pending) == t.(state := Pending);
  }

  /** Consuming moves one transaction out of the pending state at most, which keeps every account true. */
  lemma {:induction false} StoreConsumed(w: World, store: Store, log: seq<Event>, id: string, secret: string, binding: Digest, now: int)
    requires StoreOk(w, store, log)
    ensures StoreOk(w, ConsumedFrom(w, store, id, secret, binding, now).0, log)
  {
    hide TransactionOk;
    if id in store {
      StateChanged(w, log, store[id], Presented(w, store[id], secret, binding, now).0);
    }
  }

  /** An event that disturbs no stored transaction leaves the whole store accounted for. */
  lemma {:induction false} StoreUndisturbed(w: World, store: Store, log: seq<Event>, e: Event)
    requires StoreOk(w, store, log) && forall id <- store :: !Disturbs(e, store[id])
    ensures StoreOk(w, store, log + [e])
  {
    hide TransactionOk, Disturbs;
    forall id | id in store ensures TransactionOk(w, log + [e], store[id]) {
      Undisturbed(w, log, e, store[id]);
    }
  }

  lemma {:induction false} PublicationUndisturbed(w: World, log: seq<Event>, e: Event, p: Publication)
    requires PublicationOk(w, log, p)
    requires forall k :: MarkOf(e) == Some(Mark(k, Names(p.transaction))) ==> k != Issuing && k != Taking && k != Publishing
    ensures PublicationOk(w, log + [e], p)
  {
    hide Count, Last, MarkOf, PublisherTransaction;
    var r := Names(p.transaction);
    CountSnoc(log, e, Mark(Issuing, r));
    CountSnoc(log, e, Mark(Taking, r));
    CountSnoc(log, e, Mark(Publishing, r));
  }

  lemma {:induction false} InflightUndisturbed(w: World, inflight: seq<Publication>, log: seq<Event>, e: Event)
    requires InflightOk(w, inflight, log)
    requires forall j, k :: 0 <= j < |inflight| && MarkOf(e) == Some(Mark(k, Names(inflight[j].transaction))) ==> k != Issuing && k != Taking && k != Publishing
    ensures InflightOk(w, inflight, log + [e])
  {
    hide MarkOf;
    forall j | 0 <= j < |inflight| ensures PublicationOk(w, log + [e], inflight[j]) {
      assert PublicationOk(w, log, inflight[j]);
      PublicationUndisturbed(w, log, e, inflight[j]);
    }
  }

  /** The count a stage needs before it may happen. */
  predicate Allowed(log: seq<Event>, m: Option<Mark>) {
    m.Some? ==>
      var r := m.value.id;
      match m.value.kind
      case Issuing => Count(log, Mark(Issuing, r)) == 0
      case Taking => Count(log, Mark(Issuing, r)) > 0 && Count(log, Mark(Taking, r)) == 0
      case Publishing => Count(log, Mark(Taking, r)) > 0 && Count(log, Mark(Publishing, r)) == 0
      case Redeeming => Count(log, Mark(Publishing, r)) > 0 && Count(log, Mark(Redeeming, r)) == 0
      case Linking => Count(log, Mark(Linking, r)) == 0
      case Connecting => Count(log, Mark(Linking, r)) > 0 && Count(log, Mark(Connecting, r)) == 0
  }

  lemma {:induction false} OrderKept(log: seq<Event>, e: Event, r: string)
    requires Ordered(log, r) && Allowed(log, MarkOf(e))
    ensures Ordered(log + [e], r)
  {
    hide Count, Last, MarkOf;
    CountSnoc(log, e, Mark(Issuing, r));
    CountSnoc(log, e, Mark(Taking, r));
    CountSnoc(log, e, Mark(Publishing, r));
    CountSnoc(log, e, Mark(Redeeming, r));
    CountSnoc(log, e, Mark(Linking, r));
    CountSnoc(log, e, Mark(Connecting, r));
  }

  /** An event that completes no stage, over a store that only lost transactions or consumed one. */
  lemma {:induction false} QuietStep(w: World, s: System, log: seq<Event>, e: Event)
    requires Inv(w, s, log) && MarkOf(e).None?
    ensures Inv(w, s, log + [e])
  {
    hide MarkOf, TransactionOk, PublicationOk, Ordered;
    StoreUndisturbed(w, s.store, log, e);
    InflightUndisturbed(w, s.inflight, log, e);
    forall r ensures Ordered(log + [e], r) {
      OrderKept(log, e, r);
    }
  }

  lemma {:induction false} IssueKeeps(w: World, s: System, log: seq<Event>, a: Action)
    requires Inv(w, s, log) && a.Issue? && Admissible(log, a)
    ensures Inv(w, Step(w, s, a).0, log + [Event(a, Step(w, s, a).1)])
  {
    hide TransactionOk, PublicationOk, Ordered, Count, Last;
    var (s', reply) := Step(w, s, a);
    var e := Event(a, reply);
    if reply == Refused {
      QuietStep(w, s, log, e);
    } else {
      var t := PublisherTransaction(w, a).value;
      var r := a.resultId;
      forall id | id in s.store ensures !Disturbs(e, s.store[id]) {
        IssueNew(w, log, e, s.store[id]);
      }
      StoreUndisturbed(w, s.store, log, e);
      IssueOffers(w, log, e);
      forall j | 0 <= j < |s.inflight| ensures Names(s.inflight[j].transaction) != r {
        InflightIssued(w, log, s.inflight[j]);
      }
      InflightUndisturbed(w, s.inflight, log, e);
      forall r ensures Ordered(log + [e], r) {
        OrderKept(log, e, r);
      }
    }
  }

  lemma {:induction false} IssueNew(w: World, log: seq<Event>, e: Event, t: Transaction)
    requires TransactionOk(w, log, t) && MarkOf(e).Some? && MarkOf(e).value.kind == Issuing && Count(log, MarkOf(e).value) == 0
    ensures !Disturbs(e, t)
  {
    hide Count, Last, MarkOf;
    LastCounted(log, MarkOf(e).value);
  }

  lemma {:induction false} IssueOffers(w: World, log: seq<Event>, e: Event)
    requires e.action.Issue? && e.reply.Issued? && PublisherTransaction(w, e.action).Some?
    requires Count(log, Mark(Issuing, e.action.resultId)) == 0 && Ordered(log, e.action.resultId)
    ensures TransactionOk(w, log + [e], PublisherTransaction(w, e.action).value)
  {
    hide Count, Last, Encoding.HexText;
    CountSnoc(log, e, Mark(Issuing, e.action.resultId));
    CountSnoc(log, e, Mark(Taking, e.action.resultId));
  }

  lemma {:induction false} InflightIssued(w: World, log: seq<Event>, p: Publication)
    requires PublicationOk(w, log, p)
    ensures Count(log, Mark(Issuing, Names(p.transaction))) > 0
  {
    hide Count, Last;
    LastCounted(log, Mark(Issuing, Names(p.transaction)));
  }

  lemma {:induction false} DigestRoundTrip(d: Digest)
    ensures ParseDigestHex(Encoding.HexText(d)) == Some(d)
  {
    Encoding.HexRoundTrip(d);
  }

  lemma {:induction false} TakeKeeps(w: World, s: System, log: seq<Event>, a: Action)
    requires Inv(w, s, log) && a.Take? && Admissible(log, a)
    ensures Inv(w, Step(w, s, a).0, log + [Event(a, Step(w, s, a).1)])
  {
    hide TransactionOk, PublicationOk, Ordered, Count, Last, ParseTicket, Presented, NoBinding, Publishable;
    var (s', reply) := Step(w, s, a);
    var e := Event(a, reply);
    var ticket := ParseTicket(a.ticket);
    if ticket.None? {
      QuietStep(w, s, log, e);
    } else {
      var id := ticket.value.id;
      StoreConsumed(w, s.store, log, id, ticket.value.secret, NoBinding(), a.now);
      if reply == Refused {
        QuietStep(w, s', log, e);
      } else {
        TakenTicket(w, s, log, id, ticket.value.secret, a.authentication, a.now);
        var t := s'.store[id];
        var r := Names(t);
        forall id' | id' in s'.store ensures !Disturbs(e, s'.store[id']) {
          if s'.store[id'].purpose == Publisher && Names(s'.store[id']) == r {
            SameTicket(w, log, t, s'.store[id']);
          }
          if s'.store[id'].purpose == Result {
            ResultTaken(w, log, s'.store[id']);
          }
        }
        StoreUndisturbed(w, s'.store, log, e);
        forall j | 0 <= j < |s.inflight| ensures Names(s.inflight[j].transaction) != r {
          InflightTaken(w, log, s.inflight[j]);
        }
        InflightUndisturbed(w, s.inflight, log, e);
        PublicationMade(w, log, e, s.store[id], a.authentication, ticket.value);
        forall r ensures Ordered(log + [e], r) {
          OrderKept(log, e, r);
        }
      }
    }
  }

  /** A publisher's ticket that is accepted was still pending. */
  lemma {:induction false} TakenTicket(w: World, s: System, log: seq<Event>, id: string, secret: string, v: Authentication, now: int)
    requires StoreOk(w, s.store, log)
    requires var t := ConsumedFrom(w, s.store, id, secret, NoBinding(), now).1; t.Some? && Publishable(t.value, v).Some?
    ensures s.store[id].state == Pending && s.store[id].purpose == Publisher && s.store[id].id == id
    ensures PublisherOk(w, log, s.store[id]) && Names(s.store[id]) == s.store[id].metadata[ResultId]
    ensures Count(log, Mark(Issuing, Names(s.store[id]))) > 0 && Count(log, Mark(Taking, Names(s.store[id]))) == 0
    ensures var after := s.store[id].(state := Consumed);
      && ConsumedFrom(w, s.store, id, secret, NoBinding(), now) == (s.store[id := after], Some(after))
      && Publishable(after, v).value.transaction == after
    ensures w.sha(secret) == Some(s.store[id].nonce) && now < s.store[id].expiresAt
  {
    hide Count, Last, NoBinding, PublisherTransaction;
    var r := Names(s.store[id]);
    assert TransactionOk(w, log, s.store[id]);
    LastCounted(log, Mark(Issuing, r));
  }

  lemma {:induction false} SameTicket(w: World, log: seq<Event>, t: Transaction, u: Transaction)
    requires TransactionOk(w, log, t) && TransactionOk(w, log, u) && t.purpose == Publisher == u.purpose && Names(t) == Names(u)
    ensures t.id == u.id
  {
    hide Count, Last, PublisherTransaction;
  }

  lemma {:induction false} ResultTaken(w: World, log: seq<Event>, t: Transaction)
    requires TransactionOk(w, log, t) && t.purpose == Result
    ensures Count(log, Mark(Taking, t.id)) > 0
  {
    hide Count, Last, ParseTicket, ResultMetadata, NoBinding;
    LastCounted(log, Mark(Taking, t.id));
  }

  lemma {:induction false} InflightTaken(w: World, log: seq<Event>, p: Publication)
    requires PublicationOk(w, log, p)
    ensures Count(log, Mark(Taking, Names(p.transaction))) == 1 && Count(log, Mark(Publishing, Names(p.transaction))) == 0
  {
    hide Count, Last;
  }

  lemma {:induction false} PublicationMade(w: World, log: seq<Event>, e: Event, before: Transaction, v: Authentication, ticket: Ticket)
    requires e.action.Take? && e.action.authentication == v && ParseTicket(e.action.ticket) == Some(ticket)
    requires ticket.id == before.id && w.sha(ticket.secret) == Some(before.nonce) && e.action.now < before.expiresAt
    requires PublisherOk(w, log, before) && before.purpose == Publisher && before.state == Pending && Representable(v)
    requires Ordered(log, Names(before)) && MarkOf(e) == Some(Mark(Taking, Names(before)))
    requires Publishable(before.(state := Consumed), v).Some?
    ensures PublicationOk(w, log + [e], Publishable(before.(state := Consumed), v).value)
  {
    hide Count, Last, MarkOf, ParseDigestHex, Encoding.HexText, ParseTicket;
    var r := Names(before);
    CountSnoc(log, e, Mark(Issuing, r));
    CountSnoc(log, e, Mark(Taking, r));
    CountSnoc(log, e, Mark(Publishing, r));
    var issue := Last(log, Mark(Issuing, r)).value.action;
    DigestRoundTrip(w.sha(issue.redeemSecret).value);
  }

  lemma {:induction false} PublishKeeps(w: World, s: System, log: seq<Event>, a: Action)
    requires Inv(w, s, log) && a.Publish?
    ensures Inv(w, Step(w, s, a).0, log + [Event(a, Step(w, s, a).1)])
  {
    hide TransactionOk, PublicationOk, Ordered, Count, Last, NoBinding, ResultTransaction;
    var (s', reply) := Step(w, s, a);
    var e := Event(a, reply);
    if reply == Refused {
      QuietStep(w, s', log, e);
    } else {
      var p := s.inflight[a.index];
      var t := ResultTransaction(p, a.now).value;
      PublishedAs(w, log, e, p, a.now);
      StoreUndisturbed(w, s.store, log, e);
      InflightUndisturbed(w, s'.inflight, log, e);
      forall r ensures Ordered(log + [e], r) {
        OrderKept(log, e, r);
      }
    }
  }

  lemma {:induction false} PublishedAs(w: World, log: seq<Event>, e: Event, p: Publication, now: int)
    requires PublicationOk(w, log, p) && Ordered(log, Names(p.transaction))
    requires ResultId in p.transaction.metadata && ResultTransaction(p, now).Some?
    requires e.reply == Published(ResultTransaction(p, now).value.id, p.authentication)
    ensures ResultTransaction(p, now).value.id == Names(p.transaction) && ResultTransaction(p, now).value.purpose == Result
    ensures TransactionOk(w, log + [e], ResultTransaction(p, now).value)
    ensures Allowed(log, MarkOf(e))
  {
    hide Count, Last, NoBinding, ResultMetadata, ParseTicket;
    var r := Names(p.transaction);
    CountSnoc(log, e, Mark(Issuing, r));
    CountSnoc(log, e, Mark(Taking, r));
    CountSnoc(log, e, Mark(Publishing, r));
    CountSnoc(log, e, Mark(Redeeming, r));
  }

  lemma {:induction false} RedeemKeeps(w: World, s: System, log: seq<Event>, a: Action)
    requires Inv(w, s, log) && a.Redeem?
    ensures Inv(w, Step(w, s, a).0, log + [Event(a, Step(w, s, a).1)])
  {
    hide TransactionOk, PublicationOk, Ordered, Count, Last, ParseTicket, Presented, NoBinding, Redeemable;
    var (s', reply) := Step(w, s, a);
    var e := Event(a, reply);
    var ticket := ParseTicket(a.ticket);
    if ticket.None? {
      QuietStep(w, s, log, e);
    } else {
      StoreConsumed(w, s.store, log, ticket.value.id, ticket.value.secret, NoBinding(), a.now);
      if reply == Refused {
        QuietStep(w, s', log, e);
      } else {
        RedeemedTicket(w, s, log, ticket.value.id, ticket.value.secret, a.checks, a.now);
        StoreUndisturbed(w, s'.store, log, e);
        InflightUndisturbed(w, s.inflight, log, e);
        forall r ensures Ordered(log + [e], r) {
          OrderKept(log, e, r);
        }
      }
    }
  }

  /** A ticket that redeems was pending, in time, and of a published result: the authentication it yields is the one published. */
  lemma {:induction false} RedeemedTicket(w: World, s: System, log: seq<Event>, id: string, secret: string, c: Checks, now: int)
    requires StoreOk(w, s.store, log)
    requires var t := ConsumedFrom(w, s.store, id, secret, NoBinding(), now).1; t.Some? && Redeemable(t.value, c).Some?
    ensures var t := s.store[id];
      && t.id == id && t.state == Pending && t.purpose == Result && now < t.expiresAt && w.sha(secret) == Some(t.nonce)
      && Answered(w, log, id, t) && Count(log, Mark(Publishing, id)) == 1 && Count(log, Mark(Redeeming, id)) == 0
    ensures ConsumedFrom(w, s.store, id, secret, NoBinding(), now).0[id].state == Consumed
    ensures Redeemable(ConsumedFrom(w, s.store, id, secret, NoBinding(), now).1.value, c) == Some(Last(log, Mark(Publishing, id)).value.reply.authentication)
  {
    hide Count, Last, NoBinding, ResultMetadata, ReadResult;
    assert TransactionOk(w, log, s.store[id]);
    ResultRoundTrip(Last(log, Mark(Publishing, id)).value.reply.authentication);
  }

  lemma {:induction false} IssueConnectionKeeps(w: World, s: System, log: seq<Event>, a: Action)
    requires Inv(w, s, log) && a.IssueConnection? && Admissible(log, a)
    ensures Inv(w, Step(w, s, a).0, log + [Event(a, Step(w, s, a).1)])
  {
    hide TransactionOk, PublicationOk, Ordered, Count, Last;
    var (s', reply) := Step(w, s, a);
    var e := Event(a, reply);
    if reply == Refused {
      QuietStep(w, s, log, e);
    } else {
      StoreUndisturbed(w, s.store, log, e);
      LinkMade(w, log, e);
      InflightUndisturbed(w, s.inflight, log, e);
      forall r ensures Ordered(log + [e], r) {
        OrderKept(log, e, r);
      }
    }
  }

  lemma {:induction false} LinkMade(w: World, log: seq<Event>, e: Event)
    requires e.action.IssueConnection? && e.reply.ConnectionIssued? && ConnectionTransaction(w, e.action).Some?
    requires Count(log, Mark(Linking, e.action.id)) == 0 && Ordered(log, e.action.id)
    ensures TransactionOk(w, log + [e], ConnectionTransaction(w, e.action).value)
  {
    hide Count, Last;
    CountSnoc(log, e, Mark(Linking, e.action.id));
    CountSnoc(log, e, Mark(Connecting, e.action.id));
  }

  lemma {:induction false} ConsumeConnectionKeeps(w: World, s: System, log: seq<Event>, a: Action)
    requires Inv(w, s, log) && a.ConsumeConnection?
    ensures Inv(w, Step(w, s, a).0, log + [Event(a, Step(w, s, a).1)])
  {
    hide TransactionOk, PublicationOk, Ordered, Count, Last, ParseTicket, Presented, NoBinding;
    var (s', reply) := Step(w, s, a);
    var e := Event(a, reply);
    var ticket := ParseTicket(a.ticket);
    if ticket.None? {
      QuietStep(w, s, log, e);
    } else {
      StoreConsumed(w, s.store, log, ticket.value.id, ticket.value.secret, NoBinding(), a.now);
      if reply == Refused {
        QuietStep(w, s', log, e);
      } else {
        ConnectedTicket(w, s, log, ticket.value.id, ticket.value.secret, a.active, a.now);
        StoreUndisturbed(w, s'.store, log, e);
        InflightUndisturbed(w, s.inflight, log, e);
        forall r ensures Ordered(log + [e], r) {
          OrderKept(log, e, r);
        }
      }
    }
  }

  /** A connection ticket that is accepted was pending and in time, and leads where it was issued to lead. */
  lemma {:induction false} ConnectedTicket(w: World, s: System, log: seq<Event>, id: string, secret: string, active: bool, now: int)
    requires StoreOk(w, s.store, log)
    requires var t := ConsumedFrom(w, s.store, id, secret, NoBinding(), now).1; t.Some? && ConnectionTarget(t.value, active).Connected?
    ensures var t := s.store[id];
      && t.id == id && t.state == Pending && t.purpose == Connection && now < t.expiresAt && w.sha(secret) == Some(t.nonce)
      && Linked(w, log, id, t) && Count(log, Mark(Linking, id)) > 0 && Count(log, Mark(Connecting, id)) == 0
    ensures ConsumedFrom(w, s.store, id, secret, NoBinding(), now).0[id].state == Consumed
    ensures var link := Last(log, Mark(Linking, id)).value.action;
      ConnectionTarget(ConsumedFrom(w, s.store, id, secret, NoBinding(), now).1.value, active)
      == Connected(id, link.identity, link.provider, link.returnTarget)
  {
    hide Count, Last, NoBinding;
    assert TransactionOk(w, log, s.store[id]);
    LastCounted(log, Mark(Linking, id));
  }

  lemma {:induction false} OtherKeeps(w: World, s: System, log: seq<Event>, a: Action)
    requires Inv(w, s, log) && (a.OtherBegin? || a.OtherConsume? || a.Purge?) && Admissible(log, a)
    ensures Inv(w, Step(w, s, a).0, log + [Event(a, Step(w, s, a).1)])
  {
    hide PublicationOk, Ordered, Count, Last, Presented, PublisherOk, ResultOk, ConnectionOk;
    var (s', reply) := Step(w, s, a);
    if a.OtherConsume? {
      StoreConsumed(w, s.store, log, a.id, a.secret, a.binding, a.now);
    }
    QuietStep(w, s', log, Event(a, reply));
  }

  lemma {:induction false} StepKeepsInv(w: World, s: System, log: seq<Event>, a: Action)
    requires Inv(w, s, log) && Admissible(log, a)
    ensures Inv(w, Step(w, s, a).0, log + [Event(a, Step(w, s, a).1)])
  {
    hide Inv, Step, Admissible;
    match a
    case Issue(_, _, _, _, _, _, _, _) => IssueKeeps(w, s, log, a);
    case Take(_, _, _) => TakeKeeps(w, s, log, a);
    case Publish(_, _) => PublishKeeps(w, s, log, a);
    case Redeem(_, _, _) => RedeemKeeps(w, s, log, a);
    case IssueConnection(_, _, _, _, _, _, _, _) => IssueConnectionKeeps(w, s, log, a);
    case ConsumeConnection(_, _, _) => ConsumeConnectionKeeps(w, s, log, a);
    case _ => OtherKeeps(w, s, log, a);
  }

  lemma {:induction false} RunKeepsInv(w: World, actions: seq<Action>)
    requires AdmissibleRun(w, actions)
    ensures Inv(w, Final(w, actions), Log(w, actions))
  {
    hide Step, Admissible;
    if actions == [] {
    } else {
      var init := actions[..|actions| - 1];
      assert forall i :: 0 <= i < |init| ==> init[..i] == actions[..i];
      RunKeepsInv(w, init);
      StepKeepsInv(w, Final(w, init), Log(w, init), actions[|actions| - 1]);
    }
  }

  // ----- What a run promises -----

  /** In every run each handoff is issued, taken, published and redeemed at most once, and no stage outruns the one before it. */
  lemma {:induction false} StagesHappenOnce(w: World, actions: seq<Action>, r: string)
    requires AdmissibleRun(w, actions)
    ensures Ordered(Log(w, actions), r)
  {
    hide Step, Admissible, Ordered;
    RunKeepsInv(w, actions);
  }

  lemma {:induction false} LogPrefix(w: World, actions: seq<Action>, i: nat)
    requires i <= |actions|
    ensures Log(w, actions)[..i] == Log(w, actions[..i])
    ensures i < |actions| ==> Log(w, actions)[i] == Event(actions[i], Step(w, Final(w, actions[..i]), actions[i]).1)
  {
    hide Step;
    if i < |actions| {
      var init := actions[..|actions| - 1];
      LogPrefix(w, init, i);
      assert init[..i] == actions[..i];
      assert i < |init| ==> Log(w, actions)[i] == Log(w, init)[i];
    } else {
      assert actions[..i] == actions;
    }
  }

  lemma {:induction false} AdmissiblePrefix(w: World, actions: seq<Action>, i: nat)
    requires AdmissibleRun(w, actions) && i <= |actions|
    ensures AdmissibleRun(w, actions[..i])
  {
    hide Step, Admissible, Log;
    assert forall j :: 0 <= j < i ==> actions[..i][..j] == actions[..j];
  }

  lemma {:induction false} OnlyMark(log: seq<Event>, m: Mark, i: nat)
    requires i < |log| && MarkOf(log[i]) == Some(m) && Count(log, m) <= 1
    ensures Last(log, m) == Some(log[i]) && Count(log, m) == 1
  {
    if i < |log| - 1 {
      var init := log[..|log| - 1];
      OnlyMark(init, m, i);
      LastCounted(init, m);
    } else {
      LastCounted(log, m);
    }
  }

  /** The stage that another one needs. */
  predicate Needs(later: Kind, earlier: Kind) {
    (later == Taking && earlier == Issuing) || (later == Publishing && earlier == Taking)
  }

  /** A stage follows the one it needs. */
  lemma {:induction false} StageFollows(w: World, actions: seq<Action>, p: nat, r: string, later: Kind, earlier: Kind) returns (h: nat)
    requires AdmissibleRun(w, actions) && Needs(later, earlier) && p < |actions| && MarkOf(Log(w, actions)[p]) == Some(Mark(later, r))
    ensures h < p && Last(Log(w, actions), Mark(earlier, r)) == Some(Log(w, actions)[h])
  {
    hide Step, Admissible, Log, Count, Last, MarkOf;
    AdmissiblePrefix(w, actions, p + 1);
    var log, early := Log(w, actions), Log(w, actions[..p + 1]);
    StagesHappenOnce(w, actions[..p + 1], r);
    StagesHappenOnce(w, actions, r);
    LogPrefix(w, actions, p + 1);
    assert early[p] == log[p];
    OnlyMark(early, Mark(later, r), p);
    LastCounted(early, Mark(earlier, r));
    LastHappened(early, Mark(earlier, r));
    h :| 0 <= h < |early| && early[h] == Last(early, Mark(earlier, r)).value;
    assert log[h] == early[h];
    OnlyMark(log, Mark(earlier, r), h);
  }

  /** The handoff was issued here, for this provider, and had not expired at `now`. */
  predicate IssuedAt(w: World, log: seq<Event>, h: nat, r: string, provider: string, secret: string, now: int) {
    && h < |log| && log[h].reply == Issued && log[h].action.Issue? && log[h].action.resultId == r
    && log[h].action.provider == provider && now < log[h].action.now + Lifetime(w)
    && w.sha(log[h].action.redeemSecret).Some? && w.sha(secret) == w.sha(log[h].action.redeemSecret)
  }

  /** The publisher's ticket of the issue at `h` was presented here, with this authentication, and consumed. */
  predicate TakenAt(w: World, log: seq<Event>, k: nat, r: string, v: Authentication, h: nat)
    requires h < |log| && log[h].action.Issue?
  {
    && k < |log| && log[k].reply == Taken(r) && log[k].action.Take? && log[k].action.authentication == v
    && var ticket := ParseTicket(log[k].action.ticket);
       ticket.Some? && ticket.value.id == log[h].action.publisherId
       && w.sha(ticket.value.secret).Some? && w.sha(ticket.value.secret) == w.sha(log[h].action.publisherSecret)
  }

  /**
   The events behind a redemption: an issue that named the provider, then the
   presentation of this very authentication with the publisher's ticket, then the
   storing of the result.
   */
  ghost predicate Behind(w: World, log: seq<Event>, r: string, v: Authentication, secret: string, now: int, h: nat, k: nat, p: nat) {
    && h < k < p < |log|
    && IssuedAt(w, log, h, r, v.provider, secret, now) && TakenAt(w, log, k, r, v, h) && log[p].reply == Published(r, v)
  }

  /** A redemption returns exactly what the publisher presented, once, in time, to a ticket whose secret has the digest fixed at issue. */
  lemma {:induction false} RedemptionIsGenuine(w: World, actions: seq<Action>, i: nat)
    requires AdmissibleRun(w, actions) && i < |actions| && Log(w, actions)[i].reply.Redeemed?
    ensures var log := Log(w, actions);
      && actions[i].Redeem? && ParseTicket(actions[i].ticket).Some? && ParseTicket(actions[i].ticket).value.id == log[i].reply.resultId
      && Count(log[..i], Mark(Redeeming, log[i].reply.resultId)) == 0
      && Count(log[..i], Mark(Publishing, log[i].reply.resultId)) == 1
      && exists h, k, p :: Behind(w, log[..i], log[i].reply.resultId, log[i].reply.authentication,
                                  ParseTicket(actions[i].ticket).value.secret, actions[i].now, h, k, p)
  {
    hide Admissible, Log, Count, Last, Final, ParseTicket, Presented, NoBinding, TransactionOk, PublicationOk, Ordered, ResultMetadata;
    LogPrefix(w, actions, i);
    AdmissiblePrefix(w, actions, i);
    RunKeepsInv(w, actions[..i]);
    var s, log := Final(w, actions[..i]), Log(w, actions[..i]);
    RedeemAnswer(w, s, actions[i]);
    var ticket := ParseTicket(actions[i].ticket).value;
    RedeemedTicket(w, s, log, ticket.id, ticket.secret, actions[i].checks, actions[i].now);
    LastHappened(log, Mark(Publishing, ticket.id));
    var p: nat :| p < |log| && log[p] == Last(log, Mark(Publishing, ticket.id)).value;
    var k := StageFollows(w, actions[..i], p, ticket.id, Publishing, Taking);
    LastHappened(log, Mark(Taking, ticket.id));
    var h := StageFollows(w, actions[..i], k, ticket.id, Taking, Issuing);
    LastHappened(log, Mark(Issuing, ticket.id));
    assert Behind(w, log, ticket.id, log[p].reply.authentication, ticket.secret, actions[i].now, h, k, p);
  }

  /** Only a redemption is answered with an authentication. */
  lemma {:induction false} RedeemAnswer(w: World, s: System, a: Action)
    requires Step(w, s, a).1.Redeemed?
    ensures a.Redeem? && ParseTicket(a.ticket).Some?
    ensures var ticket := ParseTicket(a.ticket).value;
      var t := ConsumedFrom(w, s.store, ticket.id, ticket.secret, NoBinding(), a.now).1;
      t.Some? && Redeemable(t.value, a.checks).Some? && Step(w, s, a).1 == Redeemed(ticket.id, Redeemable(t.value, a.checks).value)
  {
    hide ParseTicket, ConsumedFrom, NoBinding, Redeemable;
  }

  /** A ticket of one purpose yields nothing at an endpoint of another, and is spent by trying. */
  lemma {:induction false} WrongEndpoint(w: World, s: System, text: string, v: Authentication, checks: Checks, active: bool, now: int)
    requires ParseTicket(text).Some? && ParseTicket(text).value.id in s.store
    ensures var id := ParseTicket(text).value.id;
      var purpose := s.store[id].purpose;
      && (purpose != Publisher ==> Spent(Step(w, s, Take(text, v, now)), id) && Step(w, s, Take(text, v, now)).0.inflight == s.inflight)
      && (purpose != Result ==> Spent(Step(w, s, Redeem(text, checks, now)), id))
      && (purpose != Connection ==> Spent(Step(w, s, ConsumeConnection(text, active, now)), id))
  {
    hide ParseTicket, NoBinding;
  }

  predicate Spent(outcome: (System, Reply), id: string) {
    outcome.1 == Refused && id in outcome.0.store && outcome.0.store[id].state != Pending
  }

  /** Exactly when a ticket redeems, in any reachable state. */
  lemma {:induction false} RedeemExactly(w: World, s: System, log: seq<Event>, text: string, c: Checks, now: int)
    requires Inv(w, s, log)
    ensures var ticket := ParseTicket(text);
      Step(w, s, Redeem(text, c, now)).1.Redeemed? <==>
      && ticket.Some? && ticket.value.id in s.store
      && var t := s.store[ticket.value.id];
         && t.purpose == Result && t.state == Pending && now < t.expiresAt && w.sha(ticket.value.secret) == Some(t.nonce)
         && var take := Last(log, Mark(Taking, t.id));
            && take.Some? && take.value.action.Take?
            && var v := take.value.action.authentication;
               && v.factors <= 7 && v.verifiedAt >= 0 && v.provider != "" && v.subject != ""
               && c.trusted && c.active && c.owned
  {
    hide ParseTicket, NoBinding, ResultMetadata, ReadResult, Count, Last, Ordered, PublicationOk;
    var ticket := ParseTicket(text);
    if ticket.Some? && ticket.value.id in s.store {
      var t := s.store[ticket.value.id];
      assert TransactionOk(w, log, t);
      if t.purpose == Result {
        ResultRoundTrip(Last(log, Mark(Publishing, t.id)).value.reply.authentication);
      }
    }
  }

  /** Exactly when a handoff is issued. */
  lemma {:induction false} IssueExactly(w: World, s: System, a: Action)
    requires a.Issue?
    ensures Step(w, s, a).1 == Issued <==>
      && a.provider != "" && a.correlation != "" && a.available && w.maximumLifetime > 0
      && a.publisherId != "" && a.publisherSecret != "" && a.publisherId !in s.store
      && w.sha(a.publisherSecret).Some? && w.sha(a.redeemSecret).Some?
    ensures Step(w, s, a).1 != Issued ==> Step(w, s, a) == (s, Refused)
  {
    hide NoBinding, Encoding.HexText;
  }

  /** Exactly when a connection handoff is issued. */
  lemma {:induction false} IssueConnectionExactly(w: World, s: System, a: Action)
    requires a.IssueConnection?
    ensures Step(w, s, a).1 == ConnectionIssued <==>
      && a.identity != "" && a.provider != "" && 0 < |a.returnTarget| <= 2048 && a.correlation != "" && a.active && w.maximumLifetime > 0
      && a.id != "" && a.secret != "" && a.id !in s.store && w.sha(a.secret).Some?
    ensures Step(w, s, a).1 != ConnectionIssued ==> Step(w, s, a) == (s, Refused)
  {
    hide NoBinding;
  }

  /** Exactly when a publisher's ticket is taken, in any reachable state. */
  lemma {:induction false} TakeExactly(w: World, s: System, log: seq<Event>, text: string, v: Authentication, now: int)
    requires Inv(w, s, log)
    ensures var ticket := ParseTicket(text);
      Step(w, s, Take(text, v, now)).1.Taken? <==>
      && ticket.Some? && ticket.value.id in s.store
      && var t := s.store[ticket.value.id];
         && t.purpose == Publisher && t.state == Pending && now < t.expiresAt && w.sha(ticket.value.secret) == Some(t.nonce)
         && Names(t) != ""
         && var issue := Last(log, Mark(Issuing, Names(t)));
            issue.Some? && issue.value.action.Issue? && v.provider == issue.value.action.provider
  {
    hide ParseTicket, NoBinding, Count, Last, Ordered, PublicationOk, ParseDigestHex, Encoding.HexText;
    var ticket := ParseTicket(text);
    if ticket.Some? && ticket.value.id in s.store {
      var t := s.store[ticket.value.id];
      assert TransactionOk(w, log, t);
      if t.purpose == Publisher {
        DigestRoundTrip(w.sha(Last(log, Mark(Issuing, Names(t))).value.action.redeemSecret).value);
      }
    }
  }

  /** Exactly when a connection ticket leads somewhere, in any reachable state. */
  lemma {:induction false} ConnectExactly(w: World, s: System, log: seq<Event>, text: string, active: bool, now: int)
    requires Inv(w, s, log)
    ensures var ticket := ParseTicket(text);
      Step(w, s, ConsumeConnection(text, active, now)).1.Connected? <==>
      && ticket.Some? && ticket.value.id in s.store && active
      && var t := s.store[ticket.value.id];
         t.purpose == Connection && t.state == Pending && now < t.expiresAt && w.sha(ticket.value.secret) == Some(t.nonce)
  {
    hide ParseTicket, NoBinding, Count, Last, Ordered, PublicationOk;
    var ticket := ParseTicket(text);
    if ticket.Some? && ticket.value.id in s.store {
      assert TransactionOk(w, log, s.store[ticket.value.id]);
    }
  }

  // ----- A handoff that nobody disturbs goes through -----

  /** Publishing as one call: both steps, one after the other. */
  function PublishNow(w: World, s: System, text: string, v: Authentication, taken: int, stored: int): (System, Reply) {
    var (s', reply) := Step(w, s, Take(text, v, taken));
    if reply.Taken? then Step(w, s', Publish(|s'.inflight| - 1, stored)) else (s', reply)
  }

  function Run(w: World, s: System, actions: seq<Action>): System {
    if actions == [] then s else Step(w, Run(w, s, actions[..|actions| - 1]), actions[|actions| - 1]).0
  }

  /** The two identifiers of a handoff and its deadline. */
  datatype Marks = Marks(publisher: string, result: string, deadline: int)

  predicate Foreign(h: Marks, id: string) { id != h.publisher && id != h.result }

  predicate ForeignTicket(h: Marks, text: string) {
    ParseTicket(text).Some? ==> Foreign(h, ParseTicket(text).value.id)
  }

  /** The action draws neither identifier, presents neither ticket, does not store this result, and purges nothing before the deadline. */
  predicate Aside(h: Marks, s: System, a: Action) {
    match a
    case Issue(_, _, _, publisherId, _, resultId, _, _) => Foreign(h, publisherId) && Foreign(h, resultId)
    case IssueConnection(_, _, _, _, _, id, _, _) => Foreign(h, id)
    case OtherBegin(t) => t.purpose.Ordinary? && Foreign(h, t.id)
    case Take(text, _, _) => ForeignTicket(h, text)
    case Redeem(text, _, _) => ForeignTicket(h, text)
    case ConsumeConnection(text, _, _) => ForeignTicket(h, text)
    case OtherConsume(id, _, _, _) => Foreign(h, id)
    case Publish(index, _) => index < |s.inflight| ==> Names(s.inflight[index].transaction) != h.result
    case Purge(now) => now < h.deadline
  }

  predicate AsideRun(w: World, h: Marks, s: System, actions: seq<Action>) {
    forall k :: 0 <= k < |actions| ==> Aside(h, Run(w, s, actions[..k]), actions[k])
  }

  /** The result is not stored, and no pending ticket stands for it but, perhaps, its owner. */
  predicate Unclaimed(r: string, s: System, owner: Option<string>) {
    && r !in s.store
    && (forall id <- s.store :: s.store[id].purpose == Publisher && s.store[id].state == Pending && Names(s.store[id]) == r ==> owner == Some(id))
  }

  /** The publisher's ticket waits to be presented. */
  predicate Offering(h: Marks, s: System, t: Transaction) {
    && Unclaimed(h.result, s, Some(h.publisher)) && h.publisher in s.store && s.store[h.publisher] == t && t.expiresAt == h.deadline
    && (forall q <- s.inflight :: Names(q.transaction) != h.result)
  }

  /** The publication waits for its result to be stored. */
  predicate Carrying(h: Marks, s: System, p: Publication) {
    && Unclaimed(h.result, s, None) && p in s.inflight && Names(p.transaction) == h.result
    && (forall q <- s.inflight :: Names(q.transaction) == h.result ==> q == p)
  }

  /** The result waits to be redeemed. */
  predicate Holding(h: Marks, s: System, u: Transaction) {
    h.result in s.store && s.store[h.result] == u && u.expiresAt == h.deadline
  }

  lemma {:induction false} UnclaimedStep(w: World, h: Marks, s: System, a: Action, owner: Option<string>)
    requires Unclaimed(h.result, s, owner) && Aside(h, s, a)
    ensures Unclaimed(h.result, Step(w, s, a).0, owner)
  {
    hide ParseTicket, NoBinding, Encoding.HexText, ResultMetadata;
  }

  lemma {:induction false} OfferingStep(w: World, h: Marks, s: System, a: Action, t: Transaction)
    requires Offering(h, s, t) && Aside(h, s, a)
    ensures Offering(h, Step(w, s, a).0, t)
  {
    hide ParseTicket, NoBinding, Encoding.HexText, ResultMetadata, Unclaimed, ParseDigestHex;
    UnclaimedStep(w, h, s, a, Some(h.publisher));
    if a.Take? {
      ForeignTake(w, h, s, a, Some(h.publisher));
    }
  }

  /** A foreign ticket does not bring in a publication of this result. */
  lemma {:induction false} ForeignTake(w: World, h: Marks, s: System, a: Action, owner: Option<string>)
    requires Unclaimed(h.result, s, owner) && (owner == None || owner == Some(h.publisher)) && a.Take? && Aside(h, s, a)
    ensures var s' := Step(w, s, a).0;
      s'.inflight == s.inflight || (|s'.inflight| > 0 && s'.inflight == s.inflight + [s'.inflight[|s'.inflight| - 1]]
                                    && Names(s'.inflight[|s'.inflight| - 1].transaction) != h.result)
  {
    hide ParseTicket, NoBinding, ParseDigestHex;
  }

  lemma {:induction false} CarryingStep(w: World, h: Marks, s: System, a: Action, p: Publication)
    requires Carrying(h, s, p) && Aside(h, s, a)
    ensures Carrying(h, Step(w, s, a).0, p)
  {
    hide ParseTicket, NoBinding, Encoding.HexText, ResultMetadata, Unclaimed, ParseDigestHex;
    UnclaimedStep(w, h, s, a, None);
    if a.Take? {
      ForeignTake(w, h, s, a, None);
    }
    if a.Publish? && a.index < |s.inflight| {
      RestKeeps(s.inflight, a.index, p);
    }
  }

  lemma {:induction false} RestKeeps(inflight: seq<Publication>, index: nat, p: Publication)
    requires index < |inflight| && p in inflight && inflight[index] != p
    ensures p in inflight[..index] + inflight[index + 1..]
  {
    var j :| 0 <= j < |inflight| && inflight[j] == p;
    var rest := inflight[..index] + inflight[index + 1..];
    assert rest[if j < index then j else j - 1] == p;
  }

  lemma {:induction false} HoldingStep(w: World, h: Marks, s: System, a: Action, u: Transaction)
    requires Holding(h, s, u) && Aside(h, s, a)
    ensures Holding(h, Step(w, s, a).0, u)
  {
    hide ParseTicket, NoBinding, Encoding.HexText, ResultMetadata;
  }

  lemma {:induction false} AsideInit(w: World, h: Marks, s: System, actions: seq<Action>)
    requires actions != [] && AsideRun(w, h, s, actions)
    ensures AsideRun(w, h, s, actions[..|actions| - 1])
    ensures Aside(h, Run(w, s, actions[..|actions| - 1]), actions[|actions| - 1])
  {
    hide Step, Aside;
    var init := actions[..|actions| - 1];
    assert forall k :: 0 <= k < |init| ==> init[..k] == actions[..k];
  }

  lemma {:induction false} OfferingRun(w: World, h: Marks, s: System, actions: seq<Action>, t: Transaction)
    requires Offering(h, s, t) && AsideRun(w, h, s, actions)
    ensures Offering(h, Run(w, s, actions), t)
  {
    hide Step, Aside, Offering, AsideRun;
    if actions == [] {
    } else {
      AsideInit(w, h, s, actions);
      OfferingRun(w, h, s, actions[..|actions| - 1], t);
      OfferingStep(w, h, Run(w, s, actions[..|actions| - 1]), actions[|actions| - 1], t);
    }
  }

  lemma {:induction false} CarryingRun(w: World, h: Marks, s: System, actions: seq<Action>, p: Publication)
    requires Carrying(h, s, p) && AsideRun(w, h, s, actions)
    ensures Carrying(h, Run(w, s, actions), p)
  {
    hide Step, Aside, Carrying, AsideRun;
    if actions == [] {
    } else {
      AsideInit(w, h, s, actions);
      CarryingRun(w, h, s, actions[..|actions| - 1], p);
      CarryingStep(w, h, Run(w, s, actions[..|actions| - 1]), actions[|actions| - 1], p);
    }
  }

  lemma {:induction false} HoldingRun(w: World, h: Marks, s: System, actions: seq<Action>, u: Transaction)
    requires Holding(h, s, u) && AsideRun(w, h, s, actions)
    ensures Holding(h, Run(w, s, actions), u)
  {
    hide Step, Aside, Holding, AsideRun;
    if actions == [] {
    } else {
      AsideInit(w, h, s, actions);
      HoldingRun(w, h, s, actions[..|actions| - 1], u);
      HoldingStep(w, h, Run(w, s, actions[..|actions| - 1]), actions[|actions| - 1], u);
    }
  }

  function MarksOf(w: World, a: Action): Marks
    requires a.Issue?
  {
    Marks(a.publisherId, a.resultId, a.now + Lifetime(w))
  }

  /** Tickets as they are drawn: short, and without dots of their own. */
  predicate Drawn(a: Action)
    requires a.Issue?
  {
    && Dotless(a.publisherId) && Dotless(a.publisherSecret) && |a.publisherId| + |a.publisherSecret| < 256
    && Dotless(a.resultId) && Dotless(a.redeemSecret) && |a.resultId| + |a.redeemSecret| < 256
    && a.publisherId != a.resultId
  }

  lemma {:induction false} IssueOffersTicket(w: World, s: System, log: seq<Event>, a: Action)
    requires Inv(w, s, log) && a.Issue? && Admissible(log, a) && Drawn(a) && a.resultId !in s.store && Step(w, s, a).1 == Issued
    ensures PublisherTransaction(w, a).Some? && Offering(MarksOf(w, a), Step(w, s, a).0, PublisherTransaction(w, a).value)
  {
    hide Count, Last, Ordered, Dotless, NoBinding, Encoding.HexText, PublicationOk, TransactionOk;
    forall q | q in s.inflight ensures Names(q.transaction) != a.resultId {
      InflightIssued(w, log, q);
    }
    var e := Event(a, Issued);
    forall id | id in s.store ensures !(s.store[id].purpose == Publisher && Names(s.store[id]) == a.resultId) {
      IssueNew(w, log, e, s.store[id]);
    }
  }

  function PublicationOf(w: World, a: Action, v: Authentication): (p: Publication)
    requires a.Issue? && PublisherTransaction(w, a).Some? && w.sha(a.redeemSecret).Some?
    ensures ResultId in p.transaction.metadata
  {
    Publication(PublisherTransaction(w, a).value.(state := Consumed), v, w.sha(a.redeemSecret).value)
  }

  lemma {:induction false} OfferedTicketIsTaken(w: World, s: System, a: Action, v: Authentication, now: int)
    requires a.Issue? && PublisherTransaction(w, a).Some? && Drawn(a) && Offering(MarksOf(w, a), s, PublisherTransaction(w, a).value)
    requires now < a.now + Lifetime(w) && v.provider == a.provider
    ensures w.sha(a.redeemSecret).Some?
    ensures var (s', reply) := Step(w, s, Take(a.publisherId + "." + a.publisherSecret, v, now));
      reply == Taken(a.resultId) && Carrying(MarksOf(w, a), s', PublicationOf(w, a, v))
  {
    hide ParseTicket, Dotless, NoBinding, ParseDigestHex, Encoding.HexText;
    TicketMeaning(a.publisherId + "." + a.publisherSecret, Ticket(a.publisherId, a.publisherSecret));
    DigestRoundTrip(w.sha(a.redeemSecret).value);
    NonEmpty(a.resultId);
    var t := PublisherTransaction(w, a).value;
    assert Publishable(t.(state := Consumed), v) == Some(PublicationOf(w, a, v));
  }

  lemma {:induction false} CarriedPublicationIsStored(w: World, s: System, a: Action, v: Authentication, j: nat, now: int)
    requires a.Issue? && PublisherTransaction(w, a).Some? && w.sha(a.redeemSecret).Some? && Drawn(a)
    requires Carrying(MarksOf(w, a), s, PublicationOf(w, a, v)) && now < a.now + Lifetime(w)
    requires j < |s.inflight| && Names(s.inflight[j].transaction) == a.resultId
    ensures ResultTransaction(PublicationOf(w, a, v), now).Some?
    ensures var (s', reply) := Step(w, s, Publish(j, now));
      reply == Published(a.resultId, v) && Holding(MarksOf(w, a), s', ResultTransaction(PublicationOf(w, a, v), now).value)
  {
    hide Dotless, NoBinding, Encoding.HexText, ResultMetadata;
    NonEmpty(a.resultId);
    assert s.inflight[j] == PublicationOf(w, a, v);
  }

  lemma {:induction false} HeldResultIsRedeemed(w: World, s: System, a: Action, v: Authentication, stored: int, c: Checks, now: int)
    requires a.Issue? && PublisherTransaction(w, a).Some? && w.sha(a.redeemSecret).Some? && Drawn(a)
    requires ResultTransaction(PublicationOf(w, a, v), stored).Some?
    requires Holding(MarksOf(w, a), s, ResultTransaction(PublicationOf(w, a, v), stored).value) && now < a.now + Lifetime(w)
    requires v.provider != "" && v.subject != "" && v.factors <= 7 && 0 <= v.verifiedAt < TWO_64 / 2
    requires c == Checks(true, true, true)
    ensures Step(w, s, Redeem(a.resultId + "." + a.redeemSecret, c, now)).1 == Redeemed(a.resultId, v)
  {
    hide ParseTicket, Dotless, NoBinding, Encoding.HexText, ResultMetadata, ReadResult;
    TicketMeaning(a.resultId + "." + a.redeemSecret, Ticket(a.resultId, a.redeemSecret));
    ResultRoundTrip(v);
  }

  /**
   A handoff delivers: whatever others do between issuing, taking, storing and
   redeeming, short of presenting its tickets, drawing its identifiers or purging it
   before its time, the authentication that was presented is the one redeemed.
   */
  lemma {:induction false} UndisturbedHandoff(w: World, s: System, log: seq<Event>, a: Action, v: Authentication, c: Checks,
                                              xs: seq<Action>, taken: int, ys: seq<Action>, j: nat, stored: int, zs: seq<Action>, redeemed: int)
    requires Inv(w, s, log) && a.Issue? && Admissible(log, a) && Drawn(a) && a.resultId !in s.store && Step(w, s, a).1 == Issued
    requires taken < a.now + Lifetime(w) && stored < a.now + Lifetime(w) && redeemed < a.now + Lifetime(w)
    requires v.provider == a.provider && v.subject != "" && v.factors <= 7 && 0 <= v.verifiedAt < TWO_64 / 2
    requires c == Checks(true, true, true)
    requires AsideRun(w, MarksOf(w, a), Step(w, s, a).0, xs)
    ensures var s1 := Step(w, Run(w, Step(w, s, a).0, xs), Take(a.publisherId + "." + a.publisherSecret, v, taken));
      && s1.1 == Taken(a.resultId)
      && (AsideRun(w, MarksOf(w, a), s1.0, ys) ==>
          var s2 := Run(w, s1.0, ys);
          && (exists k :: 0 <= k < |s2.inflight| && Names(s2.inflight[k].transaction) == a.resultId)
          && (j < |s2.inflight| && Names(s2.inflight[j].transaction) == a.resultId ==>
              var s3 := Step(w, s2, Publish(j, stored));
              && s3.1 == Published(a.resultId, v)
              && (AsideRun(w, MarksOf(w, a), s3.0, zs) ==>
                  Step(w, Run(w, s3.0, zs), Redeem(a.resultId + "." + a.redeemSecret, c, redeemed)).1 == Redeemed(a.resultId, v))))
  {
    hide Step, Inv, Admissible, Drawn, AsideRun, Offering, Carrying, Holding, Run, PublisherTransaction, ResultTransaction, MarksOf, Names;
    IssueOffersTicket(w, s, log, a);
    var t := PublisherTransaction(w, a).value;
    OfferingRun(w, MarksOf(w, a), Step(w, s, a).0, xs, t);
    OfferedTicketIsTaken(w, Run(w, Step(w, s, a).0, xs), a, v, taken);
    var p := PublicationOf(w, a, v);
    var s1 := Step(w, Run(w, Step(w, s, a).0, xs), Take(a.publisherId + "." + a.publisherSecret, v, taken)).0;
    if AsideRun(w, MarksOf(w, a), s1, ys) {
      CarryingRun(w, MarksOf(w, a), s1, ys, p);
      var s2 := Run(w, s1, ys);
      CarriedSomewhere(w, a, s2, p);
      if j < |s2.inflight| && Names(s2.inflight[j].transaction) == a.resultId {
        CarriedPublicationIsStored(w, s2, a, v, j, stored);
        var s3 := Step(w, s2, Publish(j, stored)).0;
        if AsideRun(w, MarksOf(w, a), s3, zs) {
          HoldingRun(w, MarksOf(w, a), s3, zs, ResultTransaction(p, stored).value);
          IssueHasProvider(w, a);
          HeldResultIsRedeemed(w, Run(w, s3, zs), a, v, stored, c, redeemed);
        }
      }
    }
  }

  /** A connection handoff that nobody else presents, draws or purges leads where it was issued to lead. */
  lemma {:induction false} UndisturbedConnection(w: World, s: System, a: Action, actions: seq<Action>, now: int)
    requires a.IssueConnection? && Step(w, s, a).1 == ConnectionIssued && now < a.now + Lifetime(w)
    requires Dotless(a.id) && Dotless(a.secret) && |a.id| + |a.secret| < 256
    requires AsideRun(w, Marks(a.id, a.id, a.now + Lifetime(w)), Step(w, s, a).0, actions)
    ensures Step(w, Run(w, Step(w, s, a).0, actions), ConsumeConnection(a.id + "." + a.secret, true, now)).1
      == Connected(a.id, a.identity, a.provider, a.returnTarget)
  {
    hide ParseTicket, Dotless, NoBinding, AsideRun, Run;
    var t := ConnectionTransaction(w, a).value;
    HoldingRun(w, Marks(a.id, a.id, a.now + Lifetime(w)), Step(w, s, a).0, actions, t);
    TicketMeaning(a.id + "." + a.secret, Ticket(a.id, a.secret));
  }

  lemma {:induction false} CarriedSomewhere(w: World, a: Action, s: System, p: Publication)
    requires a.Issue? && Carrying(MarksOf(w, a), s, p)
    ensures exists k :: 0 <= k < |s.inflight| && Names(s.inflight[k].transaction) == a.resultId
  {
    var k :| 0 <= k < |s.inflight| && s.inflight[k] == p;
    assert Names(s.inflight[k].transaction) == a.resultId;
  }

  lemma {:induction false} IssueHasProvider(w: World, a: Action)
    requires a.Issue? && PublisherTransaction(w, a).Some?
    ensures a.provider != ""
  {
  }

  lemma {:induction false} NonEmpty(text: string)
    requires Dotless(text)
    ensures text != ""
  {
  }

  // ----- The store and the service -----

  class InMemoryAuthenticationTransactionStore {
    var transactions: Store

    constructor ()
      ensures transactions == map[]
    {
      transactions := map[];
    }

    method Begin(t: Transaction) returns (ok: bool)
      modifies this
      ensures (transactions, ok) == Begun(old(transactions), t)
    {
      if t.id in transactions {
        return false;
      }
      transactions := transactions[t.id := t];
      return true;
    }

    /** Whatever it decides, the presented transaction is no longer pending. */
    method Consume(w: World, id: string, secret: string, binding: Digest, now: int) returns (t: Option<Transaction>)
      modifies this
      ensures (transactions, t) == ConsumedFrom(w, old(transactions), id, secret, binding, now)
      ensures id in transactions ==> transactions[id].state != Pending
      ensures t.Some? <==>
        && id in old(transactions) && old(transactions)[id].state == Pending && now < old(transactions)[id].expiresAt
        && w.sha(secret) == Some(old(transactions)[id].nonce) && binding == old(transactions)[id].binding
      ensures t.Some? ==> t.value == old(transactions)[id].(state := Consumed)
    {
      if id !in transactions {
        return None;
      }
      var found := transactions[id];
      if found.state != Pending {
        transactions := transactions[id := found];
        return None;
      }
      if now >= found.expiresAt {
        transactions := transactions[id := found.(state := Expired)];
        return None;
      }
      var presented := w.sha(secret);
      if presented.None? || presented.value != found.nonce || binding != found.binding {
        transactions := transactions[id := found.(state := Spoiled)];
        return None;
      }
      transactions := transactions[id := found.(state := Consumed)];
      return Some(transactions[id]);
    }

    method PurgeExpired(now: int) returns (removed: nat)
      modifies this
      ensures transactions == Purged(old(transactions), now)
      ensures forall id <- old(transactions) :: if now < old(transactions)[id].expiresAt
                                               then id in transactions && transactions[id] == old(transactions)[id] else id !in transactions
      ensures removed == |old(transactions).Keys| - |transactions.Keys|
    {
      removed := 0;
      var todo := transactions.Keys;
      while todo != {}
        invariant todo <= transactions.Keys <= old(transactions).Keys
        invariant forall id <- transactions :: transactions[id] == old(transactions)[id]
        invariant forall id <- old(transactions) :: id in todo || (id in transactions <==> now < old(transactions)[id].expiresAt)
        invariant removed == |old(transactions).Keys| - |transactions.Keys|
        decreases todo
      {
        var id :| id in todo;
        if now >= transactions[id].expiresAt {
          assert (transactions - {id}).Keys == transactions.Keys - {id};
          transactions := transactions - {id};
          removed := removed + 1;
        }
        todo := todo - {id};
      }
    }
  }

  class AuthenticationService {
    const world: World
    const store: InMemoryAuthenticationTransactionStore

    constructor (world: World, store: InMemoryAuthenticationTransactionStore)
      ensures this.world == world && this.store == store
    {
      this.world, this.store := world, store;
    }

    /** Two tickets and their deadline; identifiers and secrets are drawn by the caller. */
    method IssueBrowserAuthenticationHandoff(a: Action) returns (tickets: Option<(string, string, int)>)
      requires a.Issue?
      modifies store
      ensures store.transactions == Step(world, System(old(store.transactions), []), a).0.store
      ensures tickets.Some? <==> Step(world, System(old(store.transactions), []), a).1 == Issued
      ensures tickets.Some? ==>
        tickets.value == (a.publisherId + "." + a.publisherSecret, a.resultId + "." + a.redeemSecret, a.now + Lifetime(world))
    {
      hide Encoding.HexText, NoBinding;
      if a.provider == "" || a.correlation == "" || !a.available {
        return None;
      }
      var digest := world.sha(a.redeemSecret);
      if digest.None? {
        return None;
      }
      var hex := DigestHex(digest.value);
      var t := Created(world, a.publisherId, Publisher, a.publisherSecret, a.correlation, a.now,
                       map[HandoffProvider := a.provider, ResultId := a.resultId, RedeemDigest := hex]);
      if t.None? {
        return None;
      }
      var recorded := store.Begin(t.value);
      if !recorded {
        return None;
      }
      return Some((a.publisherId + "." + a.publisherSecret, a.resultId + "." + a.redeemSecret, a.now + Lifetime(world)));
    }

    /** Publishing, with the clock read once for the ticket and once for the result. */
    method PublishBrowserAuthenticationHandoff(text: string, v: Authentication, taken: int, stored: int) returns (ok: bool)
      modifies store
      ensures var (s, reply) := PublishNow(world, System(old(store.transactions), []), text, v, taken, stored);
        store.transactions == s.store && s.inflight == [] && ok == reply.Published?
    {
      hide ParseTicket, NoBinding, ResultMetadata, ConsumedFrom;
      var ticket := ParseTicket(text);
      if ticket.None? {
        return false;
      }
      var consumed := store.Consume(world, ticket.value.id, ticket.value.secret, NoBinding(), taken);
      if consumed.None? {
        return false;
      }
      var p := Publishable(consumed.value, v);
      if p.None? {
        return false;
      }
      var result := ResultTransaction(p.value, stored);
      if result.None? {
        return false;
      }
      ok := store.Begin(result.value);
    }

    method RedeemBrowserAuthenticationHandoff(text: string, checks: Checks, now: int) returns (v: Option<Authentication>)
      modifies store
      ensures var (s, reply) := Step(world, System(old(store.transactions), []), Redeem(text, checks, now));
        store.transactions == s.store && (if reply.Redeemed? then v == Some(reply.authentication) else v == None)
    {
      hide ParseTicket, NoBinding, ReadResult, ConsumedFrom;
      var ticket := ParseTicket(text);
      if ticket.None? {
        return None;
      }
      var consumed := store.Consume(world, ticket.value.id, ticket.value.secret, NoBinding(), now);
      if consumed.None? || consumed.value.purpose != Result {
        return None;
      }
      v := ReadResult(consumed.value.metadata);
      if v.None? || !checks.trusted || !checks.active || !checks.owned || v.value.provider == "" || v.value.subject == "" {
        return None;
      }
    }

    method IssueBrowserConnectionHandoff(a: Action) returns (ticket: Option<(string, int)>)
      requires a.IssueConnection?
      modifies store
      ensures store.transactions == Step(world, System(old(store.transactions), []), a).0.store
      ensures ticket.Some? <==> Step(world, System(old(store.transactions), []), a).1 == ConnectionIssued
      ensures ticket.Some? ==> ticket.value == (a.id + "." + a.secret, a.now + Lifetime(world))
    {
      hide NoBinding;
      var t := ConnectionTransaction(world, a);
      if t.None? {
        return None;
      }
      var recorded := store.Begin(t.value);
      if !recorded {
        return None;
      }
      return Some((a.id + "." + a.secret, a.now + Lifetime(world)));
    }

    method ConsumeBrowserConnectionHandoff(text: string, active: bool, now: int) returns (reply: Reply)
      modifies store
      ensures var (s, expected) := Step(world, System(old(store.transactions), []), ConsumeConnection(text, active, now));
        store.transactions == s.store && reply == expected
    {
      hide ParseTicket, NoBinding, ConsumedFrom;
      var ticket := ParseTicket(text);
      if ticket.None? {
        return Refused;
      }
      var consumed := store.Consume(world, ticket.value.id, ticket.value.secret, NoBinding(), now);
      if consumed.None? {
        return Refused;
      }
      return ConnectionTarget(consumed.value, active);
    }
  }

  method DigestHex(d: Digest) returns (text: string)
    ensures text == Encoding.HexText(d)
  {
    text := Encoding.ToHex(d);
  }
}
