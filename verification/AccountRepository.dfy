/**
 Verification challenges and subject reservations.

 A challenge is replaced, guessed at and consumed; a reservation keeps an external
 subject for one identity until it expires or its owner lets go. What the maps hold
 is compared with what a log of operations and replies says they should.
 */
module AccountRepository {
  import opened Foundation

  datatype Purpose = SignupEmail | ChangeEmail | VerifyPhone | PasswordReset

  datatype Challenge = Challenge(id: string, identity: string, purpose: Purpose, destination: string, digest: Digest, expiresAt: int)

  /** A challenge and the wrong guesses made at it. */
  datatype Entry = Entry(challenge: Challenge, attempts: nat)

  /** A subject as one provider names it. */
  datatype External = External(provider: string, subject: string)

  datatype Reservation = Reservation(identity: string, expiresAt: int)

  datatype Store = Store(challenges: map<string, Entry>, reservations: map<External, Reservation>)

  datatype Op =
    | Replace(challenge: Challenge)
    | Consume(id: string, presented: Digest, now: int, maximumAttempts: nat, expectedIdentity: Option<string>)
    | Reserve(external: External, identity: string, now: int, expiresAt: int)
    | Owner(external: External, now: int)
    | Release(external: External, expectedOwner: string)

  datatype Reply =
    | Accepted
    | Refused
    | Mismatch
    | Returned(challenge: Challenge)
    | OwnedBy(identity: Option<string>)

  predicate SameSlot(a: Challenge, b: Challenge) {
    a.identity == b.identity && a.purpose == b.purpose
  }

  /** The challenges that a new one does not replace. */
  function Others(m: map<string, Entry>, c: Challenge): map<string, Entry> {
    map id | id in m && !SameSlot(m[id].challenge, c) :: m[id]
  }

  function Replaced(m: map<string, Entry>, c: Challenge): map<string, Entry> {
    var others := Others(m, c);
    if c.id in others then others else others[c.id := Entry(c, 0)]
  }

  function Consumed(m: map<string, Entry>, op: Op): (map<string, Entry>, Reply)
    requires op.Consume?
  {
    if op.maximumAttempts == 0 || op.id !in m then (m, Refused)
    else
      var entry := m[op.id];
      if op.expectedIdentity.Some? && entry.challenge.identity != op.expectedIdentity.value then (m, Refused)
      else if op.now >= entry.challenge.expiresAt || entry.attempts >= op.maximumAttempts then (m - {op.id}, Refused)
      else if entry.challenge.digest != op.presented then
        if entry.attempts + 1 >= op.maximumAttempts then (m - {op.id}, Mismatch)
        else (m[op.id := entry.(attempts := entry.attempts + 1)], Mismatch)
      else (m - {op.id}, Returned(entry.challenge))
  }

  function Reserved(m: map<External, Reservation>, external: External, identity: string, now: int, expiresAt: int): (map<External, Reservation>, Reply) {
    if external.provider == "" || external.subject == "" || identity == "" then (m, Refused)
    else if external in m && now < m[external].expiresAt && m[external].identity != identity then (m, Refused)
    else (m[external := Reservation(identity, expiresAt)], Accepted)
  }

  function ReservedOwner(m: map<External, Reservation>, external: External, now: int): Option<string> {
    if external !in m || now >= m[external].expiresAt then None else Some(m[external].identity)
  }

  function Released(m: map<External, Reservation>, external: External, owner: string): (map<External, Reservation>, Reply) {
    if external !in m then (m, Accepted)
    else if m[external].identity != owner then (m, Refused)
    else (m - {external}, Accepted)
  }

  function Step(s: Store, op: Op): (Store, Reply) {
    match op
    case Replace(c) => (s.(challenges := Replaced(s.challenges, c)), Accepted)
    case Consume(_, _, _, _, _) =>
      var (m, reply) := Consumed(s.challenges, op);
      (s.(challenges := m), reply)
    case Reserve(external, identity, now, expiresAt) =>
      var (m, reply) := Reserved(s.reservations, external, identity, now, expiresAt);
      (s.(reservations := m), reply)
    case Owner(external, now) => (s, OwnedBy(ReservedOwner(s.reservations, external, now)))
    case Release(external, owner) =>
      var (m, reply) := Released(s.reservations, external, owner);
      (s.(reservations := m), reply)
  }

  // ----- Runs -----

  datatype Event = Event(op: Op, reply: Reply)

  function Final(ops: seq<Op>): Store {
    if ops == [] then Store(map[], map[]) else Step(Final(ops[..|ops| - 1]), ops[|ops| - 1]).0
  }

  function Log(ops: seq<Op>): (log: seq<Event>)
    ensures |log| == |ops|
  {
    if ops == [] then []
    else
      var init, op := ops[..|ops| - 1], ops[|ops| - 1];
      Log(init) + [Event(op, Step(Final(init), op).1)]
  }

  lemma {:induction false} LogPrefix(ops: seq<Op>, i: nat)
    requires i <= |ops|
    ensures Log(ops)[..i] == Log(ops[..i])
    ensures i < |ops| ==> Log(ops)[i] == Event(ops[i], Step(Final(ops[..i]), ops[i]).1)
  {
    hide Step;
    if i < |ops| {
      var init := ops[..|ops| - 1];
      LogPrefix(init, i);
      assert init[..i] == ops[..i];
      assert i < |init| ==> Log(ops)[i] == Log(init)[i];
    } else {
      assert ops[..i] == ops;
    }
  }

  // ----- Challenges -----

  /** Whether an identifier was ever given to a challenge. */
  predicate Known(log: seq<Event>, id: string) {
    exists i :: 0 <= i < |log| && log[i].op.Replace? && log[i].op.challenge.id == id
  }

  predicate Compares(e: Event, id: string) {
    e.op.Consume? && e.op.id == id && (e.reply.Mismatch? || e.reply.Returned?)
  }

  /** How many digests were compared with a challenge. */
  function Comparisons(log: seq<Event>, id: string): nat {
    if log == [] then 0 else Comparisons(log[..|log| - 1], id) + (if Compares(log[|log| - 1], id) then 1 else 0)
  }

  /** How often a challenge was handed back. */
  function Returns(log: seq<Event>, id: string): nat {
    if log == [] then 0
    else Returns(log[..|log| - 1], id) + (if Compares(log[|log| - 1], id) && log[|log| - 1].reply.Returned? then 1 else 0)
  }

  lemma {:induction false} Counted(log: seq<Event>, e: Event, id: string)
    ensures Comparisons(log + [e], id) == Comparisons(log, id) + (if Compares(e, id) then 1 else 0)
    ensures Returns(log + [e], id) == Returns(log, id) + (if Compares(e, id) && e.reply.Returned? then 1 else 0)
    ensures Known(log + [e], id) <==> Known(log, id) || (e.op.Replace? && e.op.challenge.id == id)
  {
    assert (log + [e])[..|log|] == log;
    if Known(log, id) {
      var i :| 0 <= i < |log| && log[i].op.Replace? && log[i].op.challenge.id == id;
      assert (log + [e])[i] == log[i];
    }
    if e.op.Replace? && e.op.challenge.id == id {
      assert (log + [e])[|log|] == e;
    }
  }

  /** No two stored challenges share an identity and a purpose. */
  predicate OnePerSlot(m: map<string, Entry>) {
    && (forall id <- m :: m[id].challenge.id == id)
    && (forall a, b :: a in m && b in m && SameSlot(m[a].challenge, m[b].challenge) ==> a == b)
  }

  /** The limit is the same for every call, and identifiers are not reused. */
  predicate Steady(log: seq<Event>, op: Op, limit: nat) {
    && (op.Consume? ==> op.maximumAttempts == limit)
    && (op.Replace? ==> !Known(log, op.challenge.id))
  }

  predicate SteadyRun(ops: seq<Op>, limit: nat) {
    limit > 0 && forall i :: 0 <= i < |ops| ==> Steady(Log(ops[..i]), ops[i], limit)
  }

  /** What the log says about one identifier. */
  predicate IdOk(m: map<string, Entry>, log: seq<Event>, limit: nat, id: string) {
    && (id in m ==> Known(log, id) && Comparisons(log, id) == m[id].attempts < limit && Returns(log, id) == 0)
    && (!Known(log, id) ==> Comparisons(log, id) == 0)
    && Comparisons(log, id) <= limit && Returns(log, id) <= 1
  }

  ghost predicate ChallengesOk(m: map<string, Entry>, log: seq<Event>, limit: nat) {
    OnePerSlot(m) && forall id :: IdOk(m, log, limit, id)
  }

  lemma {:induction false} OnePerSlotKept(s: Store, op: Op)
    requires OnePerSlot(s.challenges)
    ensures OnePerSlot(Step(s, op).0.challenges)
  {
  }

  lemma {:induction false} IdKept(s: Store, log: seq<Event>, limit: nat, op: Op, id: string)
    requires OnePerSlot(s.challenges) && IdOk(s.challenges, log, limit, id)
    requires limit > 0 && Steady(log, op, limit)
    ensures IdOk(Step(s, op).0.challenges, log + [Event(op, Step(s, op).1)], limit, id)
  {
    hide Known, Comparisons, Returns, OnePerSlot, Reserved, Released, ReservedOwner;
    Counted(log, Event(op, Step(s, op).1), id);
    NoReturnUncompared(log, id);
  }

  lemma {:induction false} NoReturnUncompared(log: seq<Event>, id: string)
    ensures Returns(log, id) <= Comparisons(log, id)
  {
    if log == [] {
    } else {
      NoReturnUncompared(log[..|log| - 1], id);
    }
  }

  lemma {:induction false} ChallengesKept(ops: seq<Op>, limit: nat)
    requires SteadyRun(ops, limit)
    ensures ChallengesOk(Final(ops).challenges, Log(ops), limit)
  {
    hide Step, Steady, IdOk, OnePerSlot;
    if ops == [] {
      NothingYet(limit);
    } else {
      var init, op := ops[..|ops| - 1], ops[|ops| - 1];
      assert forall i :: 0 <= i < |init| ==> init[..i] == ops[..i];
      ChallengesKept(init, limit);
      OnePerSlotKept(Final(init), op);
      forall id ensures IdOk(Final(ops).challenges, Log(ops), limit, id) {
        IdKept(Final(init), Log(init), limit, op, id);
      }
    }
  }

  lemma {:induction false} NothingYet(limit: nat)
    ensures ChallengesOk(map[], [], limit)
  {
  }

  /** In every run a challenge meets at most `limit` digests and is returned at most once, and each slot has one challenge. */
  lemma {:induction false} GuessesAreBounded(ops: seq<Op>, limit: nat, id: string)
    requires SteadyRun(ops, limit)
    ensures Comparisons(Log(ops), id) <= limit && Returns(Log(ops), id) <= 1 && OnePerSlot(Final(ops).challenges)
  {
    hide Step, Steady, Known, Comparisons, Returns, OnePerSlot;
    ChallengesKept(ops, limit);
    assert IdOk(Final(ops).challenges, Log(ops), limit, id);
  }

  /** A stored challenge is one that was issued. */
  ghost predicate FromLog(log: seq<Event>, c: Challenge) {
    exists i :: 0 <= i < |log| && log[i].op == Replace(c)
  }

  /** A challenge stored after an operation was stored before it, or is the one it brought. */
  lemma {:induction false} StoredBefore(s: Store, op: Op, id: string)
    requires id in Step(s, op).0.challenges
    ensures var c := Step(s, op).0.challenges[id].challenge;
      op == Replace(c) || (id in s.challenges && s.challenges[id].challenge == c)
  {
    hide Reserved, Released, ReservedOwner;
  }

  lemma {:induction false} FromLogGrows(log: seq<Event>, e: Event, c: Challenge)
    requires FromLog(log, c) || e.op == Replace(c)
    ensures FromLog(log + [e], c)
  {
    if e.op == Replace(c) {
      assert (log + [e])[|log|] == e;
    } else {
      var i :| 0 <= i < |log| && log[i].op == Replace(c);
      assert (log + [e])[i] == log[i];
    }
  }

  lemma {:induction false} StoredWereIssued(ops: seq<Op>)
    ensures forall id <- Final(ops).challenges :: FromLog(Log(ops), Final(ops).challenges[id].challenge)
  {
    hide Step, FromLog;
    if ops == [] {
    } else {
      var init, op := ops[..|ops| - 1], ops[|ops| - 1];
      StoredWereIssued(init);
      forall id | id in Final(ops).challenges ensures FromLog(Log(ops), Final(ops).challenges[id].challenge) {
        StoredBefore(Final(init), op, id);
        FromLogGrows(Log(init), Event(op, Step(Final(init), op).1), Final(ops).challenges[id].challenge);
      }
    }
  }

  /** What is returned was issued, is unexpired, belongs to the expected identity, and was matched by the presented digest. */
  lemma {:induction false} ReturnIsGenuine(ops: seq<Op>, i: nat)
    requires i < |ops| && ops[i].Consume? && Log(ops)[i].reply.Returned?
    ensures var c := Log(ops)[i].reply.challenge;
      && FromLog(Log(ops)[..i], c) && c.digest == ops[i].presented && ops[i].now < c.expiresAt
      && (ops[i].expectedIdentity.Some? ==> c.identity == ops[i].expectedIdentity.value)
  {
    hide FromLog, Log, Final;
    LogPrefix(ops, i);
    StoredWereIssued(ops[..i]);
  }

  // ----- Challenges are what the log says -----

  /** The challenge that was issued under an identifier. */
  function Issued(log: seq<Event>, id: string): Option<Challenge> {
    if log == [] then None
    else
      var e := log[|log| - 1];
      if e.op.Replace? && e.op.challenge.id == id then Some(e.op.challenge) else Issued(log[..|log| - 1], id)
  }

  /** The last challenge issued for the same identity and purpose. */
  function LatestFor(log: seq<Event>, c: Challenge): Option<Challenge> {
    if log == [] then None
    else
      var e := log[|log| - 1];
      if e.op.Replace? && e.op.challenge.identity == c.identity && e.op.challenge.purpose == c.purpose then Some(e.op.challenge)
      else LatestFor(log[..|log| - 1], c)
  }

  /** The identity that is expected, if any, is the challenge's. */
  predicate Concerns(op: Op, c: Challenge)
    requires op.Consume?
  {
    op.expectedIdentity.Some? ==> op.expectedIdentity.value == c.identity
  }

  /** Since it was issued, somebody entitled to it presented a digest after its expiry. */
  predicate Lapsed(log: seq<Event>, id: string) {
    log != []
    && var init, e := log[..|log| - 1], log[|log| - 1];
       if e.op.Replace? && e.op.challenge.id == id then false
       else
         || Lapsed(init, id)
         || (e.op.Consume? && e.op.id == id && Issued(init, id).Some? && Concerns(e.op, Issued(init, id).value) && e.op.now >= Issued(init, id).value.expiresAt)
  }

  /** The challenge can still be met: it is the latest of its slot, was not returned, was not guessed at too often, and did not lapse. */
  predicate Live(log: seq<Event>, limit: nat, id: string) {
    var c := Issued(log, id);
    && c.Some? && LatestFor(log, c.value) == c
    && Returns(log, id) == 0 && Comparisons(log, id) < limit && !Lapsed(log, id)
  }

  predicate Tracked(m: map<string, Entry>, log: seq<Event>, limit: nat, id: string) {
    && (id in m <==> Live(log, limit, id))
    && (id in m ==> m[id] == Entry(Issued(log, id).value, Comparisons(log, id)))
    && (Issued(log, id).Some? ==> Issued(log, id).value.id == id && Known(log, id))
    && (Issued(log, id).None? ==> !Lapsed(log, id))
  }

  lemma {:induction false} IssuedSnoc(log: seq<Event>, e: Event, id: string)
    ensures Issued(log + [e], id) == if e.op.Replace? && e.op.challenge.id == id then Some(e.op.challenge) else Issued(log, id)
    ensures Lapsed(log + [e], id) ==
      if e.op.Replace? && e.op.challenge.id == id then false
      else
        (Lapsed(log, id)
         || (e.op.Consume? && e.op.id == id && Issued(log, id).Some? && Concerns(e.op, Issued(log, id).value) && e.op.now >= Issued(log, id).value.expiresAt))
  {
    assert (log + [e])[..|log|] == log;
  }

  lemma {:induction false} LatestSnoc(log: seq<Event>, e: Event, c: Challenge)
    ensures LatestFor(log + [e], c) == if e.op.Replace? && SameSlot(e.op.challenge, c) then Some(e.op.challenge) else LatestFor(log, c)
  {
    assert (log + [e])[..|log|] == log;
  }

  lemma {:induction false} TrackedReplace(s: Store, log: seq<Event>, limit: nat, op: Op, id: string)
    requires op.Replace? && limit > 0 && !Known(log, op.challenge.id) && OnePerSlot(s.challenges)
    requires Tracked(s.challenges, log, limit, id) && Tracked(s.challenges, log, limit, op.challenge.id)
    requires IdOk(s.challenges, log, limit, op.challenge.id)
    ensures Tracked(Step(s, op).0.challenges, log + [Event(op, Step(s, op).1)], limit, id)
  {
    hide Known, Comparisons, Returns, Issued, LatestFor, Lapsed;
    var e := Event(op, Step(s, op).1);
    Counted(log, e, id);
    IssuedSnoc(log, e, id);
    LatestSnoc(log, e, op.challenge);
    NoReturnUncompared(log, op.challenge.id);
    if Issued(log, id).Some? {
      LatestSnoc(log, e, Issued(log, id).value);
    }
  }

  lemma {:induction false} TrackedConsume(s: Store, log: seq<Event>, limit: nat, op: Op, id: string)
    requires op.Consume? && op.maximumAttempts == limit > 0 && Tracked(s.challenges, log, limit, id)
    ensures Tracked(Step(s, op).0.challenges, log + [Event(op, Step(s, op).1)], limit, id)
  {
    hide Known, Comparisons, Returns, Issued, LatestFor, Lapsed;
    var e := Event(op, Step(s, op).1);
    Counted(log, e, id);
    IssuedSnoc(log, e, id);
    if Issued(log, id).Some? {
      LatestSnoc(log, e, Issued(log, id).value);
    }
  }

  lemma {:induction false} TrackedOther(s: Store, log: seq<Event>, limit: nat, op: Op, id: string)
    requires !op.Replace? && !op.Consume? && Tracked(s.challenges, log, limit, id)
    ensures Tracked(Step(s, op).0.challenges, log + [Event(op, Step(s, op).1)], limit, id)
  {
    hide Known, Comparisons, Returns, Issued, LatestFor, Lapsed, Reserved, Released, ReservedOwner;
    var e := Event(op, Step(s, op).1);
    Counted(log, e, id);
    IssuedSnoc(log, e, id);
    if Issued(log, id).Some? {
      LatestSnoc(log, e, Issued(log, id).value);
    }
  }

  /** In every steady run, exactly the live challenges are stored, each with the guesses that the log shows. */
  lemma {:induction false} ChallengesAreHistory(ops: seq<Op>, limit: nat)
    requires SteadyRun(ops, limit)
    ensures forall id :: Tracked(Final(ops).challenges, Log(ops), limit, id)
  {
    hide Step, Tracked, IdOk, OnePerSlot, Known;
    if ops == [] {
      forall id ensures Tracked(Final(ops).challenges, Log(ops), limit, id) {
        NothingIssued(limit, id);
      }
    } else {
      var init, op := ops[..|ops| - 1], ops[|ops| - 1];
      assert forall i :: 0 <= i < |init| ==> init[..i] == ops[..i];
      assert Steady(Log(init), op, limit);
      ChallengesAreHistory(init, limit);
      ChallengesKept(init, limit);
      forall id ensures Tracked(Final(ops).challenges, Log(ops), limit, id) {
        if op.Replace? {
          TrackedReplace(Final(init), Log(init), limit, op, id);
        } else if op.Consume? {
          TrackedConsume(Final(init), Log(init), limit, op, id);
        } else {
          TrackedOther(Final(init), Log(init), limit, op, id);
        }
      }
    }
  }

  lemma {:induction false} NothingIssued(limit: nat, id: string)
    ensures Tracked(map[], [], limit, id)
  {
  }

  /**
   Exactly when a presented digest is accepted: it matches a live challenge that
   concerns the caller and has not expired. A digest that does not match such a
   challenge is a mismatch, and everything else is refused.
   */
  lemma {:induction false} ConsumeExactly(ops: seq<Op>, limit: nat, i: nat)
    requires SteadyRun(ops, limit) && i < |ops| && ops[i].Consume?
    ensures var log, op := Log(ops)[..i], ops[i];
      Log(ops)[i].reply ==
      if !Live(log, limit, op.id) || !Concerns(op, Issued(log, op.id).value) || op.now >= Issued(log, op.id).value.expiresAt then Refused
      else if op.presented == Issued(log, op.id).value.digest then Returned(Issued(log, op.id).value)
      else Mismatch
  {
    hide Log, Final, Known, Comparisons, Returns, Issued, LatestFor, Lapsed;
    LogPrefix(ops, i);
    SteadyPrefix(ops, limit, i);
    ChallengesAreHistory(ops[..i], limit);
    assert Tracked(Final(ops[..i]).challenges, Log(ops[..i]), limit, ops[i].id);
  }

  lemma {:induction false} SteadyPrefix(ops: seq<Op>, limit: nat, i: nat)
    requires SteadyRun(ops, limit) && i < |ops|
    ensures SteadyRun(ops[..i], limit) && (ops[i].Consume? ==> ops[i].maximumAttempts == limit)
  {
    hide Log, Known;
    assert forall j :: 0 <= j < i ==> ops[..i][..j] == ops[..j];
    assert Steady(Log(ops[..i]), ops[i], limit);
  }

  // ----- Reservations -----

  /** The lease on a subject, read off the log: the last accepted reservation that was not released. */
  function Lease(log: seq<Event>, external: External): Option<Reservation> {
    if log == [] then None
    else
      var e := log[|log| - 1];
      if e.op.Reserve? && e.op.external == external && e.reply == Accepted then Some(Reservation(e.op.identity, e.op.expiresAt))
      else if e.op.Release? && e.op.external == external && e.reply == Accepted then None
      else Lease(log[..|log| - 1], external)
  }

  /** The map of reservations holds exactly the leases of the log. */
  lemma {:induction false} ReservationsAreLeases(ops: seq<Op>, external: External)
    ensures external in Final(ops).reservations <==> Lease(Log(ops), external).Some?
    ensures external in Final(ops).reservations ==> Lease(Log(ops), external) == Some(Final(ops).reservations[external])
  {
    hide Consumed, Replaced;
    if ops == [] {
    } else {
      var init := ops[..|ops| - 1];
      ReservationsAreLeases(init, external);
      assert Log(ops)[..|init|] == Log(init);
    }
  }

  /** The lease is in force for another identity. */
  predicate HeldByOther(lease: Option<Reservation>, identity: string, now: int) {
    lease.Some? && lease.value.identity != identity && now < lease.value.expiresAt
  }

  /** A well-formed reservation is refused exactly while the log shows another identity's lease in force. */
  lemma {:induction false} ReserveExactly(ops: seq<Op>, i: nat)
    requires i < |ops| && ops[i].Reserve?
    requires ops[i].external.provider != "" && ops[i].external.subject != "" && ops[i].identity != ""
    ensures Log(ops)[i].reply == Refused <==> HeldByOther(Lease(Log(ops)[..i], ops[i].external), ops[i].identity, ops[i].now)
    ensures Log(ops)[i].reply == Accepted <==> !HeldByOther(Lease(Log(ops)[..i], ops[i].external), ops[i].identity, ops[i].now)
  {
    hide Log, Final, Lease;
    LogPrefix(ops, i);
    ReservationsAreLeases(ops[..i], ops[i].external);
  }

  /** The operation comes too late to respect the lease, or is its owner's release. */
  predicate Ends(log: seq<Event>, op: Op, external: External, owner: string) {
    || (op.Release? && op.external == external && op.expectedOwner == owner)
    || (op.Reserve? && op.external == external && Lease(log, external).Some? && op.now >= Lease(log, external).value.expiresAt)
  }

  /** A lease stays with its owner, and nobody else obtains the subject, until it has expired or its owner lets go. */
  lemma {:induction false} LeaseIsExclusive(ops: seq<Op>, i: nat, j: nat, external: External, owner: string)
    requires i <= j <= |ops|
    requires Lease(Log(ops[..i]), external).Some? && Lease(Log(ops[..i]), external).value.identity == owner
    requires forall k :: i <= k < j ==> !Ends(Log(ops[..k]), ops[k], external, owner)
    ensures Lease(Log(ops[..j]), external).Some? && Lease(Log(ops[..j]), external).value.identity == owner
    ensures forall k :: i <= k < j && ops[k].Reserve? && ops[k].external == external && ops[k].identity != owner ==> Log(ops)[k].reply == Refused
    decreases j
  {
    hide Log, Final, Lease, Consumed, Replaced;
    if i == j {
    } else {
      var k := j - 1;
      LeaseIsExclusive(ops, i, k, external, owner);
      ReservationsAreLeases(ops[..k], external);
      ReservationsAreLeases(ops[..j], external);
      LogPrefix(ops, k);
      FinalNext(ops, k);
    }
  }

  lemma {:induction false} FinalNext(ops: seq<Op>, k: nat)
    requires k < |ops|
    ensures Final(ops[..k + 1]) == Step(Final(ops[..k]), ops[k]).0
  {
    hide Step;
    assert ops[..k + 1][..k] == ops[..k];
  }

  /** A release is refused exactly if the lease is another identity's, expired or not. */
  lemma {:induction false} ReleaseExactly(ops: seq<Op>, i: nat)
    requires i < |ops| && ops[i].Release?
    ensures var lease := Lease(Log(ops)[..i], ops[i].external);
      Log(ops)[i].reply == if lease.Some? && lease.value.identity != ops[i].expectedOwner then Refused else Accepted
  {
    hide Log, Final, Lease;
    LogPrefix(ops, i);
    ReservationsAreLeases(ops[..i], ops[i].external);
  }

  /** Asking for the owner of a subject answers with the holder of its lease, while that is in force. */
  lemma {:induction false} OwnerExactly(ops: seq<Op>, i: nat, identity: string)
    requires i < |ops| && ops[i].Owner?
    ensures Log(ops)[i].reply == OwnedBy(Some(identity)) <==>
      var lease := Lease(Log(ops)[..i], ops[i].external);
      lease.Some? && lease.value.identity == identity && ops[i].now < lease.value.expiresAt
  {
    hide Log, Final, Lease;
    LogPrefix(ops, i);
    ReservationsAreLeases(ops[..i], ops[i].external);
  }

  // ----- The repository -----

  class InMemoryAccountRepository {
    var challenges: map<string, Entry>
    var reservations: map<External, Reservation>

    ghost function Contents(): Store
      reads this
    {
      Store(challenges, reservations)
    }

    constructor ()
      ensures Contents() == Store(map[], map[])
    {
      challenges, reservations := map[], map[];
    }

    /** Erases while iterating, then adds the new challenge unless its identifier is taken. */
    method Replace(c: Challenge)
      requires OnePerSlot(challenges)
      modifies this
      ensures Contents() == Step(old(Contents()), Op.Replace(c)).0 && OnePerSlot(challenges)
    {
      hide OnePerSlot;
      ghost var before := challenges;
      var todo := challenges.Keys;
      while todo != {}
        invariant todo <= challenges.Keys <= before.Keys && reservations == old(reservations)
        invariant forall id <- challenges :: challenges[id] == before[id]
        invariant forall id <- before :: id in todo || (id in challenges <==> !SameSlot(before[id].challenge, c))
        decreases todo
      {
        var id :| id in todo;
        if SameSlot(challenges[id].challenge, c) {
          challenges := challenges - {id};
        }
        todo := todo - {id};
      }
      assert challenges == Others(before, c);
      if c.id !in challenges {
        challenges := challenges[c.id := Entry(c, 0)];
      }
      OnePerSlotKept(old(Contents()), Op.Replace(c));
    }

    method Consume(id: string, presented: Digest, now: int, maximumAttempts: nat, expectedIdentity: Option<string>) returns (reply: Reply)
      requires OnePerSlot(challenges)
      modifies this
      ensures (Contents(), reply) == Step(old(Contents()), Op.Consume(id, presented, now, maximumAttempts, expectedIdentity))
      ensures maximumAttempts == 0 ==> Contents() == old(Contents()) && reply == Refused
      ensures OnePerSlot(challenges)
    {
      hide OnePerSlot;
      OnePerSlotKept(Contents(), Op.Consume(id, presented, now, maximumAttempts, expectedIdentity));
      if maximumAttempts == 0 {
        return Refused;
      }
      if id !in challenges {
        return Refused;
      }
      var found := challenges[id];
      if expectedIdentity.Some? && found.challenge.identity != expectedIdentity.value {
        return Refused;
      }
      if now >= found.challenge.expiresAt || found.attempts >= maximumAttempts {
        challenges := challenges - {id};
        return Refused;
      }
      if found.challenge.digest != presented {
        found := found.(attempts := found.attempts + 1);
        challenges := challenges[id := found];
        if found.attempts >= maximumAttempts {
          challenges := challenges - {id};
          assert challenges == old(challenges) - {id};
        }
        return Mismatch;
      }
      challenges := challenges - {id};
      return Returned(found.challenge);
    }

    method ReserveSubject(external: External, identity: string, now: int, expiresAt: int) returns (reply: Reply)
      modifies this
      ensures (Contents(), reply) == Step(old(Contents()), Reserve(external, identity, now, expiresAt))
    {
      if external.provider == "" || external.subject == "" || identity == "" {
        return Refused;
      }
      if external in reservations && now >= reservations[external].expiresAt {
        reservations := reservations - {external};
      }
      if external in reservations {
        if reservations[external].identity == identity {
          reservations := reservations[external := Reservation(identity, expiresAt)];
          return Accepted;
        }
        return Refused;
      }
      reservations := reservations[external := Reservation(identity, expiresAt)];
      assert reservations == old(reservations)[external := Reservation(identity, expiresAt)];
      return Accepted;
    }

    method FindReservedOwner(external: External, now: int) returns (owner: Option<string>)
      ensures (Contents(), OwnedBy(owner)) == Step(Contents(), Owner(external, now))
    {
      if external !in reservations || now >= reservations[external].expiresAt {
        return None;
      }
      return Some(reservations[external].identity);
    }

    method ReleaseSubject(external: External, expectedOwner: string) returns (reply: Reply)
      modifies this
      ensures (Contents(), reply) == Step(old(Contents()), Release(external, expectedOwner))
    {
      if external !in reservations {
        return Accepted;
      }
      if reservations[external].identity != expectedOwner {
        return Refused;
      }
      reservations := reservations - {external};
      return Accepted;
    }
  }
}
