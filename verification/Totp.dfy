/**
 Enrolling a time-based authenticator, beside others that enroll, complete and
 disable at the same time.

 Starting an enrollment reads whether the account has an authenticator before it
 takes the lock and looks again once it holds it, so it is two steps here; every
 other operation is one. Passwords, codes and repository failures are parameters.
 */
module Totp {
  import opened Foundation

  const LIFETIME := 600_000
  const MAXIMUM_ATTEMPTS := 5

  datatype Enrollment = Enrollment(identity: string, subject: string, expiresAt: int, replacementAuthorized: bool, attempts: nat)

  /** An enrollment between its two steps. */
  datatype Start = Start(id: string, identity: string, subject: string, expiresAt: int, enabled: bool)

  /** Accounts with an authenticator, the pending enrollments, and those being started. */
  datatype System = System(enabled: set<string>, pending: map<string, Enrollment>, starting: seq<Start>)

  /** What installing a secret answers. */
  datatype Installation = Installs | WrongCode | Unavailable

  datatype Action =
    | BeginRead(id: string, identity: string, subject: string, verified: bool, strong: bool, now: int)
    | BeginCommit(index: nat, readable: bool, now: int)
    | Complete(identity: string, id: string, code: string, strong: bool, readable: bool, installation: Installation, now: int)
    | Disable(identity: string, subject: string, verified: bool, strong: bool, readable: bool, revoked: bool, removed: bool)

  datatype Reply =
    | Refused
    | Reading
    | Begun(id: string)
    | Rejected(id: string)
    | StateChanged
    | Installed(id: string)
    | Disabled

  /** Six decimal digits. */
  predicate WellFormed(id: string, code: string) {
    id != "" && |code| == 6 && forall c <- code :: '0' <= c <= '9'
  }

  /** The enrollments of other identities that have not expired. */
  function Kept(pending: map<string, Enrollment>, identity: string, now: int): map<string, Enrollment> {
    map id | id in pending && pending[id].identity != identity && now < pending[id].expiresAt :: pending[id]
  }

  function Without(pending: map<string, Enrollment>, identity: string): map<string, Enrollment> {
    map id | id in pending && pending[id].identity != identity :: pending[id]
  }

  function Committed(s: System, start: Start, readable: bool, now: int): (System, Reply) {
    if !readable || (start.subject in s.enabled) != start.enabled then (s, Refused)
    else
      var kept := Kept(s.pending, start.identity, now);
      var added := Enrollment(start.identity, start.subject, start.expiresAt, start.enabled, 0);
      (s.(pending := if start.id in kept then kept else kept[start.id := added]), Begun(start.id))
  }

  function Completed(s: System, a: Action): (System, Reply)
    requires a.Complete?
  {
    if !WellFormed(a.id, a.code) || a.id !in s.pending || s.pending[a.id].identity != a.identity then (s, Refused)
    else
      var e, erased := s.pending[a.id], s.(pending := s.pending - {a.id});
      if e.expiresAt <= a.now then (erased, Refused)
      else if (e.replacementAuthorized && !a.strong) || !a.readable then (s, Refused)
      else if (e.subject in s.enabled) != e.replacementAuthorized then (erased, StateChanged)
      else
        match a.installation
        case Unavailable => (s, Refused)
        case WrongCode =>
          (if e.attempts + 1 >= MAXIMUM_ATTEMPTS then erased
           else s.(pending := s.pending[a.id := e.(attempts := e.attempts + 1)]), Rejected(a.id))
        case Installs => (erased.(enabled := s.enabled + {e.subject}), Installed(a.id))
  }

  function Disabling(s: System, a: Action): (System, Reply)
    requires a.Disable?
  {
    if !a.strong || !a.verified || !a.readable || a.subject !in s.enabled then (s, Refused)
    else
      var cleared := s.(pending := Without(s.pending, a.identity));
      if !a.revoked || !a.removed then (cleared, Refused) else (cleared.(enabled := s.enabled - {a.subject}), Disabled)
  }

  function Step(s: System, a: Action): (System, Reply) {
    match a
    case BeginRead(id, identity, subject, verified, strong, now) =>
      if !verified || (subject in s.enabled && !strong) then (s, Refused)
      else (s.(starting := s.starting + [Start(id, identity, subject, now + LIFETIME, subject in s.enabled)]), Reading)
    case BeginCommit(index, readable, now) =>
      if index >= |s.starting| then (s, Refused)
      else Committed(s.(starting := s.starting[..index] + s.starting[index + 1..]), s.starting[index], readable, now)
    case Complete(_, _, _, _, _, _, _) => Completed(s, a)
    case Disable(_, _, _, _, _, _, _) => Disabling(s, a)
  }

  // ----- Runs -----

  datatype Event = Event(action: Action, reply: Reply)

  function Final(enabled: set<string>, actions: seq<Action>): System {
    if actions == [] then System(enabled, map[], []) else Step(Final(enabled, actions[..|actions| - 1]), actions[|actions| - 1]).0
  }

  function Log(enabled: set<string>, actions: seq<Action>): (log: seq<Event>)
    ensures |log| == |actions|
  {
    if actions == [] then []
    else
      var init, a := actions[..|actions| - 1], actions[|actions| - 1];
      Log(enabled, init) + [Event(a, Step(Final(enabled, init), a).1)]
  }

  /** How many codes presented for an enrollment were rejected. */
  function Rejections(log: seq<Event>, id: string): nat {
    if log == [] then 0 else Rejections(log[..|log| - 1], id) + (if log[|log| - 1].reply == Rejected(id) then 1 else 0)
  }

  /** The first step of this enrollment was taken, and by a strong session if `strong`. */
  ghost predicate Drawn(log: seq<Event>, id: string, strong: bool) {
    exists i :: 0 <= i < |log| && log[i].action.BeginRead? && log[i].action.id == id && log[i].reply == Reading && (strong ==> log[i].action.strong)
  }

  /** Identifiers are drawn once, and a subject belongs to one identity. */
  ghost predicate Admissible(owner: map<string, string>, log: seq<Event>, a: Action) {
    && (a.BeginRead? ==> !Drawn(log, a.id, false) && a.subject in owner && owner[a.subject] == a.identity)
    && (a.Disable? ==> a.subject in owner && owner[a.subject] == a.identity)
  }

  ghost predicate AdmissibleRun(owner: map<string, string>, enabled: set<string>, actions: seq<Action>) {
    forall i :: 0 <= i < |actions| ==> Admissible(owner, Log(enabled, actions[..i]), actions[i])
  }

  lemma {:induction false} LogSnoc(log: seq<Event>, e: Event, id: string)
    ensures Rejections(log + [e], id) == Rejections(log, id) + (if e.reply == Rejected(id) then 1 else 0)
    ensures forall strong :: Drawn(log + [e], id, strong) <==> Drawn(log, id, strong) || Drawn([e], id, strong)
  {
    assert (log + [e])[..|log|] == log;
    forall strong ensures Drawn(log + [e], id, strong) <==> Drawn(log, id, strong) || Drawn([e], id, strong) {
      if Drawn(log, id, strong) {
        var i :| 0 <= i < |log| && log[i].action.BeginRead? && log[i].action.id == id && log[i].reply == Reading && (strong ==> log[i].action.strong);
        assert (log + [e])[i] == log[i];
      }
      if Drawn([e], id, strong) {
        assert (log + [e])[|log|] == e;
      }
    }
  }

  // ----- The invariant -----

  /** A pending enrollment knows whether its account has an authenticator, and counts its rejected codes. */
  ghost predicate PendingOk(owner: map<string, string>, enabled: set<string>, log: seq<Event>, id: string, e: Enrollment) {
    && e.subject in owner && owner[e.subject] == e.identity
    && (e.replacementAuthorized <==> e.subject in enabled)
    && Drawn(log, id, e.replacementAuthorized) && Rejections(log, id) == e.attempts < MAXIMUM_ATTEMPTS
  }

  ghost predicate StartOk(owner: map<string, string>, pending: map<string, Enrollment>, log: seq<Event>, start: Start) {
    && start.subject in owner && owner[start.subject] == start.identity
    && Drawn(log, start.id, start.enabled) && Rejections(log, start.id) == 0 && start.id !in pending
  }

  predicate OnePerIdentity(pending: map<string, Enrollment>) {
    forall a, b :: a in pending && b in pending && pending[a].identity == pending[b].identity ==> a == b
  }

  ghost predicate Inv(owner: map<string, string>, s: System, log: seq<Event>) {
    && OnePerIdentity(s.pending)
    && (forall id <- s.pending :: PendingOk(owner, s.enabled, log, id, s.pending[id]))
    && (forall j :: 0 <= j < |s.starting| ==> StartOk(owner, s.pending, log, s.starting[j]))
    && (forall i, j :: 0 <= i < j < |s.starting| ==> s.starting[i].id != s.starting[j].id)
    && (forall id :: Rejections(log, id) <= MAXIMUM_ATTEMPTS && (!Drawn(log, id, false) ==> Rejections(log, id) == 0))
  }

  /** An event that rejects no code leaves what the log says in place. */
  lemma {:induction false} LogGrows(owner: map<string, string>, s: System, log: seq<Event>, e: Event)
    requires Inv(owner, s, log) && !e.reply.Rejected?
    ensures Inv(owner, s, log + [e])
  {
    hide Rejections, Drawn, OnePerIdentity;
    forall id ensures Rejections(log + [e], id) == Rejections(log, id) && forall strong :: Drawn(log, id, strong) ==> Drawn(log + [e], id, strong) {
      LogSnoc(log, e, id);
    }
  }

  lemma {:induction false} WeakDrawn(log: seq<Event>, id: string, strong: bool)
    requires Drawn(log, id, strong)
    ensures Drawn(log, id, false)
  {
  }

  lemma {:induction false} ReadKeeps(owner: map<string, string>, s: System, log: seq<Event>, a: Action)
    requires Inv(owner, s, log) && a.BeginRead? && Admissible(owner, log, a)
    ensures Inv(owner, Step(s, a).0, log + [Event(a, Step(s, a).1)])
  {
    hide Rejections, Drawn, OnePerIdentity;
    var (s', reply) := Step(s, a);
    var e := Event(a, reply);
    LogGrows(owner, s, log, e);
    if reply == Reading {
      LogSnoc(log, e, a.id);
      DrawnNow(e);
      forall id | id in s.pending ensures id != a.id {
        WeakDrawn(log, id, s.pending[id].replacementAuthorized);
      }
      forall j | 0 <= j < |s.starting| ensures s.starting[j].id != a.id {
        WeakDrawn(log, s.starting[j].id, s.starting[j].enabled);
      }
    }
  }

  lemma {:induction false} DrawnNow(e: Event)
    requires e.action.BeginRead? && e.reply == Reading
    ensures Drawn([e], e.action.id, e.action.strong) && Drawn([e], e.action.id, false)
  {
    assert [e][0] == e;
  }

  lemma {:induction false} CommitKeeps(owner: map<string, string>, s: System, log: seq<Event>, a: Action)
    requires Inv(owner, s, log) && a.BeginCommit?
    ensures Inv(owner, Step(s, a).0, log + [Event(a, Step(s, a).1)])
  {
    hide Rejections, Drawn;
    var (s', reply) := Step(s, a);
    LogGrows(owner, s', log, Event(a, reply));
  }

  lemma {:induction false} CompleteKeeps(owner: map<string, string>, s: System, log: seq<Event>, a: Action)
    requires Inv(owner, s, log) && a.Complete?
    ensures Inv(owner, Step(s, a).0, log + [Event(a, Step(s, a).1)])
  {
    hide Rejections, Drawn, WellFormed;
    if Step(s, a).1.Rejected? {
      RejectionKeeps(owner, s, log, a);
    } else {
      LogGrows(owner, Step(s, a).0, log, Event(a, Step(s, a).1));
    }
  }

  lemma {:induction false} RejectionKeeps(owner: map<string, string>, s: System, log: seq<Event>, a: Action)
    requires Inv(owner, s, log) && a.Complete? && Step(s, a).1.Rejected?
    ensures Inv(owner, Step(s, a).0, log + [Event(a, Step(s, a).1)])
  {
    hide Rejections, Drawn, WellFormed;
    var e := Event(a, Step(s, a).1);
    forall id ensures Rejections(log + [e], id) == Rejections(log, id) + (if id == a.id then 1 else 0)
        && forall strong :: Drawn(log, id, strong) ==> Drawn(log + [e], id, strong) {
      LogSnoc(log, e, id);
    }
    WeakDrawn(log, a.id, s.pending[a.id].replacementAuthorized);
  }

  lemma {:induction false} DisableKeeps(owner: map<string, string>, s: System, log: seq<Event>, a: Action)
    requires Inv(owner, s, log) && a.Disable? && Admissible(owner, log, a)
    ensures Inv(owner, Step(s, a).0, log + [Event(a, Step(s, a).1)])
  {
    hide Rejections, Drawn;
    LogGrows(owner, Step(s, a).0, log, Event(a, Step(s, a).1));
  }

  lemma {:induction false} RunKeepsInv(owner: map<string, string>, enabled: set<string>, actions: seq<Action>)
    requires AdmissibleRun(owner, enabled, actions)
    ensures Inv(owner, Final(enabled, actions), Log(enabled, actions))
  {
    hide Step, Admissible, Drawn;
    if actions == [] {
    } else {
      var init, a := actions[..|actions| - 1], actions[|actions| - 1];
      assert forall i :: 0 <= i < |init| ==> init[..i] == actions[..i];
      RunKeepsInv(owner, enabled, init);
      var s, log := Final(enabled, init), Log(enabled, init);
      match a
      case BeginRead(_, _, _, _, _, _) => ReadKeeps(owner, s, log, a);
      case BeginCommit(_, _, _) => CommitKeeps(owner, s, log, a);
      case Complete(_, _, _, _, _, _, _) => CompleteKeeps(owner, s, log, a);
      case Disable(_, _, _, _, _, _, _) => DisableKeeps(owner, s, log, a);
    }
  }

  // ----- What every interleaving promises -----

  /** Each identity has at most one pending enrollment, and it knows whether its subject has an authenticator. */
  lemma {:induction false} PendingIsCurrent(owner: map<string, string>, enabled: set<string>, actions: seq<Action>, id: string)
    requires AdmissibleRun(owner, enabled, actions)
    ensures var s := Final(enabled, actions);
      && OnePerIdentity(s.pending)
      && (id in s.pending ==> (s.pending[id].replacementAuthorized <==> s.pending[id].subject in s.enabled))
  {
    hide Step, Admissible, Drawn, Rejections, OnePerIdentity;
    RunKeepsInv(owner, enabled, actions);
  }

  /** No enrollment survives five rejected codes, and none is ever rejected a sixth time. */
  lemma {:induction false} FiveRejections(owner: map<string, string>, enabled: set<string>, actions: seq<Action>, id: string)
    requires AdmissibleRun(owner, enabled, actions)
    ensures Rejections(Log(enabled, actions), id) <= 5
    ensures Rejections(Log(enabled, actions), id) == 5 ==> id !in Final(enabled, actions).pending
  {
    hide Step, Admissible, Drawn, Rejections, OnePerIdentity;
    RunKeepsInv(owner, enabled, actions);
  }

  lemma {:induction false} LogPrefix(enabled: set<string>, actions: seq<Action>, i: nat)
    requires i <= |actions|
    ensures Log(enabled, actions)[..i] == Log(enabled, actions[..i])
    ensures i < |actions| ==> Log(enabled, actions)[i] == Event(actions[i], Step(Final(enabled, actions[..i]), actions[i]).1)
  {
    hide Step;
    if i < |actions| {
      var init := actions[..|actions| - 1];
      LogPrefix(enabled, init, i);
      assert init[..i] == actions[..i];
      assert i < |init| ==> Log(enabled, actions)[i] == Log(enabled, init)[i];
    } else {
      assert actions[..i] == actions;
    }
  }

  lemma {:induction false} AdmissiblePrefix(owner: map<string, string>, enabled: set<string>, actions: seq<Action>, i: nat)
    requires AdmissibleRun(owner, enabled, actions) && i <= |actions|
    ensures AdmissibleRun(owner, enabled, actions[..i])
  {
    hide Admissible, Log;
    assert forall j :: 0 <= j < i ==> actions[..i][..j] == actions[..j];
  }

  /** An authenticator is replaced only by a strong session, in an enrollment that a strong session began; and no completion finds the state changed. */
  lemma {:induction false} ReplacementIsAuthorized(owner: map<string, string>, enabled: set<string>, actions: seq<Action>, i: nat)
    requires AdmissibleRun(owner, enabled, actions) && i < |actions| && actions[i].Complete?
    ensures var s, reply := Final(enabled, actions[..i]), Log(enabled, actions)[i].reply;
      && reply != StateChanged
      && (reply == Installed(actions[i].id) ==>
          && actions[i].id in s.pending && actions[i].identity == s.pending[actions[i].id].identity
          && (s.pending[actions[i].id].subject in s.enabled ==>
              actions[i].strong && Drawn(Log(enabled, actions)[..i], actions[i].id, true)))
  {
    hide Admissible, Drawn, Rejections, OnePerIdentity, Log, Final;
    LogPrefix(enabled, actions, i);
    AdmissiblePrefix(owner, enabled, actions, i);
    RunKeepsInv(owner, enabled, actions[..i]);
  }

  // ----- The system is what the log says -----

  /** What the first step of an enrollment fixed. */
  datatype Draw = Draw(identity: string, subject: string, expiresAt: int, enabled: bool)

  /** The subject has an authenticator: the last installation or disabling for it was an installation, or it had one from the start. */
  predicate Equipped(enabled: set<string>, log: seq<Event>, subject: string)
    decreases |log|, 0
  {
    if log == [] then subject in enabled
    else
      var init, e := log[..|log| - 1], log[|log| - 1];
      if e.reply.Installed? && DrawOf(enabled, init, e.reply.id).Some? && DrawOf(enabled, init, e.reply.id).value.subject == subject then true
      else if e.reply == Disabled && e.action.Disable? && e.action.subject == subject then false
      else Equipped(enabled, init, subject)
  }

  function DrawOf(enabled: set<string>, log: seq<Event>, id: string): Option<Draw>
    decreases |log|, 1
  {
    if log == [] then None
    else
      var init, e := log[..|log| - 1], log[|log| - 1];
      if e.reply == Reading && e.action.BeginRead? && e.action.id == id
      then Some(Draw(e.action.identity, e.action.subject, e.action.now + 600_000, Equipped(enabled, init, e.action.subject)))
      else DrawOf(enabled, init, id)
  }

  /** The action disables as far as clearing the identity's enrollments, whatever comes after. */
  predicate Clears(enabled: set<string>, log: seq<Event>, a: Action) {
    a.Disable? && a.strong && a.verified && a.readable && Equipped(enabled, log, a.subject)
  }

  /** Six decimal digits for a named enrollment. */
  predicate Presentable(a: Action)
    requires a.Complete?
  {
    a.id != "" && |a.code| == 6 && forall i :: 0 <= i < 6 ==> '0' <= a.code[i] <= '9'
  }

  /** The event ends an enrollment: it is installed, rejected for the fifth time, superseded, purged, cleared, or found expired by its identity. */
  predicate Ends(enabled: set<string>, log: seq<Event>, e: Event, id: string, d: Draw) {
    || e.reply == Installed(id)
    || (e.reply == Rejected(id) && Rejections(log, id) + 1 >= 5)
    || (e.reply.Begun? && e.action.BeginCommit?
        && ((DrawOf(enabled, log, e.reply.id).Some? && DrawOf(enabled, log, e.reply.id).value.identity == d.identity) || d.expiresAt <= e.action.now))
    || (Clears(enabled, log, e.action) && e.action.identity == d.identity)
    || (e.action.Complete? && e.action.id == id && Presentable(e.action) && e.action.identity == d.identity && d.expiresAt <= e.action.now)
  }

  /** The enrollment was begun and has not ended. */
  predicate Alive(enabled: set<string>, log: seq<Event>, id: string) {
    log != []
    && var init, e := log[..|log| - 1], log[|log| - 1];
       e.reply == Begun(id)
       || (Alive(enabled, init, id) && DrawOf(enabled, init, id).Some? && !Ends(enabled, init, e, id, DrawOf(enabled, init, id).value))
  }

  lemma {:induction false} EquippedSnoc(enabled: set<string>, log: seq<Event>, e: Event, subject: string)
    ensures Equipped(enabled, log + [e], subject) ==
      if e.reply.Installed? && DrawOf(enabled, log, e.reply.id).Some? && DrawOf(enabled, log, e.reply.id).value.subject == subject then true
      else if e.reply == Disabled && e.action.Disable? && e.action.subject == subject then false
      else Equipped(enabled, log, subject)
  {
    assert (log + [e])[..|log|] == log;
  }

  lemma {:induction false} DrawSnoc(enabled: set<string>, log: seq<Event>, e: Event, id: string)
    ensures DrawOf(enabled, log + [e], id) ==
      if e.reply == Reading && e.action.BeginRead? && e.action.id == id
      then Some(Draw(e.action.identity, e.action.subject, e.action.now + 600_000, Equipped(enabled, log, e.action.subject)))
      else DrawOf(enabled, log, id)
    ensures Alive(enabled, log + [e], id) <==>
      e.reply == Begun(id)
      || (Alive(enabled, log, id) && DrawOf(enabled, log, id).Some? && !Ends(enabled, log, e, id, DrawOf(enabled, log, id).value))
  {
    hide Ends;
    assert (log + [e])[..|log|] == log;
  }

  predicate PendingTracked(enabled: set<string>, s: System, log: seq<Event>, id: string) {
    && (id in s.pending <==> Alive(enabled, log, id))
    && (id in s.pending ==>
        && DrawOf(enabled, log, id).Some?
        && var d := DrawOf(enabled, log, id).value;
           s.pending[id] == Enrollment(d.identity, d.subject, d.expiresAt, d.enabled, Rejections(log, id)))
  }

  predicate StartTracked(enabled: set<string>, log: seq<Event>, start: Start) {
    && DrawOf(enabled, log, start.id).Some?
    && var d := DrawOf(enabled, log, start.id).value;
       start == Start(start.id, d.identity, d.subject, d.expiresAt, d.enabled)
  }

  ghost predicate AllTracked(enabled: set<string>, s: System, log: seq<Event>) {
    && (forall subject :: subject in s.enabled <==> Equipped(enabled, log, subject))
    && (forall id :: PendingTracked(enabled, s, log, id))
    && (forall j :: 0 <= j < |s.starting| ==> StartTracked(enabled, log, s.starting[j]))
  }

  lemma {:induction false} EnabledStep(owner: map<string, string>, enabled: set<string>, s: System, log: seq<Event>, a: Action, subject: string)
    requires Inv(owner, s, log) && AllTracked(enabled, s, log)
    ensures subject in Step(s, a).0.enabled <==> Equipped(enabled, log + [Event(a, Step(s, a).1)], subject)
  {
    hide Rejections, Drawn, OnePerIdentity, Alive, Equipped, DrawOf, WellFormed, Inv;
    EquippedSnoc(enabled, log, Event(a, Step(s, a).1), subject);
    if a.Complete? {
      assert PendingTracked(enabled, s, log, a.id);
    }
  }

  lemma {:induction false} ReadTracked(owner: map<string, string>, enabled: set<string>, s: System, log: seq<Event>, a: Action, id: string)
    requires Inv(owner, s, log) && AllTracked(enabled, s, log) && a.BeginRead? && Admissible(owner, log, a)
    ensures PendingTracked(enabled, Step(s, a).0, log + [Event(a, Step(s, a).1)], id)
  {
    hide Rejections, Drawn, OnePerIdentity, Alive, Equipped, DrawOf;
    var e := Event(a, Step(s, a).1);
    DrawSnoc(enabled, log, e, id);
    LogSnoc(log, e, id);
    assert PendingTracked(enabled, s, log, id);
    if id in s.pending {
      WeakDrawn(log, id, s.pending[id].replacementAuthorized);
    }
  }

  lemma {:induction false} CommitTracked(owner: map<string, string>, enabled: set<string>, s: System, log: seq<Event>, a: Action, id: string)
    requires Inv(owner, s, log) && AllTracked(enabled, s, log) && a.BeginCommit?
    ensures PendingTracked(enabled, Step(s, a).0, log + [Event(a, Step(s, a).1)], id)
  {
    hide Rejections, Drawn, OnePerIdentity, Alive, Equipped, DrawOf;
    var e := Event(a, Step(s, a).1);
    DrawSnoc(enabled, log, e, id);
    LogSnoc(log, e, id);
    assert PendingTracked(enabled, s, log, id);
    if a.index < |s.starting| {
      assert StartTracked(enabled, log, s.starting[a.index]) && StartOk(owner, s.pending, log, s.starting[a.index]);
    }
  }

  lemma {:induction false} CompleteTracked(owner: map<string, string>, enabled: set<string>, s: System, log: seq<Event>, a: Action, id: string)
    requires Inv(owner, s, log) && AllTracked(enabled, s, log) && a.Complete?
    ensures PendingTracked(enabled, Step(s, a).0, log + [Event(a, Step(s, a).1)], id)
  {
    hide Rejections, Drawn, OnePerIdentity, Alive, Equipped, DrawOf, WellFormed, Presentable;
    var e := Event(a, Step(s, a).1);
    DrawSnoc(enabled, log, e, id);
    LogSnoc(log, e, id);
    SameForm(a);
    assert PendingTracked(enabled, s, log, id) && PendingTracked(enabled, s, log, a.id);
    if a.id in s.pending {
      assert PendingOk(owner, s.enabled, log, a.id, s.pending[a.id]);
    }
  }

  lemma {:induction false} SameForm(a: Action)
    requires a.Complete?
    ensures WellFormed(a.id, a.code) <==> Presentable(a)
  {
    if Presentable(a) {
      forall c | c in a.code ensures '0' <= c <= '9' {
        var i :| 0 <= i < |a.code| && a.code[i] == c;
      }
    }
    if WellFormed(a.id, a.code) {
      assert forall i :: 0 <= i < 6 ==> a.code[i] in a.code;
    }
  }

  lemma {:induction false} DisableTracked(owner: map<string, string>, enabled: set<string>, s: System, log: seq<Event>, a: Action, id: string)
    requires Inv(owner, s, log) && AllTracked(enabled, s, log) && a.Disable?
    ensures PendingTracked(enabled, Step(s, a).0, log + [Event(a, Step(s, a).1)], id)
  {
    hide Rejections, Drawn, OnePerIdentity, Alive, Equipped, DrawOf;
    var e := Event(a, Step(s, a).1);
    DrawSnoc(enabled, log, e, id);
    LogSnoc(log, e, id);
    assert PendingTracked(enabled, s, log, id);
  }

  lemma {:induction false} StartsTracked(owner: map<string, string>, enabled: set<string>, s: System, log: seq<Event>, a: Action, j: nat)
    requires Inv(owner, s, log) && AllTracked(enabled, s, log) && Admissible(owner, log, a) && j < |Step(s, a).0.starting|
    ensures StartTracked(enabled, log + [Event(a, Step(s, a).1)], Step(s, a).0.starting[j])
  {
    hide Rejections, Drawn, OnePerIdentity, Alive, Equipped, DrawOf, WellFormed;
    var s' := Step(s, a).0;
    var e := Event(a, Step(s, a).1);
    DrawSnoc(enabled, log, e, s'.starting[j].id);
    if a.BeginRead? {
      if j < |s.starting| {
        assert StartOk(owner, s.pending, log, s.starting[j]);
        WeakDrawn(log, s.starting[j].id, s.starting[j].enabled);
      }
    } else {
      assert s'.starting[j] in s.starting;
    }
  }

  lemma {:induction false} TrackedStep(owner: map<string, string>, enabled: set<string>, s: System, log: seq<Event>, a: Action)
    requires Inv(owner, s, log) && AllTracked(enabled, s, log) && Admissible(owner, log, a)
    ensures AllTracked(enabled, Step(s, a).0, log + [Event(a, Step(s, a).1)])
  {
    hide Inv, Step, Admissible, PendingTracked, StartTracked, Equipped;
    var s', log' := Step(s, a).0, log + [Event(a, Step(s, a).1)];
    forall subject ensures subject in s'.enabled <==> Equipped(enabled, log', subject) {
      EnabledStep(owner, enabled, s, log, a, subject);
    }
    forall id ensures PendingTracked(enabled, s', log', id) {
      match a
      case BeginRead(_, _, _, _, _, _) => ReadTracked(owner, enabled, s, log, a, id);
      case BeginCommit(_, _, _) => CommitTracked(owner, enabled, s, log, a, id);
      case Complete(_, _, _, _, _, _, _) => CompleteTracked(owner, enabled, s, log, a, id);
      case Disable(_, _, _, _, _, _, _) => DisableTracked(owner, enabled, s, log, a, id);
    }
    forall j | 0 <= j < |s'.starting| ensures StartTracked(enabled, log', s'.starting[j]) {
      StartsTracked(owner, enabled, s, log, a, j);
    }
  }

  /** In every admissible run the subjects with an authenticator, the pending enrollments and those being started are exactly what the log says. */
  lemma {:induction false} SystemIsHistory(owner: map<string, string>, enabled: set<string>, actions: seq<Action>)
    requires AdmissibleRun(owner, enabled, actions)
    ensures AllTracked(enabled, Final(enabled, actions), Log(enabled, actions))
  {
    hide Step, Admissible, AllTracked, Inv;
    if actions == [] {
      NothingTracked(enabled);
    } else {
      var init, a := actions[..|actions| - 1], actions[|actions| - 1];
      assert forall i :: 0 <= i < |init| ==> init[..i] == actions[..i];
      SystemIsHistory(owner, enabled, init);
      RunKeepsInv(owner, enabled, init);
      TrackedStep(owner, enabled, Final(enabled, init), Log(enabled, init), a);
    }
  }

  lemma {:induction false} NothingTracked(enabled: set<string>)
    ensures AllTracked(enabled, System(enabled, map[], []), [])
  {
  }

  /** The authenticators of a run: those that the log's last installation or disabling leaves in place. */
  lemma {:induction false} EnabledExactly(owner: map<string, string>, enabled: set<string>, actions: seq<Action>, subject: string)
    requires AdmissibleRun(owner, enabled, actions)
    ensures subject in Final(enabled, actions).enabled <==> Equipped(enabled, Log(enabled, actions), subject)
  {
    hide Final, Log, Admissible, PendingTracked, StartTracked, Equipped;
    SystemIsHistory(owner, enabled, actions);
  }

  /** The answer that the log so far calls for; `start` is the enrollment that a commit takes up. */
  function Expected(enabled: set<string>, log: seq<Event>, a: Action, start: Option<Start>): Reply {
    match a
    case BeginRead(_, _, subject, verified, strong, _) =>
      if verified && (Equipped(enabled, log, subject) ==> strong) then Reading else Refused
    case BeginCommit(_, readable, _) =>
      if start.Some? && readable && DrawOf(enabled, log, start.value.id).Some?
         && Equipped(enabled, log, DrawOf(enabled, log, start.value.id).value.subject) == DrawOf(enabled, log, start.value.id).value.enabled
      then Begun(start.value.id) else Refused
    case Complete(identity, id, _, strong, readable, installation, now) =>
      if !Presentable(a) || !Alive(enabled, log, id) || DrawOf(enabled, log, id).None? then Refused
      else
        var d := DrawOf(enabled, log, id).value;
        if d.identity != identity || d.expiresAt <= now || (Equipped(enabled, log, d.subject) && !strong) || !readable then Refused
        else if installation.Installs? then Installed(id)
        else if installation.WrongCode? then Rejected(id)
        else Refused
    case Disable(_, subject, verified, strong, readable, revoked, removed) =>
      if strong && verified && readable && Equipped(enabled, log, subject) && revoked && removed then Disabled else Refused
  }

  lemma {:induction false} ReplyExpected(owner: map<string, string>, enabled: set<string>, s: System, log: seq<Event>, a: Action)
    requires Inv(owner, s, log) && AllTracked(enabled, s, log)
    ensures Step(s, a).1 == Expected(enabled, log, a, if a.BeginCommit? && a.index < |s.starting| then Some(s.starting[a.index]) else None)
  {
    hide Rejections, Drawn, OnePerIdentity, Alive, Equipped, DrawOf, WellFormed, Presentable;
    match a
    case BeginCommit(index, _, _) =>
      if index < |s.starting| {
        assert StartTracked(enabled, log, s.starting[index]);
      }
    case Complete(_, id, _, _, _, _, _) =>
      SameForm(a);
      assert PendingTracked(enabled, s, log, id);
      if id in s.pending {
        assert PendingOk(owner, s.enabled, log, id, s.pending[id]);
      }
    case _ =>
  }

  /** Every answer of every admissible run is the one that the earlier events call for. */
  lemma {:induction false} AnswersExactly(owner: map<string, string>, enabled: set<string>, actions: seq<Action>, i: nat)
    requires AdmissibleRun(owner, enabled, actions) && i < |actions|
    ensures var s, a := Final(enabled, actions[..i]), actions[i];
      Log(enabled, actions)[i].reply
      == Expected(enabled, Log(enabled, actions)[..i], a, if a.BeginCommit? && a.index < |s.starting| then Some(s.starting[a.index]) else None)
  {
    hide Final, Log, Admissible, AllTracked, Inv, Expected, Step;
    LogPrefix(enabled, actions, i);
    AdmissiblePrefix(owner, enabled, actions, i);
    SystemIsHistory(owner, enabled, actions[..i]);
    RunKeepsInv(owner, enabled, actions[..i]);
    ReplyExpected(owner, enabled, Final(enabled, actions[..i]), Log(enabled, actions[..i]), actions[i]);
  }

  // ----- The service -----

  class AccountService {
    var pendingTotp: map<string, Enrollment>
    var enabled: set<string>

    ghost function Contents(): System
      reads this
    {
      System(enabled, pendingTotp, [])
    }

    constructor (enabled: set<string>)
      ensures Contents() == System(enabled, map[], [])
    {
      this.enabled, pendingTotp := enabled, map[];
    }

    /** The second step of starting an enrollment, under the lock. */
    method CommitTotpEnrollment(start: Start, readable: bool, now: int) returns (ok: bool)
      modifies this
      ensures var (s, reply) := Committed(old(Contents()), start, readable, now);
        Contents() == s && ok == reply.Begun?
    {
      if !readable || (start.subject in enabled) != start.enabled {
        return false;
      }
      ghost var before := pendingTotp;
      var todo := pendingTotp.Keys;
      while todo != {}
        invariant todo <= pendingTotp.Keys <= before.Keys && enabled == old(enabled)
        invariant forall id <- pendingTotp :: pendingTotp[id] == before[id]
        invariant forall id <- before :: id in todo || (id in pendingTotp <==> before[id].identity != start.identity && now < before[id].expiresAt)
        decreases todo
      {
        var id :| id in todo;
        if pendingTotp[id].identity == start.identity || pendingTotp[id].expiresAt <= now {
          pendingTotp := pendingTotp - {id};
        }
        todo := todo - {id};
      }
      assert pendingTotp == Kept(before, start.identity, now);
      if start.id !in pendingTotp {
        pendingTotp := pendingTotp[start.id := Enrollment(start.identity, start.subject, start.expiresAt, start.enabled, 0)];
      }
      return true;
    }

    /** Both steps, when nothing comes between them. */
    method BeginTotpEnrollment(id: string, identity: string, subject: string, verified: bool, strong: bool, readable: bool, now: int) returns (ok: bool)
      modifies this
      ensures var (reading, first) := Step(old(Contents()), BeginRead(id, identity, subject, verified, strong, now));
        if first == Refused then Contents() == old(Contents()) && !ok
        else var (s, reply) := Step(reading, BeginCommit(0, readable, now)); Contents() == s && ok == reply.Begun?
    {
      hide Committed;
      if !verified {
        return false;
      }
      var on := subject in enabled;
      if on && !strong {
        return false;
      }
      var start := Start(id, identity, subject, now + LIFETIME, on);
      assert [] + [start] == [start] && [start][..0] + [start][1..] == [];
      ok := CommitTotpEnrollment(start, readable, now);
    }

    method CompleteTotpEnrollment(identity: string, id: string, code: string, strong: bool, readable: bool, installation: Installation, now: int) returns (reply: Reply)
      modifies this
      ensures (Contents(), reply) == Step(old(Contents()), Complete(identity, id, code, strong, readable, installation, now))
    {
      hide WellFormed;
      if !WellFormed(id, code) || id !in pendingTotp {
        return Refused;
      }
      var found := pendingTotp[id];
      if found.identity != identity {
        return Refused;
      }
      if found.expiresAt <= now {
        pendingTotp := pendingTotp - {id};
        return Refused;
      }
      if found.replacementAuthorized && !strong {
        return Refused;
      }
      if !readable {
        return Refused;
      }
      if (found.subject in enabled) != found.replacementAuthorized {
        pendingTotp := pendingTotp - {id};
        return StateChanged;
      }
      match installation
      case Unavailable =>
        return Refused;
      case WrongCode =>
        found := found.(attempts := found.attempts + 1);
        pendingTotp := pendingTotp[id := found];
        if found.attempts >= MAXIMUM_ATTEMPTS {
          pendingTotp := pendingTotp - {id};
          assert pendingTotp == old(pendingTotp) - {id};
        }
        return Rejected(id);
      case Installs =>
        enabled := enabled + {found.subject};
        pendingTotp := pendingTotp - {id};
        return Installed(id);
    }

    method DisableTotp(identity: string, subject: string, verified: bool, strong: bool, readable: bool, revoked: bool, removed: bool) returns (reply: Reply)
      modifies this
      ensures (Contents(), reply) == Step(old(Contents()), Disable(identity, subject, verified, strong, readable, revoked, removed))
    {
      if !strong || !verified || !readable || subject !in enabled {
        return Refused;
      }
      ghost var before := pendingTotp;
      var todo := pendingTotp.Keys;
      while todo != {}
        invariant todo <= pendingTotp.Keys <= before.Keys && enabled == old(enabled)
        invariant forall id <- pendingTotp :: pendingTotp[id] == before[id]
        invariant forall id <- before :: id in todo || (id in pendingTotp <==> before[id].identity != identity)
        decreases todo
      {
        var id :| id in todo;
        if pendingTotp[id].identity == identity {
          pendingTotp := pendingTotp - {id};
        }
        todo := todo - {id};
      }
      assert pendingTotp == Without(before, identity);
      if !revoked || !removed {
        return Refused;
      }
      enabled := enabled - {subject};
      return Disabled;
    }
  }
}
