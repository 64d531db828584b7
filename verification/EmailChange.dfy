/**
 Changing the email address of an identity: ordered writes to four repositories,
 with compensations when one of them fails.

 Every call may fail, by a fault the caller does not control or because the
 repository refuses it. The question is what a failed change leaves behind.
 */
module EmailChange {
  import opened Foundation
  import opened AccountRepository

  /** A local account: who it belongs to, if anyone, and its credentials. */
  datatype Account = Account(identity: Option<string>, credentials: string)

  datatype Profile = Profile(email: Option<string>, verified: bool, updatedAt: int, other: string)

  datatype State = State(
    links: map<External, string>, accounts: map<string, Account>, profiles: map<string, Profile>,
    reservations: map<External, Reservation>)

  /** A confirmed request; `previous` is the subject of the local connection found for the identity. */
  datatype Request = Request(
    provider: string, identity: string, replacement: string, password: Option<string>, previous: Option<string>, now: int)

  /** Which calls fail for reasons of their own: forward steps first, compensations last. */
  datatype Faults = Faults(
    consume: bool, reserved: bool, profile: bool, connections: bool, enroll: bool, attach: bool, rebind: bool,
    setEmail: bool, save: bool, detach: bool, release: bool,
    undoEnroll: bool, undoAttach: bool, undoRebind: bool, undoRelease: bool)

  /** Compensations do not fail by themselves. */
  predicate Honest(f: Faults) {
    !f.undoEnroll && !f.undoAttach && !f.undoRebind && !f.undoRelease
  }

  function New(q: Request): External { External(q.provider, q.replacement) }

  function Old(q: Request): External
    requires q.previous.Some?
  {
    External(q.provider, q.previous.value)
  }

  // ----- Contracts of the repositories -----

  /** Attaching again to the same owner is accepted; another owner's subject is never transferred. */
  function Attach(links: map<External, string>, external: External, owner: string): Option<map<External, string>> {
    if external in links then (if links[external] == owner then Some(links) else None)
    else Some(links[external := owner])
  }

  function Detach(links: map<External, string>, external: External, owner: string): Option<map<External, string>> {
    if external !in links || links[external] != owner then None else Some(links - {external})
  }

  predicate ValidSubject(subject: string) {
    0 < |subject| <= 320 && forall c <- subject :: c as int >= 0x20 && c as int != 0x7F
  }

  function Enroll(accounts: map<string, Account>, identity: string, subject: string, credentials: string): Option<map<string, Account>> {
    if identity == "" || !ValidSubject(subject) || subject in accounts then None
    else Some(accounts[subject := Account(Some(identity), credentials)])
  }

  function RemovePending(accounts: map<string, Account>, identity: string, subject: string): Option<map<string, Account>> {
    if subject !in accounts then Some(accounts)
    else if accounts[subject].identity != Some(identity) then None
    else Some(accounts - {subject})
  }

  predicate Rebindable(accounts: map<string, Account>, identity: string, previous: string, replacement: string) {
    && identity != "" && previous != "" && ValidSubject(replacement) && replacement !in accounts && previous in accounts
    && (accounts[previous].identity.Some? ==> accounts[previous].identity.value == identity)
  }

  /** The account moves to the new subject and is bound to the identity, whether or not it was before. */
  function Rebind(accounts: map<string, Account>, identity: string, previous: string, replacement: string): Option<map<string, Account>> {
    if !Rebindable(accounts, identity, previous, replacement) then None
    else Some((accounts - {previous})[replacement := accounts[previous].(identity := Some(identity))])
  }

  function Try<T>(fault: bool, result: Option<T>): Option<T> {
    if fault then None else result
  }

  /** A compensation: its failure is ignored. */
  function Undo<T>(fault: bool, result: Option<T>, current: T): T {
    if fault || result.None? then current else result.value
  }

  // ----- The change -----

  function WithEmail(profiles: map<string, Profile>, q: Request): map<string, Profile> {
    if q.identity in profiles
    then profiles[q.identity := profiles[q.identity].(email := Some(q.replacement), verified := true, updatedAt := q.now)]
    else profiles
  }

  /** Giving up: the reservation is released, and what that answers is ignored. */
  function GiveUp(s: State, q: Request, f: Faults): (State, Status) {
    (if f.undoRelease then s else s.(reservations := Released(s.reservations, New(q), q.identity).0), Failed)
  }

  function Finish(s: State, q: Request, f: Faults): (State, Status) {
    if f.release then (s, Failed)
    else
      var (m, reply) := Released(s.reservations, New(q), q.identity);
      (s.(reservations := m), if reply == Accepted then Ok else Failed)
  }

  /** Only the profile changes. */
  function SaveOnly(s: State, q: Request, f: Faults): (State, Status) {
    if f.setEmail || f.save then GiveUp(s, q, f) else Finish(s.(profiles := WithEmail(s.profiles, q)), q, f)
  }

  /** The identity had no local connection and gets one. */
  function EnrollNew(s: State, q: Request, f: Faults): (State, Status)
    requires q.password.Some?
  {
    var accounts := Try(f.enroll, Enroll(s.accounts, q.identity, q.replacement, q.password.value));
    if accounts.None? then GiveUp(s, q, f)
    else
      var links := Try(f.attach, Attach(s.links, New(q), q.identity));
      var withdrawn := Undo(f.undoEnroll, RemovePending(accounts.value, q.identity, q.replacement), accounts.value);
      if links.None? then GiveUp(s.(accounts := withdrawn), q, f)
      else if f.setEmail || f.save then
        GiveUp(s.(links := Undo(f.undoAttach, Detach(links.value, New(q), q.identity), links.value), accounts := withdrawn), q, f)
      else Finish(s.(links := links.value, accounts := accounts.value, profiles := WithEmail(s.profiles, q)), q, f)
  }

  /** The identity's local connection moves from one subject to the other. */
  function Move(s: State, q: Request, f: Faults): (State, Status)
    requires q.previous.Some?
  {
    var links := Try(f.attach, Attach(s.links, New(q), q.identity));
    if links.None? then GiveUp(s, q, f)
    else
      var detached := Undo(f.undoAttach, Detach(links.value, New(q), q.identity), links.value);
      var accounts := Try(f.rebind, Rebind(s.accounts, q.identity, q.previous.value, q.replacement));
      if accounts.None? then GiveUp(s.(links := detached), q, f)
      else if f.setEmail || f.save then
        var returned := Undo(f.undoRebind, Rebind(accounts.value, q.identity, q.replacement, q.previous.value), accounts.value);
        GiveUp(s.(links := detached, accounts := returned), q, f)
      else
        var changed := s.(links := links.value, accounts := accounts.value, profiles := WithEmail(s.profiles, q));
        var cleaned := Try(f.detach, Detach(links.value, Old(q), q.identity));
        if cleaned.None? then GiveUp(changed, q, f) else Finish(changed.(links := cleaned.value), q, f)
  }

  /** The request got as far as reading the profile and the connections. */
  predicate Entered(s: State, q: Request, f: Faults) {
    && (q.password.Some? ==> 8 <= |q.password.value| <= 1024)
    && !f.consume && !f.reserved && ReservedOwner(s.reservations, New(q), q.now) == Some(q.identity)
  }

  function Change(s: State, q: Request, f: Faults): (State, Status) {
    if !Entered(s, q, f) then (s, Failed)
    else if f.profile || q.identity !in s.profiles || f.connections then GiveUp(s, q, f)
    else if q.previous.None? then (if q.password.Some? then EnrollNew(s, q, f) else SaveOnly(s, q, f))
    else if q.previous.value == q.replacement then SaveOnly(s, q, f)
    else Move(s, q, f)
  }

  // ----- What it should do -----

  /** `previous` is a local connection of the identity, if it has one. */
  predicate Picked(s: State, q: Request) {
    match q.previous
    case Some(subject) => Old(q) in s.links && s.links[Old(q)] == q.identity
    case None => forall e <- s.links :: e.provider == q.provider ==> s.links[e] != q.identity
  }

  datatype Core = Core(links: map<External, string>, accounts: map<string, Account>, profiles: map<string, Profile>)

  function CoreOf(s: State): Core { Core(s.links, s.accounts, s.profiles) }

  predicate Moves(q: Request) { q.previous.Some? && q.previous.value != q.replacement }

  predicate Enrolls(q: Request) { q.previous.None? && q.password.Some? }

  /** The new email in place, with the old link still attached. */
  function Lingering(s: State, q: Request): Core
    requires q.identity in s.profiles
  {
    var profiles := s.profiles[q.identity := Profile(Some(q.replacement), true, q.now, s.profiles[q.identity].other)];
    if Moves(q) then
      Core(s.links[New(q) := q.identity],
           if q.previous.value in s.accounts
           then (s.accounts - {q.previous.value})[q.replacement := Account(Some(q.identity), s.accounts[q.previous.value].credentials)]
           else s.accounts,
           profiles)
    else if Enrolls(q) then
      Core(s.links[New(q) := q.identity], s.accounts[q.replacement := Account(Some(q.identity), q.password.value)], profiles)
    else Core(s.links, s.accounts, profiles)
  }

  /** The completed change. */
  function Intended(s: State, q: Request): Core
    requires q.identity in s.profiles
  {
    var c := Lingering(s, q);
    if Moves(q) then c.(links := c.links - {Old(q)}) else c
  }

  /** A completed change, or none; a failed detachment of the old link or a failed release leave a completed one behind. */
  predicate AllOrNothing(s: State, q: Request, f: Faults) {
    var (s', status) := Change(s, q, f);
    if status == Ok then q.identity in s.profiles && CoreOf(s') == Intended(s, q)
    else
      || CoreOf(s') == CoreOf(s)
      || (q.identity in s.profiles && f.detach && Moves(q) && CoreOf(s') == Lingering(s, q))
      || (q.identity in s.profiles && f.release && CoreOf(s') == Intended(s, q))
  }

  /** What the caller can check beforehand: compensations would restore what they undo. */
  predicate Reversible(s: State, q: Request) {
    q.identity in s.profiles && ReservedOwner(s.reservations, New(q), q.now) == Some(q.identity)
      && (q.password.Some? ==> 8 <= |q.password.value| <= 1024) ==>
      && (Enrolls(q) && Enroll(s.accounts, q.identity, q.replacement, q.password.value).Some? ==> NewlyAttached(s, q))
      && (Moves(q) ==>
          && NewlyAttached(s, q)
          && (New(q) !in s.links && Rebindable(s.accounts, q.identity, q.previous.value, q.replacement)
              ==> s.accounts[q.previous.value].identity.Some? && ValidSubject(q.previous.value)))
  }

  /** The new subject is not already linked to the identity. */
  predicate NewlyAttached(s: State, q: Request) {
    New(q) in s.links ==> s.links[New(q)] != q.identity
  }

  /** Rebinding there and back restores the accounts, except that the account is now bound. */
  lemma {:induction false} RebindBack(accounts: map<string, Account>, identity: string, previous: string, replacement: string)
    requires Rebindable(accounts, identity, previous, replacement)
    ensures var moved := Rebind(accounts, identity, previous, replacement).value;
      && (ValidSubject(previous) <==> Rebind(moved, identity, replacement, previous).Some?)
      && (ValidSubject(previous) ==>
          Rebind(moved, identity, replacement, previous).value == accounts[previous := accounts[previous].(identity := Some(identity))])
      && (accounts[previous].identity.Some? ==> accounts[previous := accounts[previous].(identity := Some(identity))] == accounts)
  {
    var moved := Rebind(accounts, identity, previous, replacement).value;
    var bound := accounts[previous].(identity := Some(identity));
    assert (moved - {replacement})[previous := bound] == accounts[previous := bound];
  }

  /** Reversible requests are atomic under every pattern of forward faults. */
  lemma {:induction false} ReversibleIsAtomic(s: State, q: Request, f: Faults)
    requires Honest(f) && Picked(s, q) && Reversible(s, q)
    ensures AllOrNothing(s, q, f)
  {
    hide Change, Lingering, Willing, Reversible, Picked;
    ChangeExactly(s, q, f);
    if Willing(s, q) {
      WillingHasProfile(s, q);
    }
  }

  lemma {:induction false} WillingHasProfile(s: State, q: Request)
    requires Willing(s, q)
    ensures q.identity in s.profiles
  {
  }

  /** Only saving the profile fails. */
  function SaveFails(): Faults {
    Faults(false, false, false, false, false, false, false, false, true, false, false, false, false, false, false)
  }

  /** When a request is not reversible, a failure to save the profile leaves neither the old state nor the new one. */
  lemma {:induction false} IrreversibleIsNot(s: State, q: Request)
    requires Picked(s, q) && !Reversible(s, q)
    ensures !AllOrNothing(s, q, SaveFails())
  {
    hide WithEmail, ValidSubject;
    var f := SaveFails();
    var s' := Change(s, q, f).0;
    EmailSet(s, q);
    if NewlyAttached(s, q) {
      RebindBack(s.accounts, q.identity, q.previous.value, q.replacement);
      assert s'.accounts != s.accounts;
    } else {
      assert New(q) !in s'.links;
    }
  }

  /** The change is all-or-nothing under every pattern of faults exactly when the request is reversible. */
  lemma {:induction false} AtomicExactly(s: State, q: Request)
    requires Picked(s, q)
    ensures (forall f :: Honest(f) ==> AllOrNothing(s, q, f)) <==> Reversible(s, q)
  {
    hide AllOrNothing, Reversible, Picked;
    if Reversible(s, q) {
      forall f | Honest(f) ensures AllOrNothing(s, q, f) {
        ReversibleIsAtomic(s, q, f);
      }
    } else {
      IrreversibleIsNot(s, q);
      assert Honest(SaveFails());
    }
  }

  /** An account that no identity was bound to, moving from one address to another: a failed save leaves it bound. */
  lemma {:induction false} UnboundAccountStaysBound()
    ensures
      var q := Request("local", "alice", "new@example.org", None, Some("old@example.org"), 0);
      var s := State(map[Old(q) := "alice"], map["old@example.org" := Account(None, "secret")],
                     map["alice" := Profile(None, false, 0, "")], map[New(q) := Reservation("alice", 1)]);
      && Change(s, q, SaveFails()).1 == Failed
      && Change(s, q, SaveFails()).0.accounts == map["old@example.org" := Account(Some("alice"), "secret")]
      && !AllOrNothing(s, q, SaveFails())
  {
    hide AllOrNothing, ValidSubject;
    var q := Request("local", "alice", "new@example.org", None, Some("old@example.org"), 0);
    var s := State(map[Old(q) := "alice"], map["old@example.org" := Account(None, "secret")],
                   map["alice" := Profile(None, false, 0, "")], map[New(q) := Reservation("alice", 1)]);
    ExampleSubjects();
    assert q.replacement[0] != q.previous.value[0];
    RebindBack(s.accounts, q.identity, q.previous.value, q.replacement);
    IrreversibleIsNot(s, q);
  }

  lemma {:induction false} ExampleSubjects()
    ensures ValidSubject("new@example.org") && ValidSubject("old@example.org")
  {
  }

  /** No call fails for a reason of its own. */
  function NoFaults(): Faults {
    SaveFails().(save := false)
  }

  /** The new subject may be linked to the identity. */
  predicate Linkable(s: State, q: Request) {
    New(q) in s.links ==> s.links[New(q)] == q.identity
  }

  /** The new subject may name a local account of the identity. */
  predicate Nameable(s: State, q: Request) {
    && q.identity != "" && 0 < |q.replacement| <= 320 && q.replacement !in s.accounts
    && forall i :: 0 <= i < |q.replacement| ==> q.replacement[i] as int >= 0x20 && q.replacement[i] as int != 0x7F
  }

  /** The identity holds the reservation and has a profile, and no repository objects to the change. */
  predicate Willing(s: State, q: Request) {
    && (q.password.Some? ==> 8 <= |q.password.value| <= 1024)
    && New(q) in s.reservations && s.reservations[New(q)].identity == q.identity && q.now < s.reservations[New(q)].expiresAt
    && q.identity in s.profiles
    && (Enrolls(q) ==> Nameable(s, q) && Linkable(s, q))
    && (Moves(q) ==>
        && Nameable(s, q) && Linkable(s, q) && q.previous.value != "" && q.previous.value in s.accounts
        && (s.accounts[q.previous.value].identity.Some? ==> s.accounts[q.previous.value].identity.value == q.identity))
  }

  /** Without faults the change goes through if and only if the identity holds the reservation and has a profile, and no repository objects. */
  lemma {:induction false} FaultlessExactly(s: State, q: Request)
    requires Picked(s, q)
    ensures Change(s, q, NoFaults()).1 == Ok <==> Willing(s, q)
    ensures Change(s, q, NoFaults()).1 == Ok ==> q.identity in s.profiles && CoreOf(Change(s, q, NoFaults()).0) == Intended(s, q)
  {
    hide ValidSubject;
    SubjectMeans(q.replacement);
    if q.identity in s.profiles {
      EmailSet(s, q);
    }
  }

  /** A forward step before the old link is detached fails. */
  predicate FailsEarly(q: Request, f: Faults) {
    || f.consume || f.reserved || f.profile || f.connections || f.setEmail || f.save
    || (Enrolls(q) && (f.enroll || f.attach)) || (Moves(q) && (f.attach || f.rebind))
  }

  /**
   Exactly what a reversible request leaves behind: nothing if a repository objects or
   an early step fails, the new email beside the old link if only detaching that fails,
   the completed change if only the last release fails, and success otherwise.
   */
  lemma {:induction false} ChangeExactly(s: State, q: Request, f: Faults)
    requires Picked(s, q) && Reversible(s, q) && Honest(f)
    ensures var (s', status) := Change(s, q, f);
      if !Willing(s, q) || FailsEarly(q, f) then status == Failed && CoreOf(s') == CoreOf(s)
      else if Moves(q) && f.detach then status == Failed && CoreOf(s') == Lingering(s, q)
      else status == (if f.release then Failed else Ok) && CoreOf(s') == Intended(s, q)
  {
    hide ValidSubject, Change, WithEmail;
    SubjectMeans(q.replacement);
    if Entered(s, q, f) && q.identity in s.profiles && !f.profile && !f.connections {
      EmailSet(s, q);
      if Enrolls(q) {
        EnrollNewExactly(s, q, f);
      } else if Moves(q) {
        MoveExactly(s, q, f);
      }
    }
    ChangeCases(s, q, f);
  }

  /** Which path a change takes. */
  lemma {:induction false} ChangeCases(s: State, q: Request, f: Faults)
    ensures Change(s, q, f) ==
      if !Entered(s, q, f) then (s, Failed)
      else if f.profile || q.identity !in s.profiles || f.connections then GiveUp(s, q, f)
      else if Enrolls(q) then EnrollNew(s, q, f)
      else if Moves(q) then Move(s, q, f)
      else SaveOnly(s, q, f)
  {
    hide EnrollNew, Move, SaveOnly, GiveUp;
  }

  lemma {:induction false} EnrollNewExactly(s: State, q: Request, f: Faults)
    requires Enrolls(q) && Picked(s, q) && Reversible(s, q) && Honest(f) && Entered(s, q, f) && q.identity in s.profiles
    ensures var (s', status) := EnrollNew(s, q, f);
      if !(Nameable(s, q) && Linkable(s, q)) || f.enroll || f.attach || f.setEmail || f.save then status == Failed && CoreOf(s') == CoreOf(s)
      else status == (if f.release then Failed else Ok) && CoreOf(s') == Intended(s, q)
  {
    hide ValidSubject, WithEmail;
    EmailSet(s, q);
    SubjectMeans(q.replacement);
    var added := s.accounts[q.replacement := Account(Some(q.identity), q.password.value)];
    assert q.replacement !in s.accounts ==> added - {q.replacement} == s.accounts;
    assert New(q) !in s.links ==> s.links[New(q) := q.identity] - {New(q)} == s.links;
  }

  lemma {:induction false} MoveExactly(s: State, q: Request, f: Faults)
    requires Moves(q) && Picked(s, q) && Reversible(s, q) && Honest(f) && Entered(s, q, f) && q.identity in s.profiles
    ensures var (s', status) := Move(s, q, f);
      if !Linkable(s, q) || !Rebindable(s.accounts, q.identity, q.previous.value, q.replacement) || f.attach || f.rebind || f.setEmail || f.save
      then status == Failed && CoreOf(s') == CoreOf(s)
      else if f.detach then status == Failed && CoreOf(s') == Lingering(s, q)
      else status == (if f.release then Failed else Ok) && CoreOf(s') == Intended(s, q)
  {
    hide ValidSubject, WithEmail;
    EmailSet(s, q);
    assert New(q) !in s.links ==> s.links[New(q) := q.identity] - {New(q)} == s.links;
    if New(q) !in s.links && Rebindable(s.accounts, q.identity, q.previous.value, q.replacement) {
      RebindBack(s.accounts, q.identity, q.previous.value, q.replacement);
    }
  }

  lemma {:induction false} SubjectMeans(text: string)
    ensures ValidSubject(text) <==> 0 < |text| <= 320 && forall i :: 0 <= i < |text| ==> text[i] as int >= 0x20 && text[i] as int != 0x7F
  {
    if ValidSubject(text) {
      assert forall i :: 0 <= i < |text| ==> text[i] in text;
    }
  }

  lemma {:induction false} EmailSet(s: State, q: Request)
    requires q.identity in s.profiles
    ensures WithEmail(s.profiles, q) == s.profiles[q.identity := Profile(Some(q.replacement), true, q.now, s.profiles[q.identity].other)]
  {
  }

  /** Once the reservation was confirmed, the call ends without it, whatever else fails, unless releasing it fails. */
  lemma {:induction false} ReservationEnds(s: State, q: Request, f: Faults)
    requires Entered(s, q, f) && !f.undoRelease && !f.release
    ensures Change(s, q, f).0.reservations == s.reservations - {New(q)}
  {
    hide WithEmail, ValidSubject, Attach, Detach, Enroll, Rebind, RemovePending;
  }

  // ----- The service -----

  class AccountService {
    var links: map<External, string>
    var accounts: map<string, Account>
    var profiles: map<string, Profile>
    var reservations: map<External, Reservation>

    ghost function Contents(): State
      reads this
    {
      State(links, accounts, profiles, reservations)
    }

    constructor (s: State)
      ensures Contents() == s
    {
      links, accounts, profiles, reservations := s.links, s.accounts, s.profiles, s.reservations;
    }

    method AttachVerified(fault: bool, external: External, owner: string) returns (status: Status)
      modifies this
      ensures Contents() == old(Contents()).(links := Undo(fault, Attach(old(links), external, owner), old(links)))
      ensures status == Ok <==> Try(fault, Attach(old(links), external, owner)).Some?
      ensures status == Ok <==> !fault && (external in old(links) ==> old(links)[external] == owner)
      ensures links == if status == Ok then old(links)[external := owner] else old(links)
    {
      if fault || (external in links && links[external] != owner) {
        return Failed;
      }
      if external !in links {
        links := links[external := owner];
      }
      return Ok;
    }

    method DetachLink(fault: bool, external: External, owner: string) returns (status: Status)
      modifies this
      ensures Contents() == old(Contents()).(links := Undo(fault, Detach(old(links), external, owner), old(links)))
      ensures status == Ok <==> Try(fault, Detach(old(links), external, owner)).Some?
      ensures status == Ok <==> !fault && external in old(links) && old(links)[external] == owner
      ensures links == if status == Ok then old(links) - {external} else old(links)
    {
      if fault || external !in links || links[external] != owner {
        return Failed;
      }
      links := links - {external};
      return Ok;
    }

    method EnrollPending(fault: bool, identity: string, subject: string, credentials: string) returns (status: Status)
      modifies this
      ensures Contents() == old(Contents()).(accounts := Undo(fault, Enroll(old(accounts), identity, subject, credentials), old(accounts)))
      ensures status == Ok <==> Try(fault, Enroll(old(accounts), identity, subject, credentials)).Some?
      ensures status == Ok ==> subject !in old(accounts) && accounts == old(accounts)[subject := Account(Some(identity), credentials)]
      ensures status == Failed ==> accounts == old(accounts)
    {
      if identity == "" || !ValidSubject(subject) || fault || subject in accounts {
        return Failed;
      }
      accounts := accounts[subject := Account(Some(identity), credentials)];
      return Ok;
    }

    method RemovePendingAccount(fault: bool, identity: string, subject: string)
      modifies this
      ensures Contents() == old(Contents()).(accounts := Undo(fault, RemovePending(old(accounts), identity, subject), old(accounts)))
      ensures accounts == if !fault && subject in old(accounts) && old(accounts)[subject].identity == Some(identity)
                          then old(accounts) - {subject} else old(accounts)
    {
      if !fault && subject in accounts && accounts[subject].identity == Some(identity) {
        accounts := accounts - {subject};
      }
    }

    method RebindSubject(fault: bool, identity: string, previous: string, replacement: string) returns (status: Status)
      modifies this
      ensures Contents() == old(Contents()).(accounts := Undo(fault, Rebind(old(accounts), identity, previous, replacement), old(accounts)))
      ensures status == Ok <==> Try(fault, Rebind(old(accounts), identity, previous, replacement)).Some?
      ensures status == Ok ==>
        && previous in old(accounts) && replacement !in old(accounts)
        && accounts == (old(accounts) - {previous})[replacement := Account(Some(identity), old(accounts)[previous].credentials)]
        && (old(accounts)[previous].identity.Some? ==> old(accounts)[previous].identity.value == identity)
      ensures status == Failed ==> accounts == old(accounts)
    {
      if fault || identity == "" || previous == "" || !ValidSubject(replacement) || replacement in accounts || previous !in accounts {
        return Failed;
      }
      var account := accounts[previous];
      if account.identity.Some? && account.identity.value != identity {
        return Failed;
      }
      account := account.(identity := Some(identity));
      accounts := accounts - {previous};
      accounts := accounts[replacement := account];
      return Ok;
    }

    method SaveEmail(q: Request, f: Faults) returns (status: Status)
      modifies this
      ensures status == Failed <==> f.setEmail || f.save
      ensures Contents() == if status == Failed then old(Contents()) else old(Contents()).(profiles := WithEmail(old(profiles), q))
    {
      if f.setEmail || f.save {
        return Failed;
      }
      if q.identity in profiles {
        profiles := profiles[q.identity := profiles[q.identity].(email := Some(q.replacement), verified := true, updatedAt := q.now)];
      }
      return Ok;
    }

    method ReleaseReservation(fault: bool, q: Request) returns (status: Status)
      modifies this
      ensures Contents() == if fault then old(Contents()) else old(Contents()).(reservations := Released(old(reservations), New(q), q.identity).0)
      ensures status == Ok <==> !fault && Released(old(reservations), New(q), q.identity).1 == Accepted
    {
      if fault {
        return Failed;
      }
      if New(q) !in reservations {
        return Ok;
      }
      if reservations[New(q)].identity != q.identity {
        return Failed;
      }
      reservations := reservations - {New(q)};
      return Ok;
    }

    method SaveAndFinish(q: Request, f: Faults) returns (status: Status)
      modifies this
      ensures (Contents(), status) == SaveOnly(old(Contents()), q, f)
    {
      hide Released, WithEmail;
      status := SaveEmail(q, f);
      if status == Failed {
        var _ := ReleaseReservation(f.undoRelease, q);
        return Failed;
      }
      status := ReleaseReservation(f.release, q);
    }

    method EnrollAndFinish(q: Request, f: Faults) returns (status: Status)
      requires q.password.Some?
      modifies this
      ensures (Contents(), status) == EnrollNew(old(Contents()), q, f)
    {
      hide Released, WithEmail, Enroll, RemovePending, Attach, Detach;
      status := EnrollPending(f.enroll, q.identity, q.replacement, q.password.value);
      if status == Failed {
        var _ := ReleaseReservation(f.undoRelease, q);
        return Failed;
      }
      status := AttachVerified(f.attach, New(q), q.identity);
      if status == Failed {
        RemovePendingAccount(f.undoEnroll, q.identity, q.replacement);
        var _ := ReleaseReservation(f.undoRelease, q);
        return Failed;
      }
      status := SaveEmail(q, f);
      if status == Failed {
        var _ := DetachLink(f.undoAttach, New(q), q.identity);
        RemovePendingAccount(f.undoEnroll, q.identity, q.replacement);
        var _ := ReleaseReservation(f.undoRelease, q);
        return Failed;
      }
      status := ReleaseReservation(f.release, q);
    }

    method MoveAndFinish(q: Request, f: Faults) returns (status: Status)
      requires q.previous.Some?
      modifies this
      ensures (Contents(), status) == Move(old(Contents()), q, f)
    {
      hide Released, WithEmail, Rebind, Attach, Detach;
      status := AttachVerified(f.attach, New(q), q.identity);
      if status == Failed {
        var _ := ReleaseReservation(f.undoRelease, q);
        return Failed;
      }
      status := RebindSubject(f.rebind, q.identity, q.previous.value, q.replacement);
      if status == Failed {
        var _ := DetachLink(f.undoAttach, New(q), q.identity);
        var _ := ReleaseReservation(f.undoRelease, q);
        return Failed;
      }
      status := SaveEmail(q, f);
      if status == Failed {
        var _ := RebindSubject(f.undoRebind, q.identity, q.replacement, q.previous.value);
        var _ := DetachLink(f.undoAttach, New(q), q.identity);
        var _ := ReleaseReservation(f.undoRelease, q);
        return Failed;
      }
      status := DetachLink(f.detach, Old(q), q.identity);
      if status == Failed {
        var _ := ReleaseReservation(f.undoRelease, q);
        return Failed;
      }
      status := ReleaseReservation(f.release, q);
    }

    /** The subject of some local connection of the identity, if it has one. */
    method FindLocal(q: Request) returns (subject: Option<string>)
      ensures Picked(Contents(), q.(previous := subject))
    {
      var todo := links.Keys;
      while todo != {}
        invariant todo <= links.Keys
        invariant forall e <- links :: e in todo || e.provider != q.provider || links[e] != q.identity
        decreases todo
      {
        var e :| e in todo;
        if links[e] == q.identity && e.provider == q.provider {
          assert e == External(q.provider, e.subject);
          return Some(e.subject);
        }
        todo := todo - {e};
      }
      return None;
    }

    /** `q` is the request with the connection that was found. */
    method CompleteEmailChange(request: Request, f: Faults) returns (status: Status, ghost q: Request)
      modifies this
      ensures q == request.(previous := q.previous) && Picked(old(Contents()), q)
      ensures (Contents(), status) == Change(old(Contents()), q, f)
      ensures Honest(f) && Reversible(old(Contents()), q) ==> AllOrNothing(old(Contents()), q, f)
    {
      var previous := FindLocal(request);
      q := request.(previous := previous);
      status := Complete(request.(previous := previous), f);
    }

    method Complete(q: Request, f: Faults) returns (status: Status)
      requires Picked(Contents(), q)
      modifies this
      ensures (Contents(), status) == Change(old(Contents()), q, f)
      ensures Honest(f) && Reversible(old(Contents()), q) ==> AllOrNothing(old(Contents()), q, f)
    {
      hide SaveOnly, EnrollNew, Move, Released, Reversible;
      if Honest(f) && Reversible(Contents(), q) {
        ReversibleIsAtomic(Contents(), q, f);
      }
      if q.password.Some? && (|q.password.value| < 8 || |q.password.value| > 1024) {
        return Failed;
      }
      if f.consume || f.reserved || ReservedOwner(reservations, New(q), q.now) != Some(q.identity) {
        return Failed;
      }
      if f.profile || q.identity !in profiles || f.connections {
        var _ := ReleaseReservation(f.undoRelease, q);
        return Failed;
      }
      if q.previous.None? {
        if q.password.Some? {
          status := EnrollAndFinish(q, f);
          return;
        }
        status := SaveAndFinish(q, f);
        return;
      }
      if q.previous.value == q.replacement {
        status := SaveAndFinish(q, f);
        return;
      }
      status := MoveAndFinish(q, f);
    }
  }
}
