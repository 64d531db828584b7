/**
 Consent grants: what a person allowed a client to do, until it expires or is
 withdrawn.

 The repository keeps every grant ever made and marks superseded ones as revoked.
 Lookup scans it. The reference is the history: the most recent grant for an
 identity, a client and an audience, and whether it was withdrawn since.
 */
module Consent {
  import opened Foundation

  // ----- Scopes in order -----

  /** Byte-wise lexicographic order. */
  predicate Less(a: string, b: string) {
    if b == "" then false
    else if a == "" then true
    else a[0] < b[0] || (a[0] == b[0] && Less(a[1..], b[1..]))
  }

  lemma {:induction false} LessTransitive(a: string, b: string, c: string)
    requires Less(a, b) && Less(b, c)
    ensures Less(a, c)
  {
    if a != "" && a[0] == b[0] && b[0] == c[0] {
      LessTransitive(a[1..], b[1..], c[1..]);
    }
  }

  lemma {:induction false} LessTotal(a: string, b: string)
    ensures a == b || Less(a, b) || Less(b, a)
    ensures !(Less(a, b) && Less(b, a)) && !Less(a, a)
  {
    if a == "" {
    } else {
      LessTotal(a[1..], a[1..]);
    }
    if a != "" && b != "" {
      LessTotal(a[1..], b[1..]);
      if a[0] == b[0] && a[1..] == b[1..] {
        assert a == [a[0]] + a[1..] && b == [b[0]] + b[1..];
      }
    }
  }

  /** In order and without duplicates. */
  predicate Ascending(s: seq<string>) {
    forall i, j :: 0 <= i < j < |s| ==> Less(s[i], s[j])
  }

  function SetOf(s: seq<string>): set<string> {
    set x | x in s
  }

  /** Where a scope belongs in an ordered list. */
  method Position(s: seq<string>, x: string) returns (k: nat)
    requires Ascending(s)
    ensures k <= |s|
    ensures forall i :: 0 <= i < k ==> Less(s[i], x)
    ensures forall i :: k <= i < |s| ==> s[i] == x || Less(x, s[i])
  {
    hide Less;
    var high := |s|;
    k := 0;
    while k < high
      invariant 0 <= k <= high <= |s|
      invariant forall i :: 0 <= i < k ==> Less(s[i], x)
      invariant forall i :: high <= i < |s| ==> s[i] == x || Less(x, s[i])
    {
      var middle := (k + high) / 2;
      LessTotal(s[middle], x);
      if Less(s[middle], x) {
        forall i | 0 <= i < middle ensures Less(s[i], x) {
          LessTransitive(s[i], s[middle], x);
        }
        k := middle + 1;
      } else {
        forall i | middle < i < |s| ensures Less(x, s[i]) {
          if s[middle] != x {
            LessTransitive(x, s[middle], s[i]);
          }
        }
        high := middle;
      }
    }
  }

  /** Binary search in an ordered list finds exactly its members. */
  method Contains(s: seq<string>, x: string) returns (found: bool)
    requires Ascending(s)
    ensures found <==> x in s
  {
    hide Less;
    var k := Position(s, x);
    found := k < |s| && s[k] == x;
    if x in s {
      var i :| 0 <= i < |s| && s[i] == x;
      LessTotal(x, x);
      if k < |s| && k < i {
        LessTotal(x, s[k]);
      }
    }
  }

  /** Adding a scope to an ordered list keeps it ordered, and adds nothing else. */
  method Insert(s: seq<string>, x: string) returns (t: seq<string>)
    requires Ascending(s)
    ensures Ascending(t) && SetOf(t) == SetOf(s) + {x} && |s| <= |t| <= |s| + 1
  {
    hide Less;
    var k := Position(s, x);
    if k < |s| && s[k] == x {
      t := s;
    } else {
      t := s[..k] + [x] + s[k..];
      forall i | k <= i < |s| ensures Less(x, s[i]) {
        if i > k {
          LessTransitive(x, s[k], s[i]);
        }
      }
    }
  }

  predicate ValidScope(text: string) {
    0 < |text| <= 128
    && forall c <- text :: c as int == 0x21 || 0x23 <= c as int <= 0x5B || 0x5D <= c as int <= 0x7E
  }

  /** A scope is 1 to 128 printable ASCII characters other than the space, the quotation mark and the backslash: section 3.3 of RFC 6749. */
  lemma {:induction false} ScopeMeaning(text: string)
    ensures ValidScope(text) <==>
      1 <= |text| <= 128 && forall i :: 0 <= i < |text| ==> 0x20 < text[i] as int < 0x7F && text[i] != '"' && text[i] != '\\'
  {
    if ValidScope(text) {
      assert forall i :: 0 <= i < |text| ==> text[i] in text;
    }
  }

  predicate ScopesOk(scopes: seq<string>) {
    0 < |scopes| <= 256 && forall s <- scopes :: ValidScope(s)
  }

  /** Sorting and removing duplicates. */
  method NormalizeScopes(scopes: seq<string>) returns (r: Option<seq<string>>)
    ensures r.Some? <==> ScopesOk(scopes)
    ensures r.Some? ==> Ascending(r.value) && SetOf(r.value) == SetOf(scopes)
  {
    hide Less, ValidScope;
    if |scopes| == 0 || |scopes| > 256 || exists s <- scopes :: !ValidScope(s) {
      return None;
    }
    var out: seq<string> := [];
    for i := 0 to |scopes|
      invariant Ascending(out) && SetOf(out) == SetOf(scopes[..i])
    {
      out := Insert(out, scopes[i]);
      assert scopes[..i + 1] == scopes[..i] + [scopes[i]];
    }
    assert scopes[..|scopes|] == scopes;
    return Some(out);
  }

  /** A set of scopes has one normal form. */
  lemma {:induction false} NormalFormUnique(a: seq<string>, b: seq<string>)
    requires Ascending(a) && Ascending(b) && SetOf(a) == SetOf(b)
    ensures a == b
    decreases |a|
  {
    hide Less;
    assert b != [] ==> b[0] in SetOf(a);
    if a == [] {
    } else {
      assert a[0] in SetOf(b);
      FirstIsLeast(a, b[0]);
      FirstIsLeast(b, a[0]);
      LessTotal(a[0], b[0]);
      RestOf(a);
      RestOf(b);
      NormalFormUnique(a[1..], b[1..]);
      assert a == [a[0]] + a[1..] && b == [b[0]] + b[1..];
    }
  }

  lemma {:induction false} FirstIsLeast(s: seq<string>, x: string)
    requires Ascending(s) && x in s
    ensures s != [] && (s[0] == x || Less(s[0], x))
  {
    hide Less;
    var i :| 0 <= i < |s| && s[i] == x;
  }

  lemma {:induction false} RestOf(s: seq<string>)
    requires Ascending(s) && s != []
    ensures Ascending(s[1..]) && SetOf(s[1..]) == SetOf(s) - {s[0]}
  {
    hide Less;
    LessTotal(s[0], s[0]);
    forall x | x in SetOf(s) - {s[0]} ensures x in s[1..] {
      var i :| 0 <= i < |s| && s[i] == x;
      assert s[1..][i - 1] == x;
    }
    forall i | 1 <= i < |s| ensures s[i] != s[0] {
      assert Less(s[0], s[i]);
    }
  }

  // ----- Grants -----

  datatype Grant = Grant(
    id: string, identity: string, client: string, audience: string, scopes: seq<string>,
    grantedAt: int, expiresAt: Option<int>, revokedAt: Option<int>)

  /** What a grant is about. */
  datatype Subject = Subject(identity: string, client: string, audience: string)

  function About(g: Grant): Subject { Subject(g.identity, g.client, g.audience) }

  predicate ActiveAt(g: Grant, now: int) {
    g.revokedAt.None? && (g.expiresAt.Some? ==> now < g.expiresAt.value)
  }

  function Revoked(g: Grant, now: int): Grant {
    if g.revokedAt.None? then g.(revokedAt := Some(now)) else g
  }

  /** A grant as its factory makes it. */
  predicate Made(g: Grant) {
    && g.id != "" && g.identity != "" && g.client != "" && g.audience != "" && |g.audience| <= 2048
    && Ascending(g.scopes) && (g.expiresAt.Some? ==> g.grantedAt < g.expiresAt.value) && g.revokedAt.None?
  }

  type Grants = map<string, Grant>

  /** Every active grant about the same subject is revoked, and the new one is stored. */
  function Saved(m: Grants, grant: Grant): Grants {
    (map id | id in m :: if About(m[id]) == About(grant) && ActiveAt(m[id], grant.grantedAt) then Revoked(m[id], grant.grantedAt) else m[id])
    [grant.id := grant]
  }

  function RevokedIn(m: Grants, id: string, identity: string, now: int): Grants {
    if id in m && m[id].identity == identity then m[id := Revoked(m[id], now)] else m
  }

  datatype Op = Save(grant: Grant) | Revoke(id: string, identity: string, now: int)

  function Step(m: Grants, op: Op): Grants {
    match op
    case Save(grant) => Saved(m, grant)
    case Revoke(id, identity, now) => RevokedIn(m, id, identity, now)
  }

  function Final(ops: seq<Op>): Grants {
    if ops == [] then map[] else Step(Final(ops[..|ops| - 1]), ops[|ops| - 1])
  }

  // ----- The history -----

  /** The most recent grant about a subject. */
  function LastGrant(ops: seq<Op>, about: Subject): Option<Grant> {
    if ops == [] then None
    else
      var op := ops[|ops| - 1];
      if op.Save? && About(op.grant) == about then Some(op.grant) else LastGrant(ops[..|ops| - 1], about)
  }

  /** Whether it was withdrawn since. */
  predicate Withdrawn(ops: seq<Op>, about: Subject) {
    ops != []
    && var init, op := ops[..|ops| - 1], ops[|ops| - 1];
       if op.Save? && About(op.grant) == about then false
       else
         || Withdrawn(init, about)
         || (op.Revoke? && LastGrant(init, about).Some? && LastGrant(init, about).value.id == op.id && op.identity == about.identity)
  }

  /** Grants are made in order of time, with identifiers that were not used before. */
  predicate Orderly(ops: seq<Op>) {
    && (forall i :: 0 <= i < |ops| && ops[i].Save? ==> Made(ops[i].grant) && ops[i].grant.id !in Final(ops[..i]))
    && (forall i, j :: 0 <= i < j < |ops| && ops[i].Save? && ops[j].Save? ==> ops[i].grant.grantedAt <= ops[j].grant.grantedAt)
  }

  /** No grant was made after `now`. */
  predicate Reached(ops: seq<Op>, now: int) {
    forall i :: 0 <= i < |ops| && ops[i].Save? ==> ops[i].grant.grantedAt <= now
  }

  /** The most recent grant about a subject is stored, and revoked exactly if it was withdrawn. */
  predicate LatestOk(m: Grants, ops: seq<Op>, about: Subject) {
    var last := LastGrant(ops, about);
    last.Some? ==>
      && last.value.id in m && About(last.value) == about && last.value.revokedAt.None?
      && m[last.value.id].(revokedAt := None) == last.value
      && (m[last.value.id].revokedAt.Some? <==> Withdrawn(ops, about))
  }

  /** A stored grant is the most recent about its subject, or can no longer be active. */
  predicate StoredOk(m: Grants, ops: seq<Op>, now: int, id: string)
    requires id in m
  {
    var last := LastGrant(ops, About(m[id]));
    m[id].id == id && last.Some? && (last.value.id == id || !ActiveAt(m[id], now))
  }

  ghost predicate Inv(m: Grants, ops: seq<Op>, now: int) {
    (forall about :: LatestOk(m, ops, about)) && (forall id <- m :: StoredOk(m, ops, now, id))
  }

  lemma {:induction false} HistorySnoc(ops: seq<Op>, about: Subject)
    requires ops != []
    ensures var init, op := ops[..|ops| - 1], ops[|ops| - 1];
      && LastGrant(ops, about) == (if op.Save? && About(op.grant) == about then Some(op.grant) else LastGrant(init, about))
      && (Withdrawn(ops, about) == (!(op.Save? && About(op.grant) == about)
          && (Withdrawn(init, about)
              || (op.Revoke? && LastGrant(init, about).Some? && LastGrant(init, about).value.id == op.id && op.identity == about.identity))))
  {
  }

  lemma {:induction false} LatestKept(m: Grants, ops: seq<Op>, about: Subject)
    requires ops != [] && LatestOk(m, ops[..|ops| - 1], about)
    requires var op := ops[|ops| - 1]; op.Save? ==> Made(op.grant) && op.grant.id !in m
    ensures LatestOk(Step(m, ops[|ops| - 1]), ops, about)
  {
    hide LastGrant, Withdrawn, Ascending;
    HistorySnoc(ops, about);
  }

  lemma {:induction false} StoredKept(m: Grants, ops: seq<Op>, before: int, now: int, id: string)
    requires ops != [] && Inv(m, ops[..|ops| - 1], before) && before <= now
    requires var op := ops[|ops| - 1]; op.Save? ==> op.grant.id !in m && before <= op.grant.grantedAt <= now
    requires id in Step(m, ops[|ops| - 1])
    ensures StoredOk(Step(m, ops[|ops| - 1]), ops, now, id)
  {
    hide LastGrant, Withdrawn, LatestOk;
    var op := ops[|ops| - 1];
    HistorySnoc(ops, About(Step(m, op)[id]));
    if id in m {
      assert StoredOk(m, ops[..|ops| - 1], before, id);
    }
  }

  lemma {:induction false} RunKeepsInv(ops: seq<Op>, now: int)
    requires Orderly(ops) && Reached(ops, now)
    ensures Inv(Final(ops), ops, now)
  {
    hide LatestOk, StoredOk, Step, Made;
    if ops == [] {
      forall about ensures LatestOk(Final(ops), ops, about) {
        NoGrant(about);
      }
    } else {
      var init, op := ops[..|ops| - 1], ops[|ops| - 1];
      assert forall i :: 0 <= i < |init| ==> init[..i] == ops[..i];
      var before := if op.Save? then op.grant.grantedAt else now;
      assert ops[|ops| - 1].Save? ==> op.grant.id !in Final(ops[..|ops| - 1]);
      RunKeepsInv(init, before);
      forall about ensures LatestOk(Final(ops), ops, about) {
        LatestKept(Final(init), ops, about);
      }
      forall id | id in Final(ops) ensures StoredOk(Final(ops), ops, now, id) {
        StoredKept(Final(init), ops, before, now, id);
      }
    }
  }

  lemma {:induction false} NoGrant(about: Subject)
    ensures LatestOk(map[], [], about)
  {
  }

  // ----- Lookup refines history -----

  /** The grant that lookup may find for a subject. */
  predicate Candidate(m: Grants, about: Subject, now: int, id: string) {
    id in m && About(m[id]) == about && ActiveAt(m[id], now)
  }

  /** History says that this is allowed. */
  predicate Allowed(ops: seq<Op>, about: Subject, scopes: seq<string>, now: int) {
    var last := LastGrant(ops, about);
    && last.Some? && !Withdrawn(ops, about) && (last.value.expiresAt.Some? ==> now < last.value.expiresAt.value)
    && forall s <- scopes :: s in last.value.scopes
  }

  /** At most one grant about a subject is active, and it is the most recent one. */
  lemma {:induction false} OneActive(ops: seq<Op>, about: Subject, now: int, id: string)
    requires Orderly(ops) && Reached(ops, now)
    ensures Candidate(Final(ops), about, now, id) <==>
      && LastGrant(ops, about).Some? && LastGrant(ops, about).value.id == id
      && !Withdrawn(ops, about) && ActiveAt(LastGrant(ops, about).value, now)
    ensures Candidate(Final(ops), about, now, id) ==> Final(ops)[id] == LastGrant(ops, about).value
  {
    hide LastGrant, Withdrawn, Orderly, Reached, Final;
    RunKeepsInv(ops, now);
    assert LatestOk(Final(ops), ops, about);
    if id in Final(ops) {
      assert StoredOk(Final(ops), ops, now, id);
    }
  }

  /** The answer of a lookup: some candidate, or none if there is none. */
  predicate Found(m: Grants, about: Subject, now: int, r: Option<Grant>) {
    match r
    case Some(g) => Candidate(m, about, now, g.id) && m[g.id] == g
    case None => forall id <- m :: !Candidate(m, about, now, id)
  }

  /** Whatever order the repository is scanned in, the scopes found cover a request exactly when history allows it. */
  lemma {:induction false} CoversExactly(ops: seq<Op>, about: Subject, scopes: seq<string>, now: int, r: Option<Grant>)
    requires Orderly(ops) && Reached(ops, now) && Found(Final(ops), about, now, r)
    ensures (r.Some? && forall s <- scopes :: s in r.value.scopes) <==> Allowed(ops, about, scopes, now)
  {
    hide LastGrant, Withdrawn, Orderly, Reached, Final;
    if r.Some? {
      OneActive(ops, about, now, r.value.id);
    } else if LastGrant(ops, about).Some? {
      OneActive(ops, about, now, LastGrant(ops, about).value.id);
      RunKeepsInv(ops, now);
      assert LatestOk(Final(ops), ops, about);
    }
  }

  // ----- The repository and the service -----

  class InMemoryConsentRepository {
    var grants: Grants

    constructor ()
      ensures grants == map[]
    {
      grants := map[];
    }

    method Save(grant: Grant)
      modifies this
      ensures grants == Step(old(grants), Op.Save(grant))
    {
      ghost var before := grants;
      var todo := grants.Keys;
      while todo != {}
        invariant todo <= grants.Keys == before.Keys
        invariant forall id <- todo :: grants[id] == before[id]
        invariant forall id <- before :: id in todo || grants[id] ==
                    if About(before[id]) == About(grant) && ActiveAt(before[id], grant.grantedAt) then Revoked(before[id], grant.grantedAt) else before[id]
        decreases todo
      {
        var id :| id in todo;
        if About(grants[id]) == About(grant) && ActiveAt(grants[id], grant.grantedAt) {
          grants := grants[id := Revoked(grants[id], grant.grantedAt)];
        }
        todo := todo - {id};
      }
      grants := grants[grant.id := grant];
    }

    method FindActive(about: Subject, now: int) returns (r: Option<Grant>)
      requires forall id <- grants :: grants[id].id == id
      ensures Found(grants, about, now, r)
    {
      var todo := grants.Keys;
      while todo != {}
        invariant todo <= grants.Keys
        invariant forall id <- grants :: id in todo || !Candidate(grants, about, now, id)
        decreases todo
      {
        var id :| id in todo;
        if About(grants[id]) == about && ActiveAt(grants[id], now) {
          return Some(grants[id]);
        }
        todo := todo - {id};
      }
      return None;
    }

    method Revoke(id: string, identity: string, now: int) returns (status: Status)
      modifies this
      ensures grants == Step(old(grants), Op.Revoke(id, identity, now))
      ensures status == Ok <==> id in old(grants) && old(grants)[id].identity == identity
      ensures status == Ok ==>
        grants == old(grants)[id := old(grants)[id].(revokedAt := if old(grants)[id].revokedAt.Some? then old(grants)[id].revokedAt else Some(now))]
    {
      if id !in grants {
        return Failed;
      }
      if grants[id].identity != identity {
        return Failed;
      }
      grants := grants[id := Revoked(grants[id], now)];
      return Ok;
    }
  }

  class ConsentService {
    const repository: InMemoryConsentRepository

    constructor (repository: InMemoryConsentRepository)
      ensures this.repository == repository
    {
      this.repository := repository;
    }

    /** After any orderly history of the repository, the answer is the one the history gives. */
    method Covers(about: Subject, scopes: seq<string>, now: int, ghost ops: seq<Op>) returns (r: bool)
      requires repository.grants == Final(ops) && Orderly(ops) && Reached(ops, now)
      ensures r <==> Allowed(ops, about, scopes, now)
    {
      hide Final, Orderly, Reached, LastGrant, Withdrawn, Made;
      RunKeepsInv(ops, now);
      forall id | id in repository.grants ensures repository.grants[id].id == id {
        assert StoredOk(Final(ops), ops, now, id);
      }
      var found := repository.FindActive(about, now);
      CoversExactly(ops, about, scopes, now, found);
      if found.None? {
        return false;
      }
      OneActive(ops, about, now, found.value.id);
      LastMade(ops, about);
      for i := 0 to |scopes|
        invariant forall j :: 0 <= j < i ==> scopes[j] in found.value.scopes
      {
        var held := Contains(found.value.scopes, scopes[i]);
        if !held {
          return false;
        }
      }
      return true;
    }

    method GrantConsent(id: string, about: Subject, scopes: seq<string>, lifetime: Option<int>, now: int, ghost ops: seq<Op>) returns (r: Option<Grant>)
      requires repository.grants == Final(ops) && Orderly(ops) && Reached(ops, now) && id !in Final(ops)
      modifies repository
      ensures r.Some? <==>
        && (lifetime.Some? ==> lifetime.value > 0) && ScopesOk(scopes)
        && id != "" && about.identity != "" && about.client != "" && about.audience != "" && |about.audience| <= 2048
      ensures r.None? ==> repository.grants == old(repository.grants)
      ensures r.Some? ==> repository.grants == Final(ops + [Op.Save(r.value)]) && Orderly(ops + [Op.Save(r.value)])
      ensures r.Some? ==> forall wanted, t :: t >= now ==>
        (Allowed(ops + [Op.Save(r.value)], about, wanted, t) <==> SetOf(wanted) <= SetOf(scopes) && (lifetime.Some? ==> t < now + lifetime.value))
    {
      hide Final, Orderly, Reached, Withdrawn, LastGrant, Ascending, ValidScope;
      if lifetime.Some? && lifetime.value <= 0 {
        return None;
      }
      var expiresAt := if lifetime.Some? then Some(now + lifetime.value) else None;
      var normalized := NormalizeScopes(scopes);
      if id == "" || about.identity == "" || about.client == "" || about.audience == "" || |about.audience| > 2048 || normalized.None? {
        return None;
      }
      var grant := Grant(id, about.identity, about.client, about.audience, normalized.value, now, expiresAt, None);
      repository.Save(grant);
      Extended(ops, grant);
      forall wanted, t | t >= now
        ensures Allowed(ops + [Op.Save(grant)], about, wanted, t) <==> SetOf(wanted) <= SetOf(scopes) && (lifetime.Some? ==> t < now + lifetime.value)
      {
        NewGrantAllows(ops, grant, wanted, t);
      }
      return Some(grant);
    }
  }

  lemma {:induction false} LastMade(ops: seq<Op>, about: Subject)
    requires Orderly(ops) && LastGrant(ops, about).Some?
    ensures Ascending(LastGrant(ops, about).value.scopes)
  {
    hide Final, Ascending;
    var init, op := ops[..|ops| - 1], ops[|ops| - 1];
    if op.Save? && About(op.grant) == about {
      assert ops[|ops| - 1].Save?;
    } else {
      assert forall i :: 0 <= i < |init| ==> init[..i] == ops[..i];
      LastMade(init, about);
    }
  }

  lemma {:induction false} Extended(ops: seq<Op>, grant: Grant)
    requires Orderly(ops) && Reached(ops, grant.grantedAt) && Made(grant) && grant.id !in Final(ops)
    ensures Orderly(ops + [Save(grant)]) && Final(ops + [Save(grant)]) == Step(Final(ops), Save(grant))
  {
    hide Made, Step;
    var more := ops + [Save(grant)];
    assert more[..|ops|] == ops;
    assert forall i :: 0 <= i < |ops| ==> more[..i] == ops[..i] && more[i] == ops[i];
  }

  lemma {:induction false} NewGrantAllows(ops: seq<Op>, grant: Grant, wanted: seq<string>, now: int)
    ensures Allowed(ops + [Save(grant)], About(grant), wanted, now)
      <==> SetOf(wanted) <= SetOf(grant.scopes) && (grant.expiresAt.Some? ==> now < grant.expiresAt.value)
  {
    HistorySnoc(ops + [Save(grant)], About(grant));
    assert forall s :: s in wanted <==> s in SetOf(wanted);
    assert forall s :: s in grant.scopes <==> s in SetOf(grant.scopes);
  }
}
