/**
 The token-bucket rate limiter of the gateway.

 Buckets are refilled lazily, when a call reaches them. The reference is an
 eager limiter, which refills and caps every bucket once a millisecond. The two
 answer every run alike, and the bounds on admitted cost are proved on the
 eager one. Rates are real numbers and instants are integer milliseconds.
 */
module RateLimiter {
  import opened Foundation

  datatype Policy = Policy(capacity: real, refillPerSecond: real, maximumKeys: nat)

  predicate ValidPolicy(p: Policy) {
    p.capacity >= 1.0 && p.refillPerSecond > 0.0 && p.maximumKeys > 0
  }

  datatype Call = Call(key: string, cost: real, now: int)

  /** The bucket a call draws on: its own, or the one shared by keys beyond the limit. */
  datatype Slot = Named(key: string) | Overflow

  datatype Outcome = Invalid | Denied(slot: Slot) | Admitted(slot: Slot)

  predicate WellFormed(p: Policy, call: Call) {
    call.key != "" && 0.0 < call.cost <= p.capacity
  }

  function Min(a: real, b: real): real { if a < b then a else b }

  /** Tokens earned in some milliseconds. */
  function Gain(p: Policy, milliseconds: int): real {
    milliseconds as real / 1000.0 * p.refillPerSecond
  }

  lemma {:induction false} GainAdds(p: Policy, a: int, b: int)
    ensures Gain(p, a + b) == Gain(p, a) + Gain(p, b)
  {
    var x, y, r := a as real / 1000.0, b as real / 1000.0, p.refillPerSecond;
    assert (a + b) as real / 1000.0 == x + y;
    assert (x + y) * r == x * r + y * r;
  }

  lemma {:induction false} GainNonNegative(p: Policy, milliseconds: int)
    requires ValidPolicy(p)
    ensures milliseconds >= 0 ==> Gain(p, milliseconds) >= 0.0
    ensures Gain(p, 0) == 0.0
  {
    if milliseconds >= 0 {
      var x := milliseconds as real / 1000.0;
      assert x >= 0.0;
      assert x * p.refillPerSecond >= 0.0;
    }
  }

  // ----- The lazy limiter -----

  datatype Bucket = Bucket(tokens: real, updatedAt: int)

  datatype State = State(buckets: map<string, Bucket>, overflow: Option<Bucket>)

  predicate ValidBucket(p: Policy, b: Bucket, now: int) {
    0.0 <= b.tokens <= p.capacity && b.updatedAt <= now
  }

  /** Every bucket is within capacity and was last refilled no later than `now`; named buckets respect the limit. */
  predicate Valid(p: Policy, s: State, now: int) {
    && ValidPolicy(p)
    && |s.buckets| <= p.maximumKeys
    && (forall key <- s.buckets :: ValidBucket(p, s.buckets[key], now))
    && (s.overflow.Some? ==> ValidBucket(p, s.overflow.value, now))
  }

  function Refilled(p: Policy, b: Bucket, now: int): Bucket {
    if now - b.updatedAt > 0
    then Bucket(Min(p.capacity, b.tokens + Gain(p, now - b.updatedAt)), now)
    else b
  }

  function SlotOf(p: Policy, s: State, key: string): Slot {
    if key in s.buckets || |s.buckets| < p.maximumKeys then Named(key) else Overflow
  }

  function Read(p: Policy, s: State, slot: Slot, now: int): Bucket {
    match slot
    case Named(key) => if key in s.buckets then s.buckets[key] else Bucket(p.capacity, now)
    case Overflow => if s.overflow.Some? then s.overflow.value else Bucket(p.capacity, now)
  }

  function Write(s: State, slot: Slot, b: Bucket): State {
    match slot
    case Named(key) => s.(buckets := s.buckets[key := b])
    case Overflow => s.(overflow := Some(b))
  }

  function Step(p: Policy, s: State, call: Call): (State, Outcome) {
    if !WellFormed(p, call) then (s, Invalid)
    else
      var slot := SlotOf(p, s, call.key);
      var b := Refilled(p, Read(p, s, slot, call.now), call.now);
      if b.tokens < call.cost then (Write(s, slot, b), Denied(slot))
      else (Write(s, slot, b.(tokens := b.tokens - call.cost)), Admitted(slot))
  }

  function Outcomes(p: Policy, s: State, calls: seq<Call>): (outcomes: seq<Outcome>)
    ensures |outcomes| == |calls|
    decreases |calls|
  {
    if calls == [] then []
    else var (s', outcome) := Step(p, s, calls[0]); [outcome] + Outcomes(p, s', calls[1..])
  }

  /** Instants never decrease along a run, and none precedes `start`. */
  predicate Ordered(calls: seq<Call>, start: int) {
    && (forall i :: 0 <= i < |calls| ==> start <= calls[i].now)
    && (forall i, j :: 0 <= i < j < |calls| ==> calls[i].now <= calls[j].now)
  }

  // ----- The eager limiter -----

  datatype Eager = Eager(tokens: map<string, real>, overflow: Option<real>)

  function Topped(p: Policy, tokens: real, milliseconds: int): real {
    Min(p.capacity, tokens + Gain(p, milliseconds))
  }

  /** Every bucket refilled for some milliseconds, and capped. */
  function Advance(p: Policy, e: Eager, milliseconds: int): Eager {
    Eager(map key | key in e.tokens :: Topped(p, e.tokens[key], milliseconds),
          if e.overflow.Some? then Some(Topped(p, e.overflow.value, milliseconds)) else None)
  }

  /** `n` refills of one millisecond each. */
  function Ticks(p: Policy, e: Eager, n: nat): Eager {
    if n == 0 then e else Advance(p, Ticks(p, e, n - 1), 1)
  }

  predicate EagerValid(p: Policy, e: Eager) {
    && ValidPolicy(p)
    && |e.tokens| <= p.maximumKeys
    && (forall key <- e.tokens :: 0.0 <= e.tokens[key] <= p.capacity)
    && (e.overflow.Some? ==> 0.0 <= e.overflow.value <= p.capacity)
  }

  function EagerSlot(p: Policy, e: Eager, key: string): Slot {
    if key in e.tokens || |e.tokens| < p.maximumKeys then Named(key) else Overflow
  }

  function TokensIn(p: Policy, e: Eager, slot: Slot): real {
    match slot
    case Named(key) => if key in e.tokens then e.tokens[key] else p.capacity
    case Overflow => if e.overflow.Some? then e.overflow.value else p.capacity
  }

  function WithTokens(e: Eager, slot: Slot, tokens: real): Eager {
    match slot
    case Named(key) => e.(tokens := e.tokens[key := tokens])
    case Overflow => e.(overflow := Some(tokens))
  }

  /** Takes the cost if the bucket holds it; a refusal changes nothing. */
  function Take(p: Policy, e: Eager, call: Call): (Eager, Outcome) {
    if !WellFormed(p, call) then (e, Invalid)
    else
      var slot := EagerSlot(p, e, call.key);
      var tokens := TokensIn(p, e, slot);
      if tokens < call.cost then (e, Denied(slot))
      else (WithTokens(e, slot, tokens - call.cost), Admitted(slot))
  }

  /** A run of the limiter that refills every bucket once a millisecond between calls. */
  function TickedOutcomes(p: Policy, e: Eager, now: int, calls: seq<Call>): (outcomes: seq<Outcome>)
    requires Ordered(calls, now)
    ensures |outcomes| == |calls|
    decreases |calls|
  {
    if calls == [] then []
    else
      var (e', outcome) := Take(p, Ticks(p, e, calls[0].now - now), calls[0]);
      [outcome] + TickedOutcomes(p, e', calls[0].now, calls[1..])
  }

  /** The same run, each refill in one go. */
  function EagerOutcomes(p: Policy, e: Eager, now: int, calls: seq<Call>): (outcomes: seq<Outcome>)
    requires Ordered(calls, now)
    ensures |outcomes| == |calls|
    decreases |calls|
  {
    if calls == [] then []
    else
      var (e', outcome) := Take(p, Advance(p, e, calls[0].now - now), calls[0]);
      [outcome] + EagerOutcomes(p, e', calls[0].now, calls[1..])
  }

  lemma {:induction false} ToppedAdds(p: Policy, tokens: real, a: nat, b: nat)
    requires ValidPolicy(p)
    ensures Topped(p, Topped(p, tokens, a), b) == Topped(p, tokens, a + b)
  {
    GainAdds(p, a, b);
    GainNonNegative(p, b);
  }

  lemma {:induction false} AdvanceAdds(p: Policy, e: Eager, a: nat, b: nat)
    requires ValidPolicy(p)
    ensures Advance(p, Advance(p, e, a), b) == Advance(p, e, a + b)
  {
    hide Topped;
    forall key | key in e.tokens ensures Topped(p, Topped(p, e.tokens[key], a), b) == Topped(p, e.tokens[key], a + b) {
      ToppedAdds(p, e.tokens[key], a, b);
    }
    if e.overflow.Some? {
      ToppedAdds(p, e.overflow.value, a, b);
    }
  }

  lemma {:induction false} AdvanceZero(p: Policy, e: Eager)
    requires EagerValid(p, e)
    ensures Advance(p, e, 0) == e
  {
    GainNonNegative(p, 0);
  }

  /** A refill in one go is a refill millisecond by millisecond. */
  lemma {:induction false} TicksAdvance(p: Policy, e: Eager, n: nat)
    requires EagerValid(p, e)
    ensures Ticks(p, e, n) == Advance(p, e, n)
  {
    if n == 0 {
      AdvanceZero(p, e);
    } else {
      TicksAdvance(p, e, n - 1);
      AdvanceAdds(p, e, n - 1, 1);
    }
  }

  lemma {:induction false} AdvanceValid(p: Policy, e: Eager, n: nat)
    requires EagerValid(p, e)
    ensures EagerValid(p, Advance(p, e, n))
    ensures Advance(p, e, n).tokens.Keys == e.tokens.Keys
  {
    GainNonNegative(p, n);
    hide Gain;
    assert Advance(p, e, n).tokens.Keys == e.tokens.Keys;
    assert |Advance(p, e, n).tokens| == |Advance(p, e, n).tokens.Keys|;
  }

  lemma {:induction false} TakeValid(p: Policy, e: Eager, call: Call)
    requires EagerValid(p, e)
    ensures EagerValid(p, Take(p, e, call).0)
  {
    var (e', outcome) := Take(p, e, call);
    if outcome.Admitted? && outcome.slot.Named? {
      var key := outcome.slot.key;
      assert e'.tokens.Keys == e.tokens.Keys + {key};
      assert |e'.tokens| == |e'.tokens.Keys| && |e.tokens| == |e.tokens.Keys|;
      if key in e.tokens {
        assert e'.tokens.Keys == e.tokens.Keys;
      }
    }
  }

  lemma {:induction false} EagerCons(p: Policy, e: Eager, now: int, calls: seq<Call>, e1: Eager, e2: Eager, outcome: Outcome)
    requires EagerValid(p, e) && Ordered(calls, now) && calls != []
    requires e1 == Advance(p, e, calls[0].now - now) && (e2, outcome) == Take(p, e1, calls[0])
    ensures EagerValid(p, e1) && EagerValid(p, e2) && Ordered(calls[1..], calls[0].now)
    ensures EagerOutcomes(p, e, now, calls) == [outcome] + EagerOutcomes(p, e2, calls[0].now, calls[1..])
    ensures now <= calls[0].now && (|calls| > 1 ==> calls[0].now <= calls[1].now)
    ensures !outcome.Admitted? ==> e2 == e1
  {
    AdvanceValid(p, e, calls[0].now - now);
    TakeValid(p, e1, calls[0]);
  }

  lemma {:induction false} TickedIsEager(p: Policy, e: Eager, now: int, calls: seq<Call>)
    requires EagerValid(p, e) && Ordered(calls, now)
    ensures TickedOutcomes(p, e, now, calls) == EagerOutcomes(p, e, now, calls)
    decreases |calls|
  {
    hide Advance, Take, EagerValid, Ticks;
    if calls == [] {
    } else {
      var e1 := Advance(p, e, calls[0].now - now);
      var (e2, outcome) := Take(p, e1, calls[0]);
      EagerCons(p, e, now, calls, e1, e2, outcome);
      TicksAdvance(p, e, calls[0].now - now);
      TickedIsEager(p, e2, calls[0].now, calls[1..]);
    }
  }

  // ----- Refinement -----

  /** The tokens of a bucket brought up to date. */
  function Level(p: Policy, b: Bucket, now: int): real {
    Topped(p, b.tokens, now - b.updatedAt)
  }

  /** The eager limiter that a lazy one stands for at `now`. */
  function Eagerly(p: Policy, s: State, now: int): Eager {
    Eager(map key | key in s.buckets :: Level(p, s.buckets[key], now),
          if s.overflow.Some? then Some(Level(p, s.overflow.value, now)) else None)
  }

  lemma {:induction false} EagerlyValid(p: Policy, s: State, now: int)
    requires Valid(p, s, now)
    ensures EagerValid(p, Eagerly(p, s, now))
    ensures Eagerly(p, s, now).tokens.Keys == s.buckets.Keys && |Eagerly(p, s, now).tokens| == |s.buckets|
  {
    var e := Eagerly(p, s, now);
    assert e.tokens.Keys == s.buckets.Keys;
    assert |e.tokens| == |e.tokens.Keys| && |s.buckets| == |s.buckets.Keys|;
    forall key | key in s.buckets ensures 0.0 <= Level(p, s.buckets[key], now) <= p.capacity {
      GainNonNegative(p, now - s.buckets[key].updatedAt);
    }
    if s.overflow.Some? {
      GainNonNegative(p, now - s.overflow.value.updatedAt);
    }
  }

  lemma {:induction false} EagerlyLater(p: Policy, s: State, now: int, later: int)
    requires Valid(p, s, now) && now <= later
    ensures Eagerly(p, s, later) == Advance(p, Eagerly(p, s, now), later - now)
    ensures Valid(p, s, later)
  {
    hide Topped;
    forall key | key in s.buckets ensures Level(p, s.buckets[key], later) == Topped(p, Level(p, s.buckets[key], now), later - now) {
      ToppedAdds(p, s.buckets[key].tokens, now - s.buckets[key].updatedAt, later - now);
    }
    if s.overflow.Some? {
      ToppedAdds(p, s.overflow.value.tokens, now - s.overflow.value.updatedAt, later - now);
    }
  }

  lemma {:induction false} LevelNow(p: Policy, b: Bucket, now: int)
    requires ValidPolicy(p) && ValidBucket(p, b, now)
    ensures Refilled(p, b, now) == Bucket(Level(p, b, now), now)
    ensures ValidBucket(p, Refilled(p, b, now), now)
    ensures Level(p, Bucket(b.tokens, now), now) == b.tokens
  {
    GainNonNegative(p, now - b.updatedAt);
  }

  lemma {:induction false} WriteRefines(p: Policy, s: State, slot: Slot, b: Bucket, now: int)
    requires Valid(p, s, now) && ValidBucket(p, b, now) && b.updatedAt == now
    requires slot.Named? ==> slot.key in s.buckets || |s.buckets| < p.maximumKeys
    ensures Valid(p, Write(s, slot, b), now)
    ensures Eagerly(p, Write(s, slot, b), now) == WithTokens(Eagerly(p, s, now), slot, b.tokens)
  {
    var after := Write(s, slot, b);
    LevelNow(p, b, now);
    hide Level;
    if slot.Named? {
      assert after.buckets.Keys == s.buckets.Keys + {slot.key};
      assert |after.buckets| == |after.buckets.Keys| && |s.buckets| == |s.buckets.Keys|;
      if slot.key in s.buckets {
        assert after.buckets.Keys == s.buckets.Keys;
      }
    }
    assert Eagerly(p, after, now).tokens == WithTokens(Eagerly(p, s, now), slot, b.tokens).tokens;
  }

  /** A bucket brought up to date holds what the eager limiter has for it. */
  lemma {:induction false} ReadLevel(p: Policy, s: State, slot: Slot, now: int)
    requires Valid(p, s, now)
    ensures var b, e := Refilled(p, Read(p, s, slot, now), now), Eagerly(p, s, now);
      && ValidBucket(p, b, now) && b.updatedAt == now && b.tokens == TokensIn(p, e, slot)
      && (b.tokens < p.capacity ==> WithTokens(e, slot, b.tokens) == e)
  {
    hide Level, Refilled, Topped;
    LevelNow(p, Read(p, s, slot, now), now);
    LevelNow(p, Bucket(p.capacity, now), now);
  }

  /** One lazy call does what the eager call does. */
  lemma {:induction false} StepRefines(p: Policy, s: State, call: Call)
    requires Valid(p, s, call.now)
    ensures Valid(p, Step(p, s, call).0, call.now)
    ensures (Eagerly(p, Step(p, s, call).0, call.now), Step(p, s, call).1) == Take(p, Eagerly(p, s, call.now), call)
  {
    hide Valid, Eagerly, Refilled, Read, Write, TokensIn, WithTokens, EagerValid;
    EagerlyValid(p, s, call.now);
    if WellFormed(p, call) {
      var slot := SlotOf(p, s, call.key);
      ReadLevel(p, s, slot, call.now);
      var b := Refilled(p, Read(p, s, slot, call.now), call.now);
      if b.tokens < call.cost {
        WriteRefines(p, s, slot, b, call.now);
      } else {
        WriteRefines(p, s, slot, b.(tokens := b.tokens - call.cost), call.now);
      }
    }
  }

  lemma {:induction false} LazyIsEager(p: Policy, s: State, now: int, calls: seq<Call>)
    requires Valid(p, s, now) && Ordered(calls, now)
    ensures Outcomes(p, s, calls) == EagerOutcomes(p, Eagerly(p, s, now), now, calls)
    decreases |calls|
  {
    hide Advance, Take, Step, Eagerly, Valid;
    if calls == [] {
    } else {
      var call := calls[0];
      EagerlyLater(p, s, now, call.now);
      StepRefines(p, s, call);
      LazyIsEager(p, Step(p, s, call).0, call.now, calls[1..]);
    }
  }

  /** Lazy refill makes the same decisions, on the same buckets, as refilling and capping every millisecond. */
  lemma {:induction false} LazyRefinesTicks(p: Policy, s: State, now: int, calls: seq<Call>)
    requires Valid(p, s, now) && Ordered(calls, now)
    ensures Outcomes(p, s, calls) == TickedOutcomes(p, Eagerly(p, s, now), now, calls)
  {
    LazyIsEager(p, s, now, calls);
    EagerlyValid(p, s, now);
    TickedIsEager(p, Eagerly(p, s, now), now, calls);
  }

  // ----- Refused calls leave no trace -----

  function Kept<T>(items: seq<T>, keep: seq<bool>): seq<T>
    requires |items| == |keep|
  {
    if items == [] then []
    else (if keep[0] then [items[0]] else []) + Kept(items[1..], keep[1..])
  }

  lemma {:induction false} KeptOrdered(calls: seq<Call>, keep: seq<bool>, start: int)
    requires |calls| == |keep| && Ordered(calls, start)
    ensures Ordered(Kept(calls, keep), start)
    ensures forall call :: call in Kept(calls, keep) ==> call in calls
    decreases |calls|
  {
    if calls == [] {
    } else {
      KeptOrdered(calls[1..], keep[1..], calls[0].now);
    }
  }

  lemma {:induction false} KeptCons<T>(items: seq<T>, keep: seq<bool>)
    requires |items| == |keep| && items != []
    ensures Kept(items, keep) == (if keep[0] then [items[0]] else []) + Kept(items[1..], keep[1..])
  {
  }

  ghost predicate MayErase(p: Policy, e: Eager, now: int, f: Eager, late: int, calls: seq<Call>, keep: seq<bool>) {
    && ValidPolicy(p) && EagerValid(p, e) && EagerValid(p, f) && now <= late && f == Advance(p, e, late - now)
    && |calls| == |keep| && Ordered(calls, late)
    && forall i :: 0 <= i < |calls| && EagerOutcomes(p, f, late, calls)[i].Admitted? ==> keep[i]
  }

  lemma {:induction false} EraseStep(p: Policy, e: Eager, now: int, f: Eager, late: int, calls: seq<Call>, keep: seq<bool>,
                                     e1: Eager, e2: Eager, outcome: Outcome)
    requires MayErase(p, e, now, f, late, calls, keep) && calls != []
    requires e1 == Advance(p, e, calls[0].now - now) && (e2, outcome) == Take(p, e1, calls[0])
    ensures Ordered(calls, late) && Ordered(calls[1..], calls[0].now)
    ensures EagerOutcomes(p, f, late, calls) == [outcome] + EagerOutcomes(p, e2, calls[0].now, calls[1..])
    ensures keep[0] ==> MayErase(p, e2, calls[0].now, e2, calls[0].now, calls[1..], keep[1..])
    ensures !keep[0] ==> e1 == e2 && MayErase(p, e, now, e1, calls[0].now, calls[1..], keep[1..])
  {
    hide Advance, Take, EagerValid, EagerOutcomes;
    assert Ordered(calls, late);
    AdvanceAdds(p, e, late - now, calls[0].now - late);
    EagerCons(p, f, late, calls, e1, e2, outcome);
    AdvanceZero(p, e2);
    var outcomes, tail := EagerOutcomes(p, f, late, calls), EagerOutcomes(p, e2, calls[0].now, calls[1..]);
    forall i | 0 <= i < |tail| && tail[i].Admitted? ensures keep[1..][i] {
      assert outcomes[i + 1] == tail[i];
    }
    assert outcomes[0] == outcome;
  }

  /** A run from `f`, which is `e` some time later, against the same run from `e` with some refused calls left out. */
  lemma {:induction false} EagerDenialsErasable(p: Policy, e: Eager, now: int, f: Eager, late: int, calls: seq<Call>, keep: seq<bool>)
    requires MayErase(p, e, now, f, late, calls, keep) && Ordered(Kept(calls, keep), now) && Ordered(calls, late)
    ensures EagerOutcomes(p, e, now, Kept(calls, keep)) == Kept(EagerOutcomes(p, f, late, calls), keep)
    decreases |calls|
  {
    if calls == [] {
    } else {
      var call, rest, keepRest := calls[0], calls[1..], keep[1..];
      var e1 := Advance(p, e, call.now - now);
      var (e2, outcome) := Take(p, e1, call);
      EraseStep(p, e, now, f, late, calls, keep, e1, e2, outcome);
      KeptOrdered(rest, keepRest, call.now);
      var outcomes := EagerOutcomes(p, f, late, calls);
      KeptCons(calls, keep);
      KeptCons(outcomes, keep);
      assert outcomes[0] == outcome && outcomes[1..] == EagerOutcomes(p, e2, call.now, rest);
      if keep[0] {
        assert Kept(calls, keep)[0] == call && Kept(calls, keep)[1..] == Kept(rest, keepRest);
        assert EagerValid(p, e);
        EagerCons(p, e, now, Kept(calls, keep), e1, e2, outcome);
        hide *;
        EagerDenialsErasable(p, e2, call.now, e2, call.now, rest, keepRest);
      } else {
        assert Kept(calls, keep) == Kept(rest, keepRest) && Kept(outcomes, keep) == Kept(outcomes[1..], keepRest);
        hide *;
        EagerDenialsErasable(p, e, now, e1, call.now, rest, keepRest);
      }
    }
  }

  /** Deleting any refused calls from a run changes no other answer, nor which keys fall to the shared bucket. */
  lemma {:induction false} DenialsErasable(p: Policy, s: State, now: int, calls: seq<Call>, keep: seq<bool>)
    requires Valid(p, s, now) && Ordered(calls, now) && |calls| == |keep|
    requires forall i :: 0 <= i < |calls| && Outcomes(p, s, calls)[i].Admitted? ==> keep[i]
    ensures Outcomes(p, s, Kept(calls, keep)) == Kept(Outcomes(p, s, calls), keep)
  {
    KeptOrdered(calls, keep, now);
    var e := Eagerly(p, s, now);
    EagerlyValid(p, s, now);
    LazyIsEager(p, s, now, calls);
    LazyIsEager(p, s, now, Kept(calls, keep));
    AdvanceZero(p, e);
    EagerDenialsErasable(p, e, now, e, now, calls, keep);
  }

  // ----- Bounds on admitted cost -----

  /** Cost admitted from one bucket. */
  function Spent(calls: seq<Call>, outcomes: seq<Outcome>, slot: Slot): real
    requires |calls| == |outcomes|
  {
    if calls == [] then 0.0
    else (if outcomes[0] == Admitted(slot) then calls[0].cost else 0.0) + Spent(calls[1..], outcomes[1..], slot)
  }

  /** Cost admitted from all buckets together. */
  function TotalSpent(calls: seq<Call>, outcomes: seq<Outcome>): real
    requires |calls| == |outcomes|
  {
    if calls == [] then 0.0
    else (if outcomes[0].Admitted? then calls[0].cost else 0.0) + TotalSpent(calls[1..], outcomes[1..])
  }

  /** The state after a run. */
  function After(p: Policy, s: State, calls: seq<Call>): State
    decreases |calls|
  {
    if calls == [] then s else After(p, Step(p, s, calls[0]).0, calls[1..])
  }

  /** The answers to the later part of a run are those of a run from where the earlier part ended. */
  lemma {:induction false} OutcomesFrom(p: Policy, s: State, calls: seq<Call>, i: nat)
    requires i <= |calls|
    ensures Outcomes(p, s, calls)[i..] == Outcomes(p, After(p, s, calls[..i]), calls[i..])
    decreases i
  {
    hide Step;
    if i > 0 {
      OutcomesFrom(p, Step(p, s, calls[0]).0, calls[1..], i - 1);
      assert calls[..i][1..] == calls[1..][..i - 1] && calls[1..][i - 1..] == calls[i..];
    } else {
      assert calls[0..] == calls && calls[..0] == [];
    }
  }

  /** The answers to the earlier part do not depend on the later one. */
  lemma {:induction false} OutcomesUpTo(p: Policy, s: State, calls: seq<Call>, j: nat)
    requires j <= |calls|
    ensures Outcomes(p, s, calls)[..j] == Outcomes(p, s, calls[..j])
    decreases j
  {
    hide Step;
    if j == 0 {
    } else {
      OutcomesUpTo(p, Step(p, s, calls[0]).0, calls[1..], j - 1);
      assert calls[..j][1..] == calls[1..][..j - 1];
    }
  }

  ghost function Sum(m: map<string, real>): real
    decreases |m|
  {
    if m == map[] then 0.0 else var key :| key in m; m[key] + Sum(m - {key})
  }

  lemma {:induction false} SumRemove(m: map<string, real>, key: string)
    requires key in m
    ensures Sum(m) == m[key] + Sum(m - {key})
    decreases |m|
  {
    var first :| first in m && Sum(m) == m[first] + Sum(m - {first});
    if first != key {
      SumRemove(m - {first}, key);
      SumRemove(m - {key}, first);
      assert m - {first} - {key} == m - {key} - {first};
    }
  }

  lemma {:induction false} SumUpdate(m: map<string, real>, key: string, value: real)
    ensures Sum(m[key := value]) == Sum(m) - (if key in m then m[key] else 0.0) + value
  {
    SumRemove(m[key := value], key);
    assert m[key := value] - {key} == m - {key};
    if key in m {
      SumRemove(m, key);
    } else {
      assert m - {key} == m;
    }
  }

  /** `n` times `x`. */
  function Times(n: int, x: real): real { n as real * x }

  lemma {:induction false} TimesAdds(m: int, n: int, x: real, y: real)
    ensures Times(m + n, x) == Times(m, x) + Times(n, x)
    ensures Times(n, x + y) == Times(n, x) + Times(n, y)
    ensures Times(1, x) == x && Times(0, x) == 0.0
  {
    var a, b := m as real, n as real;
    assert (m + n) as real == a + b;
    assert (a + b) * x == a * x + b * x;
    assert b * (x + y) == b * x + b * y;
  }

  lemma {:induction false} TimesNonNegative(n: nat, x: real)
    requires x >= 0.0
    ensures Times(n, x) >= 0.0
  {
    var a := n as real;
    assert a >= 0.0;
    assert a * x >= 0.0;
  }

  /** If every entry of `m` exceeds its namesake in `n` by at most `d`, the sums differ by at most `d` an entry. */
  lemma {:induction false} SumClose(m: map<string, real>, n: map<string, real>, d: real)
    requires m.Keys == n.Keys && forall key <- m :: m[key] <= n[key] + d
    ensures Sum(m) <= Sum(n) + Times(|m|, d)
    decreases |m|
  {
    hide Times;
    TimesAdds(|m| - 1, 1, d, d);
    if m != map[] {
      var key :| key in m;
      SumRemove(m, key);
      SumRemove(n, key);
      SumClose(m - {key}, n - {key}, d);
      assert |m - {key}| == |m| - 1;
    } else {
      assert n == map[];
    }
  }

  lemma {:induction false} SumNonNegative(m: map<string, real>)
    requires forall key <- m :: m[key] >= 0.0
    ensures Sum(m) >= 0.0
    decreases |m|
  {
    if m == map[] {
    } else {
      var key :| key in m;
      SumRemove(m, key);
      SumNonNegative(m - {key});
    }
  }

  lemma {:induction false} SumZero(m: map<string, real>)
    requires forall key <- m :: m[key] == 0.0
    ensures Sum(m) == 0.0
    decreases |m|
  {
    if m == map[] {
    } else {
      var key :| key in m;
      SumRemove(m, key);
      SumZero(m - {key});
    }
  }

  /** Tokens in all buckets, counting those not yet made as full. */
  ghost function Bank(p: Policy, e: Eager): real {
    Sum(e.tokens) + Times(p.maximumKeys - |e.tokens|, p.capacity) + TokensIn(p, e, Overflow)
  }

  lemma {:induction false} BankBounds(p: Policy, e: Eager)
    requires EagerValid(p, e)
    ensures 0.0 <= Bank(p, e) <= Times(p.maximumKeys + 1, p.capacity)
  {
    hide Times;
    var zeros := map key | key in e.tokens :: 0.0;
    assert zeros.Keys == e.tokens.Keys;
    SumZero(zeros);
    SumClose(e.tokens, zeros, p.capacity);
    SumNonNegative(e.tokens);
    TimesNonNegative(p.maximumKeys - |e.tokens|, p.capacity);
    TimesAdds(|e.tokens|, p.maximumKeys - |e.tokens|, p.capacity, 0.0);
    TimesAdds(p.maximumKeys, 1, p.capacity, 0.0);
  }

  lemma {:induction false} BankUpdate(p: Policy, e: Eager, key: string, tokens: real)
    requires EagerValid(p, e)
    ensures Bank(p, WithTokens(e, Named(key), tokens)) == Bank(p, e) - TokensIn(p, e, Named(key)) + tokens
  {
    hide Times, Sum;
    var m, m' := e.tokens, e.tokens[key := tokens];
    SumUpdate(m, key, tokens);
    assert m'.Keys == m.Keys + {key};
    assert |m'| == |m'.Keys| && |m| == |m.Keys|;
    TimesAdds(p.maximumKeys - |m| - 1, 1, p.capacity, 0.0);
    if key in m {
      assert m'.Keys == m.Keys;
    }
  }

  const EMPTY := State(map[], None)

  /** The earliest and the latest instant of some calls. */
  datatype Window = Window(from: int, to: int)

  predicate Within(calls: seq<Call>, w: Window) {
    w.from <= w.to && forall i :: 0 <= i < |calls| ==> w.from <= calls[i].now <= w.to
  }

  /** Every bucket is within capacity, whenever it was last refilled. */
  predicate TokensOk(p: Policy, s: State) {
    && ValidPolicy(p) && |s.buckets| <= p.maximumKeys
    && (forall key <- s.buckets :: 0.0 <= s.buckets[key].tokens <= p.capacity)
    && (s.overflow.Some? ==> 0.0 <= s.overflow.value.tokens <= p.capacity)
  }

  /** The most a bucket can yield in a window. */
  function Ceiling(p: Policy, w: Window): real {
    p.capacity + Gain(p, w.to - w.from)
  }

  /** What a bucket can still yield in a window: its tokens and what it may yet earn, or the most if it will first be refilled. */
  function Worth(p: Policy, b: Bucket, w: Window): real {
    if b.updatedAt < w.from then Ceiling(p, w)
    else b.tokens + Gain(p, if b.updatedAt < w.to then w.to - b.updatedAt else 0)
  }

  function Worths(p: Policy, s: State, w: Window): Eager {
    Eager(map key | key in s.buckets :: Worth(p, s.buckets[key], w),
          if s.overflow.Some? then Some(Worth(p, s.overflow.value, w)) else None)
  }

  /** The policy under which worths are tokens. */
  function Raised(p: Policy, w: Window): Policy {
    p.(capacity := Ceiling(p, w))
  }

  lemma {:induction false} GainGrows(p: Policy, a: int, b: int)
    requires ValidPolicy(p) && a <= b
    ensures Gain(p, a) <= Gain(p, b)
  {
    hide Gain;
    GainAdds(p, a, b - a);
    GainNonNegative(p, b - a);
  }

  lemma {:induction false} WorthBounds(p: Policy, b: Bucket, w: Window)
    requires ValidPolicy(p) && 0.0 <= b.tokens <= p.capacity && w.from <= w.to
    ensures 0.0 <= Worth(p, b, w) <= Ceiling(p, w)
  {
    hide Gain;
    GainNonNegative(p, w.to - w.from);
    if w.from <= b.updatedAt {
      var left := if b.updatedAt < w.to then w.to - b.updatedAt else 0;
      GainNonNegative(p, left);
      GainGrows(p, left, w.to - w.from);
    }
  }

  /** Refilling a bucket, or finding it refilled later already, never raises what it can still yield. */
  lemma {:induction false} RefillKeepsWorth(p: Policy, b: Bucket, w: Window, now: int)
    requires ValidPolicy(p) && 0.0 <= b.tokens <= p.capacity && w.from <= now <= w.to
    ensures var b' := Refilled(p, b, now);
      0.0 <= b'.tokens <= p.capacity && w.from <= b'.updatedAt && Worth(p, b', w) <= Worth(p, b, w)
  {
    hide Gain;
    if now > b.updatedAt {
      GainNonNegative(p, now - b.updatedAt);
      GainGrows(p, w.to - now, w.to - w.from);
      GainAdds(p, now - b.updatedAt, w.to - now);
      GainNonNegative(p, 0);
    }
  }

  /** A new bucket yields no more than the most. */
  lemma {:induction false} NewBucketWorth(p: Policy, w: Window, now: int)
    requires ValidPolicy(p) && w.from <= now <= w.to
    ensures Worth(p, Bucket(p.capacity, now), w) <= Ceiling(p, w) && Refilled(p, Bucket(p.capacity, now), now) == Bucket(p.capacity, now)
  {
    WorthBounds(p, Bucket(p.capacity, now), w);
  }

  lemma {:induction false} ReadWorth(p: Policy, s: State, slot: Slot, w: Window, now: int)
    requires TokensOk(p, s) && w.from <= now <= w.to
    ensures var b := Read(p, s, slot, now);
      0.0 <= b.tokens <= p.capacity && Worth(p, b, w) <= TokensIn(Raised(p, w), Worths(p, s, w), slot)
  {
    hide Worth, Ceiling, Refilled;
    NewBucketWorth(p, w, now);
  }

  lemma {:induction false} WriteWorth(p: Policy, s: State, slot: Slot, b: Bucket, w: Window)
    requires TokensOk(p, s) && 0.0 <= b.tokens <= p.capacity
    requires slot.Named? ==> slot.key in s.buckets || |s.buckets| < p.maximumKeys
    ensures TokensOk(p, Write(s, slot, b)) && Worths(p, Write(s, slot, b), w) == WithTokens(Worths(p, s, w), slot, Worth(p, b, w))
  {
    hide Worth;
    if slot.Named? {
      var m := s.buckets[slot.key := b];
      assert m.Keys == s.buckets.Keys + {slot.key} && |m| == |m.Keys| && |s.buckets| == |s.buckets.Keys|;
    }
  }

  /** What one call does to the worths: its bucket's falls by what it was granted, at least, and no other changes. */
  lemma {:induction false} StepWorth(p: Policy, s: State, call: Call, w: Window)
    requires TokensOk(p, s) && w.from <= call.now <= w.to
    ensures var (s', outcome) := Step(p, s, call);
      && TokensOk(p, s')
      && (outcome.Invalid? ==> s' == s)
      && (!outcome.Invalid? ==>
          exists worth :: Worths(p, s', w) == WithTokens(Worths(p, s, w), outcome.slot, worth)
              && worth + (if outcome.Admitted? then call.cost else 0.0) <= TokensIn(Raised(p, w), Worths(p, s, w), outcome.slot))
  {
    hide Gain, Worths, TokensIn, WithTokens, Ceiling, Write, Read, Refilled;
    if WellFormed(p, call) {
      var slot := SlotOf(p, s, call.key);
      var old_ := Read(p, s, slot, call.now);
      var b := Refilled(p, old_, call.now);
      ReadWorth(p, s, slot, w, call.now);
      RefillKeepsWorth(p, old_, w, call.now);
      var b' := if b.tokens < call.cost then b else b.(tokens := b.tokens - call.cost);
      WriteWorth(p, s, slot, b', w);
      assert Worths(p, Step(p, s, call).0, w) == WithTokens(Worths(p, s, w), slot, Worth(p, b', w));
    }
  }

  lemma {:induction false} WorthsValid(p: Policy, s: State, w: Window)
    requires TokensOk(p, s) && w.from <= w.to
    ensures EagerValid(Raised(p, w), Worths(p, s, w))
  {
    hide Worth;
    GainNonNegative(p, w.to - w.from);
    var e := Worths(p, s, w);
    assert e.tokens.Keys == s.buckets.Keys && |e.tokens| == |e.tokens.Keys| && |s.buckets| == |s.buckets.Keys|;
    forall key | key in s.buckets ensures 0.0 <= Worth(p, s.buckets[key], w) <= Ceiling(p, w) {
      WorthBounds(p, s.buckets[key], w);
    }
    if s.overflow.Some? {
      WorthBounds(p, s.overflow.value, w);
    }
  }

  lemma {:induction false} SpentWithin(p: Policy, s: State, calls: seq<Call>, w: Window, slot: Slot)
    requires TokensOk(p, s) && Within(calls, w)
    ensures Spent(calls, Outcomes(p, s, calls), slot) <= TokensIn(Raised(p, w), Worths(p, s, w), slot)
    decreases |calls|
  {
    hide Step, TokensOk, Worths, Raised, EagerValid;
    WorthsValid(p, s, w);
    if calls == [] {
      TokensNonNegative(Raised(p, w), Worths(p, s, w), slot);
    } else {
      var (s', outcome) := Step(p, s, calls[0]);
      StepWorth(p, s, calls[0], w);
      SpentWithin(p, s', calls[1..], w, slot);
      assert Outcomes(p, s, calls)[1..] == Outcomes(p, s', calls[1..]);
    }
  }

  lemma {:induction false} TokensNonNegative(p: Policy, e: Eager, slot: Slot)
    requires EagerValid(p, e)
    ensures 0.0 <= TokensIn(p, e, slot) <= p.capacity
  {
  }

  lemma {:induction false} TotalWithin(p: Policy, s: State, calls: seq<Call>, w: Window)
    requires TokensOk(p, s) && Within(calls, w)
    ensures TotalSpent(calls, Outcomes(p, s, calls)) <= Bank(Raised(p, w), Worths(p, s, w))
    decreases |calls|
  {
    hide Step, TokensOk, Worths, Raised, EagerValid, Bank, WithTokens, TokensIn;
    WorthsValid(p, s, w);
    BankBounds(Raised(p, w), Worths(p, s, w));
    if calls == [] {
    } else {
      var (s', outcome) := Step(p, s, calls[0]);
      StepWorth(p, s, calls[0], w);
      TotalWithin(p, s', calls[1..], w);
      assert Outcomes(p, s, calls)[1..] == Outcomes(p, s', calls[1..]);
      if !outcome.Invalid? {
        var worth :| Worths(p, s', w) == WithTokens(Worths(p, s, w), outcome.slot, worth)
          && worth + (if outcome.Admitted? then calls[0].cost else 0.0) <= TokensIn(Raised(p, w), Worths(p, s, w), outcome.slot);
        BankSet(Raised(p, w), Worths(p, s, w), outcome.slot, worth);
      }
    }
  }

  lemma {:induction false} BankSet(p: Policy, e: Eager, slot: Slot, tokens: real)
    requires EagerValid(p, e)
    ensures Bank(p, WithTokens(e, slot, tokens)) == Bank(p, e) - TokensIn(p, e, slot) + tokens
  {
    hide Times, Sum;
    match slot
    case Named(key) => BankUpdate(p, e, key, tokens);
    case Overflow =>
  }

  lemma {:induction false} AfterTokensOk(p: Policy, s: State, calls: seq<Call>)
    requires TokensOk(p, s)
    ensures TokensOk(p, After(p, s, calls))
    decreases |calls|
  {
    hide Step, TokensOk;
    if calls == [] {
    } else {
      StepWorth(p, s, calls[0], Window(calls[0].now, calls[0].now));
      AfterTokensOk(p, Step(p, s, calls[0]).0, calls[1..]);
    }
  }

  /**
   Between any two calls of a run, the cost admitted from one bucket is at most the
   capacity plus the refill between the earliest and the latest instant read there.
   Instants may come in any order, as they do when callers read the clock before
   they wait for the lock.
   */
  lemma {:induction false} WindowBound(p: Policy, s: State, calls: seq<Call>, i: nat, j: nat, w: Window, slot: Slot)
    requires TokensOk(p, s) && i <= j <= |calls| && Within(calls[i..j], w)
    ensures Spent(calls[i..j], Outcomes(p, s, calls)[i..j], slot) <= p.capacity + p.refillPerSecond * (w.to - w.from) as real / 1000.0
  {
    hide TokensOk, Spent, Outcomes, Step, After, Gain, Within, EagerValid;
    var s' := After(p, s, calls[..i]);
    AfterTokensOk(p, s, calls[..i]);
    OutcomesUpTo(p, s, calls, j);
    OutcomesFrom(p, s, calls[..j], i);
    assert calls[..j][..i] == calls[..i] && calls[..j][i..] == calls[i..j];
    assert Outcomes(p, s, calls)[i..j] == Outcomes(p, s, calls)[..j][i..];
    SpentWithin(p, s', calls[i..j], w, slot);
    WindowNotEmpty(calls[i..j], w);
    WorthsValid(p, s', w);
    TokensNonNegative(Raised(p, w), Worths(p, s', w), slot);
    GainIs(p, w.to - w.from);
  }

  /** What the refill rate is: tokens a second, for instants in milliseconds. */
  lemma {:induction false} GainIs(p: Policy, milliseconds: int)
    ensures Gain(p, milliseconds) == p.refillPerSecond * milliseconds as real / 1000.0
  {
  }

  lemma {:induction false} WindowNotEmpty(calls: seq<Call>, w: Window)
    requires Within(calls, w)
    ensures w.from <= w.to
  {
  }

  /** Over all keys together, any run admits at most (maximumKeys + 1) times the capacity plus the refill between its earliest and latest instant. */
  lemma {:induction false} TotalBound(p: Policy, s: State, calls: seq<Call>, w: Window)
    requires TokensOk(p, s) && Within(calls, w)
    ensures TotalSpent(calls, Outcomes(p, s, calls))
      <= (p.maximumKeys + 1) as real * (p.capacity + p.refillPerSecond * (w.to - w.from) as real / 1000.0)
  {
    hide Times, Gain, TotalSpent, Outcomes, Bank, EagerValid, TokensOk, Worths;
    TotalWithin(p, s, calls, w);
    WorthsValid(p, s, w);
    BankBounds(Raised(p, w), Worths(p, s, w));
    GainIs(p, w.to - w.from);
    TimesIs(p.maximumKeys + 1, p.capacity + Gain(p, w.to - w.from));
  }

  lemma {:induction false} TimesIs(n: int, x: real)
    ensures Times(n, x) == n as real * x
  {
  }

  /** A new limiter is within its capacities. */
  lemma {:induction false} EmptyTokensOk(p: Policy)
    requires ValidPolicy(p)
    ensures TokensOk(p, EMPTY)
  {
  }

  /** The instant of the first call would not do for the earliest: a later call may have read an earlier clock. */
  lemma {:induction false} FirstInstantIsNotEnough()
    ensures var p := Policy(1.0, 1.0, 2);
      var calls := [Call("b", 1.0, 1000), Call("a", 1.0, 0), Call("a", 1.0, 1000)];
      Spent(calls, Outcomes(p, EMPTY, calls), Named("a")) > p.capacity + Gain(p, calls[2].now - calls[0].now)
  {
    var p := Policy(1.0, 1.0, 2);
    var b, a0, a1 := Call("b", 1.0, 1000), Call("a", 1.0, 0), Call("a", 1.0, 1000);
    assert Gain(p, 1000) == 1.0 && Gain(p, 0) == 0.0;
    var s1 := Step(p, EMPTY, b).0;
    assert s1.buckets == map["b" := Bucket(0.0, 1000)] && Step(p, EMPTY, b).1 == Admitted(Named("b"));
    var s2 := Step(p, s1, a0).0;
    assert |s1.buckets| == 1 && "a" !in s1.buckets;
    assert s2.buckets == map["b" := Bucket(0.0, 1000), "a" := Bucket(0.0, 0)] && Step(p, s1, a0).1 == Admitted(Named("a"));
    assert Step(p, s2, a1).1 == Admitted(Named("a"));
    var calls := [b, a0, a1];
    assert calls[1..] == [a0, a1] && [a0, a1][1..] == [a1] && [a1][1..] == [];
    assert Outcomes(p, s2, [a1]) == [Admitted(Named("a"))];
    assert Outcomes(p, s1, [a0, a1]) == [Admitted(Named("a")), Admitted(Named("a"))];
    var outcomes := Outcomes(p, EMPTY, calls);
    assert outcomes == [Admitted(Named("b")), Admitted(Named("a")), Admitted(Named("a"))];
    assert outcomes[1..] == [Admitted(Named("a")), Admitted(Named("a"))] && outcomes[1..][1..] == [Admitted(Named("a"))];
    assert Spent([a1], [Admitted(Named("a"))], Named("a")) == 1.0;
    assert Spent([a0, a1], outcomes[1..], Named("a")) == 2.0;
  }

  // ----- Exactly which calls are admitted -----

  /** The keys that got a bucket of their own: the first ones of well-formed calls, as many as the policy allows. */
  function NamedKeys(p: Policy, calls: seq<Call>): set<string> {
    if calls == [] then {}
    else
      var keys, call := NamedKeys(p, calls[..|calls| - 1]), calls[|calls| - 1];
      if call.key != "" && 0.0 < call.cost <= p.capacity && |keys| < p.maximumKeys then keys + {call.key} else keys
  }

  /** The bucket of the next call. */
  function SlotAfter(p: Policy, calls: seq<Call>, key: string): Slot {
    if key in NamedKeys(p, calls) || |NamedKeys(p, calls)| < p.maximumKeys then Named(key) else Overflow
  }

  /** What was admitted since each earlier call, and `cost` more, would fit the capacity and the refill since then. */
  predicate Fits(p: Policy, calls: seq<Call>, outcomes: seq<Outcome>, slot: Slot, cost: real, now: int)
    requires |calls| == |outcomes|
  {
    && cost <= p.capacity
    && forall i :: 0 <= i < |calls| ==> Spent(calls[i..], outcomes[i..], slot) + cost <= p.capacity + Gain(p, now - calls[i].now)
  }

  lemma {:induction false} TokensAdvance(p: Policy, e: Eager, n: nat, slot: Slot)
    requires EagerValid(p, e)
    ensures TokensIn(p, Advance(p, e, n), slot) == Min(p.capacity, TokensIn(p, e, slot) + Gain(p, n))
  {
    GainNonNegative(p, n);
  }

  lemma {:induction false} TakeTokens(p: Policy, e: Eager, call: Call, slot: Slot)
    requires EagerValid(p, e)
    ensures TokensIn(p, Take(p, e, call).0, slot) == TokensIn(p, e, slot) - (if Take(p, e, call).1 == Admitted(slot) then call.cost else 0.0)
  {
  }

  /** What a bucket holds at `now`. */
  function Held(p: Policy, s: State, slot: Slot, now: int): real {
    TokensIn(p, Eagerly(p, s, now), slot)
  }

  lemma {:induction false} HeldNext(p: Policy, s: State, call: Call, slot: Slot, now: int)
    requires Valid(p, s, call.now) && call.now <= now
    ensures var (s', outcome) := Step(p, s, call);
      && Valid(p, s', now)
      && Held(p, s', slot, now)
         == Min(p.capacity, Held(p, s, slot, call.now) - (if outcome == Admitted(slot) then call.cost else 0.0) + Gain(p, now - call.now))
  {
    hide Step, Take, Advance, Eagerly, Valid, TokensIn, Gain, EagerValid;
    var s' := Step(p, s, call).0;
    StepRefines(p, s, call);
    EagerlyLater(p, s', call.now, now);
    EagerlyValid(p, s, call.now);
    EagerlyValid(p, s', call.now);
    TakeTokens(p, Eagerly(p, s, call.now), call, slot);
    TokensAdvance(p, Eagerly(p, s', call.now), now - call.now, slot);
  }

  lemma {:induction false} RunSnoc(p: Policy, s: State, calls: seq<Call>, call: Call)
    ensures After(p, s, calls + [call]) == Step(p, After(p, s, calls), call).0
    ensures Outcomes(p, s, calls + [call]) == Outcomes(p, s, calls) + [Step(p, After(p, s, calls), call).1]
    decreases |calls|
  {
    hide Step;
    if calls == [] {
      assert (calls + [call])[1..] == [];
    } else {
      assert (calls + [call])[1..] == calls[1..] + [call];
      RunSnoc(p, Step(p, s, calls[0]).0, calls[1..], call);
    }
  }

  lemma {:induction false} SpentSnoc(calls: seq<Call>, outcomes: seq<Outcome>, call: Call, outcome: Outcome, slot: Slot)
    requires |calls| == |outcomes|
    ensures Spent(calls + [call], outcomes + [outcome], slot)
      == Spent(calls, outcomes, slot) + (if outcome == Admitted(slot) then call.cost else 0.0)
    decreases |calls|
  {
    if calls == [] {
    } else {
      assert (calls + [call])[1..] == calls[1..] + [call] && (outcomes + [outcome])[1..] == outcomes[1..] + [outcome];
      SpentSnoc(calls[1..], outcomes[1..], call, outcome, slot);
    }
  }

  /** What fits later, in terms of what fitted when the last call came. */
  lemma {:induction false} FitsSnoc(p: Policy, calls: seq<Call>, outcomes: seq<Outcome>, call: Call, outcome: Outcome, slot: Slot, cost: real, now: int)
    requires ValidPolicy(p) && |calls| == |outcomes| && call.now <= now && (outcome == Admitted(slot) ==> call.cost > 0.0)
    ensures var paid := if outcome == Admitted(slot) then call.cost else 0.0;
      Fits(p, calls + [call], outcomes + [outcome], slot, cost, now)
      <==> cost <= p.capacity && Fits(p, calls, outcomes, slot, cost + paid - Gain(p, now - call.now), call.now)
  {
    hide Spent, Gain;
    var paid := if outcome == Admitted(slot) then call.cost else 0.0;
    var more, ends, n := calls + [call], outcomes + [outcome], |calls|;
    GainNonNegative(p, now - call.now);
    LastSpent(call, outcome, slot);
    assert more[n..] == [call] && ends[n..] == [outcome] && more[n] == call;
    forall i | 0 <= i < n
      ensures more[i] == calls[i] && Spent(more[i..], ends[i..], slot) == Spent(calls[i..], outcomes[i..], slot) + paid
      ensures Gain(p, now - calls[i].now) == Gain(p, call.now - calls[i].now) + Gain(p, now - call.now)
    {
      assert more[i..] == calls[i..] + [call] && ends[i..] == outcomes[i..] + [outcome];
      SpentSnoc(calls[i..], outcomes[i..], call, outcome, slot);
      GainAdds(p, call.now - calls[i].now, now - call.now);
    }
  }

  lemma {:induction false} LastSpent(call: Call, outcome: Outcome, slot: Slot)
    ensures Spent([call], [outcome], slot) == if outcome == Admitted(slot) then call.cost else 0.0
  {
    assert [call][1..] == [];
  }

  /** A bucket holds `cost` exactly if that fits everything admitted from it before. */
  lemma {:induction false} HeldExactly(p: Policy, start: int, calls: seq<Call>, slot: Slot, cost: real, now: int)
    requires ValidPolicy(p) && Ordered(calls, start) && start <= now && forall i :: 0 <= i < |calls| ==> calls[i].now <= now
    ensures Valid(p, After(p, EMPTY, calls), now)
    ensures cost <= Held(p, After(p, EMPTY, calls), slot, now) <==> Fits(p, calls, Outcomes(p, EMPTY, calls), slot, cost, now)
    decreases |calls|
  {
    hide Step, Held, Fits, Valid, Gain;
    if calls == [] {
      NothingSpent(p, slot, cost, now);
    } else {
      var init, call := calls[..|calls| - 1], calls[|calls| - 1];
      var s := After(p, EMPTY, init);
      var outcome := Step(p, s, call).1;
      assert calls == init + [call];
      RunSnoc(p, EMPTY, init, call);
      var paid := if outcome == Admitted(slot) then call.cost else 0.0;
      HeldExactly(p, start, init, slot, cost + paid - Gain(p, now - call.now), call.now);
      HeldNext(p, s, call, slot, now);
      AdmittedCosts(p, s, call);
      FitsSnoc(p, init, Outcomes(p, EMPTY, init), call, outcome, slot, cost, now);
    }
  }

  lemma {:induction false} AdmittedCosts(p: Policy, s: State, call: Call)
    ensures Step(p, s, call).1.Admitted? ==> call.cost > 0.0
  {
  }

  lemma {:induction false} NothingSpent(p: Policy, slot: Slot, cost: real, now: int)
    requires ValidPolicy(p)
    ensures Valid(p, EMPTY, now) && (cost <= Held(p, EMPTY, slot, now) <==> Fits(p, [], [], slot, cost, now))
  {
  }

  lemma {:induction false} StepKeys(p: Policy, s: State, call: Call)
    ensures var m := s.buckets;
      Step(p, s, call).0.buckets.Keys
      == if call.key != "" && 0.0 < call.cost <= p.capacity && |m.Keys| < p.maximumKeys then m.Keys + {call.key} else m.Keys
  {
    hide Refilled, Read;
    assert |s.buckets| == |s.buckets.Keys|;
  }

  lemma {:induction false} NamedKeysAre(p: Policy, calls: seq<Call>)
    ensures After(p, EMPTY, calls).buckets.Keys == NamedKeys(p, calls)
  {
    hide Step, After;
    if calls == [] {
      NothingYet(p);
    } else {
      var init, call := calls[..|calls| - 1], calls[|calls| - 1];
      NamedKeysAre(p, init);
      assert calls == init + [call];
      RunSnoc(p, EMPTY, init, call);
      StepKeys(p, After(p, EMPTY, init), call);
    }
  }

  lemma {:induction false} NothingYet(p: Policy)
    ensures After(p, EMPTY, []) == EMPTY
  {
  }

  /**
   Exactly which calls of a run are admitted, for a clock that does not go back: a
   call that names a key and costs something the bucket could hold is admitted if and
   only if, counting from every earlier call and from itself, what was admitted from
   its bucket and what it costs stay within the capacity and the refill since then.
   */
  lemma {:induction false} AdmittedExactly(p: Policy, start: int, calls: seq<Call>, j: nat)
    requires ValidPolicy(p) && Ordered(calls, start) && j < |calls|
    ensures var call, outcomes := calls[j], Outcomes(p, EMPTY, calls);
      var slot := SlotAfter(p, calls[..j], call.key);
      outcomes[j] ==
      if call.key == "" || call.cost <= 0.0 || call.cost > p.capacity then Invalid
      else if forall i :: 0 <= i < j ==>
        Spent(calls[i..j], outcomes[i..j], slot) + call.cost <= p.capacity + p.refillPerSecond * (call.now - calls[i].now) as real / 1000.0
      then Admitted(slot) else Denied(slot)
  {
    hide Held, Valid, Gain, Spent, NamedKeys, After, Outcomes, Take, Eagerly, Fits;
    var call, past := calls[j], calls[..j];
    var slot := SlotAfter(p, past, call.key);
    var s := After(p, EMPTY, past);
    NamedKeysAre(p, past);
    assert |s.buckets| == |s.buckets.Keys|;
    HeldExactly(p, start, past, slot, call.cost, call.now);
    HeldDecides(p, s, call);
    OutcomesUpTo(p, EMPTY, calls, j + 1);
    assert calls[..j + 1] == past + [call];
    RunSnoc(p, EMPTY, past, call);
    OutcomesUpTo(p, EMPTY, calls, j);
    FitsMeans(p, calls, Outcomes(p, EMPTY, calls), j, slot, call.cost);
  }

  lemma {:induction false} HeldDecides(p: Policy, s: State, call: Call)
    requires Valid(p, s, call.now)
    ensures var slot := SlotOf(p, s, call.key);
      Step(p, s, call).1 == if call.key == "" || call.cost <= 0.0 || call.cost > p.capacity then Invalid
                            else if call.cost <= Held(p, s, slot, call.now) then Admitted(slot) else Denied(slot)
  {
    hide Step, Eagerly, TokensIn, Valid;
    StepRefines(p, s, call);
    EagerlyValid(p, s, call.now);
  }

  lemma {:induction false} FitsMeans(p: Policy, calls: seq<Call>, outcomes: seq<Outcome>, j: nat, slot: Slot, cost: real)
    requires j < |calls| == |outcomes|
    ensures Fits(p, calls[..j], outcomes[..j], slot, cost, calls[j].now) <==>
      && cost <= p.capacity
      && forall i :: 0 <= i < j ==>
        Spent(calls[i..j], outcomes[i..j], slot) + cost <= p.capacity + p.refillPerSecond * (calls[j].now - calls[i].now) as real / 1000.0
  {
    hide Spent, Gain;
    forall i | 0 <= i < j
      ensures calls[..j][i..] == calls[i..j] && outcomes[..j][i..] == outcomes[i..j]
      ensures Gain(p, calls[j].now - calls[i].now) == p.refillPerSecond * (calls[j].now - calls[i].now) as real / 1000.0
    {
      GainIs(p, calls[j].now - calls[i].now);
    }
  }

  // ----- The class -----

  class TokenBucketRateLimiter {
    const policy: Policy
    var buckets: map<string, Bucket>
    var overflowBucket: Bucket
    var overflowInitialized: bool

    function Snapshot(): State
      reads this
    {
      State(buckets, if overflowInitialized then Some(overflowBucket) else None)
    }

    constructor (policy: Policy)
      requires ValidPolicy(policy)
      ensures this.policy == policy && Snapshot() == EMPTY
    {
      this.policy := policy;
      buckets, overflowBucket, overflowInitialized := map[], Bucket(0.0, 0), false;
    }

    static method Create(capacity: real, refillPerSecond: real, maximumKeys: nat) returns (limiter: Option<TokenBucketRateLimiter>)
      ensures limiter.Some? <==> capacity >= 1.0 && refillPerSecond > 0.0 && maximumKeys > 0
      ensures limiter.Some? ==> fresh(limiter.value) && limiter.value.Snapshot() == EMPTY
      ensures limiter.Some? ==> limiter.value.policy == Policy(capacity, refillPerSecond, maximumKeys)
    {
      if capacity < 1.0 || refillPerSecond <= 0.0 || maximumKeys == 0 {
        return None;
      }
      var created := new TokenBucketRateLimiter(Policy(capacity, refillPerSecond, maximumKeys));
      return Some(created);
    }

    method Allow(key: string, cost: real, now: int) returns (allowed: bool)
      modifies this
      ensures Snapshot() == old(Step(policy, Snapshot(), Call(key, cost, now))).0
      ensures allowed <==> old(Step(policy, Snapshot(), Call(key, cost, now))).1.Admitted?
      ensures old(Valid(policy, Snapshot(), now)) ==> Valid(policy, Snapshot(), now)
      ensures old(TokensOk(policy, Snapshot())) ==> TokensOk(policy, Snapshot())
    {
      hide Valid, Take, Eagerly, TokensOk, Worths, TokensIn;
      if Valid(policy, Snapshot(), now) {
        StepRefines(policy, Snapshot(), Call(key, cost, now));
      }
      if TokensOk(policy, Snapshot()) {
        StepWorth(policy, Snapshot(), Call(key, cost, now), Window(now, now));
      }
      if key == "" || cost <= 0.0 || cost > policy.capacity {
        return false;
      }
      var bucket: Bucket;
      var named := true;
      if key !in buckets {
        if |buckets| >= policy.maximumKeys {
          if !overflowInitialized {
            overflowBucket := Bucket(policy.capacity, now);
            overflowInitialized := true;
          }
          bucket, named := overflowBucket, false;
        } else {
          bucket := Bucket(policy.capacity, now);
        }
      } else {
        bucket := buckets[key];
      }
      var elapsed := now - bucket.updatedAt;
      if elapsed > 0 {
        var seconds := elapsed as real / 1000.0;
        bucket := Bucket(Min(policy.capacity, bucket.tokens + seconds * policy.refillPerSecond), now);
      }
      allowed := bucket.tokens >= cost;
      if allowed {
        bucket := bucket.(tokens := bucket.tokens - cost);
      }
      if named {
        buckets := buckets[key := bucket];
      } else {
        overflowBucket := bucket;
      }
    }
  }
}
