/**
 The three-state circuit breaker, one entry an endpoint.

 Entries are values with transition functions; the class below keeps the map
 and performs the same transitions in place. The failure counter is an unsigned
 32-bit number and wraps.
 */
module CircuitBreaker {
  import opened Foundation

  datatype CircuitState = Closed | Open | HalfOpen

  datatype Entry = Entry(state: CircuitState, failures: nat, openedAt: int, probeInFlight: bool)

  const FRESH := Entry(Closed, 0, 0, false)

  datatype Policy = Policy(failureThreshold: nat, openDuration: int)

  predicate ValidPolicy(p: Policy) {
    0 < p.failureThreshold < TWO_32 && p.openDuration > 0
  }

  type Entries = map<string, Entry>

  /** A missing entry reads as a fresh one. */
  function EntryOf(entries: Entries, endpoint: string): Entry {
    if endpoint in entries then entries[endpoint] else FRESH
  }

  /** The entry after a request for admission at `now`, and the answer. */
  function Allowed(p: Policy, entry: Entry, now: int): (Entry, bool) {
    if entry.state == Closed then (entry, true)
    else if entry.state == Open && now - entry.openedAt < p.openDuration then (entry, false)
    else
      var probing := if entry.state == Open then entry.(state := HalfOpen, probeInFlight := false) else entry;
      if probing.probeInFlight then (probing, false) else (probing.(probeInFlight := true), true)
  }

  /** The entry after an attempt reported at `now`. */
  function Reported(p: Policy, entry: Entry, success: bool, now: int): Entry {
    if success then FRESH
    else if entry.state == HalfOpen then entry.(probeInFlight := false, state := Open, openedAt := now)
    else
      var failures := (entry.failures + 1) % TWO_32;
      if failures >= p.failureThreshold
      then Entry(Open, failures, now, false)
      else entry.(probeInFlight := false, failures := failures)
  }

  class Breaker {
    const policy: Policy
    var entries: Entries

    constructor (policy: Policy)
      requires ValidPolicy(policy)
      ensures this.policy == policy && entries == map[]
    {
      this.policy, entries := policy, map[];
    }

    static method Create(failureThreshold: nat, openDuration: int) returns (breaker: Option<Breaker>)
      requires failureThreshold < TWO_32
      ensures breaker.Some? <==> failureThreshold > 0 && openDuration > 0
      ensures breaker.Some? ==> fresh(breaker.value) && breaker.value.entries == map[]
      ensures breaker.Some? ==> breaker.value.policy == Policy(failureThreshold, openDuration)
    {
      if failureThreshold == 0 || openDuration <= 0 {
        return None;
      }
      var created := new Breaker(Policy(failureThreshold, openDuration));
      return Some(created);
    }

    method Allow(endpoint: string, now: int) returns (admitted: bool)
      modifies this
      ensures (EntryOf(entries, endpoint), admitted) == Allowed(policy, old(EntryOf(entries, endpoint)), now)
      ensures entries == old(entries)[endpoint := EntryOf(entries, endpoint)]
    {
      var entry := EntryOf(entries, endpoint);
      entries := entries[endpoint := entry];
      if entry.state == Closed {
        return true;
      }
      if entry.state == Open {
        if now - entry.openedAt < policy.openDuration {
          return false;
        }
        entry := entry.(state := HalfOpen, probeInFlight := false);
        entries := entries[endpoint := entry];
      }
      if entry.probeInFlight {
        return false;
      }
      entries := entries[endpoint := entry.(probeInFlight := true)];
      return true;
    }

    method RecordSuccess(endpoint: string)
      modifies this
      ensures entries == old(entries)[endpoint := Reported(policy, old(EntryOf(entries, endpoint)), true, 0)]
    {
      entries := entries[endpoint := FRESH];
    }

    method RecordFailure(endpoint: string, now: int)
      modifies this
      ensures entries == old(entries)[endpoint := Reported(policy, old(EntryOf(entries, endpoint)), false, now)]
    {
      var entry := EntryOf(entries, endpoint).(probeInFlight := false);
      var opens := entry.state == HalfOpen;
      if !opens {
        entry := entry.(failures := (entry.failures + 1) % TWO_32);
        opens := entry.failures >= policy.failureThreshold;
      }
      if opens {
        entry := entry.(state := Open, openedAt := now);
      }
      entries := entries[endpoint := entry];
    }

    function State(endpoint: string): CircuitState
      reads this
    {
      EntryOf(entries, endpoint).state
    }
  }
}
