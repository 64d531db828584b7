/**
 Dispatch under concurrency: many requests run the retry loop at once, sharing
 one circuit breaker and one load balancer.

 Every shared object is locked for the length of one call, so a run is an
 interleaving of atomic actions: the clock advances, a request starts, chooses
 an endpoint, asks its circuit, or hears from the upstream and reports. The log
 of reports is kept for the specification.
 */
module Dispatch {
  import opened Foundation
  import opened TrustedContext
  import LB = LoadBalancer
  import CB = CircuitBreaker

  /** What the transport hands back: a response, or an error that may be a timeout. */
  datatype Answer = Response(status: int) | Unreachable(timeout: bool)

  datatype Outcome = Proxied(status: int) | Unavailable | TimedOut

  /** Methods that may be sent again: the safe methods of section 9.2.1 of RFC 9110 that the gateway knows. */
  predicate Retryable(method_: HttpMethod) {
    method_.Get? || method_.Head? || method_.Options?
  }

  function Attempts(method_: HttpMethod, endpoints: seq<LB.Endpoint>): nat {
    if Retryable(method_) then (if |endpoints| < 2 then |endpoints| else 2) else 1
  }

  datatype Phase =
    | Looping
    | Asking(endpoint: string)
    | Sending(endpoint: string)
    | Done(outcome: Outcome)

  /** One request in its loop; `sentTo` and `refused` list the endpoints it was sent to and those whose circuit refused it. */
  datatype Request = Request(
    method_: HttpMethod, service: string, endpoints: seq<LB.Endpoint>,
    excluded: seq<string>, sentTo: seq<string>, refused: seq<string>, timedOut: bool, phase: Phase)

  datatype Report = Report(endpoint: string, success: bool, at: int)

  datatype System = System(
    now: int, entries: CB.Entries, sequences: map<string, nat>, requests: map<nat, Request>, log: seq<Report>)

  datatype Action =
    | Advance(milliseconds: nat)
    | Begin(id: nat, method_: HttpMethod, service: string, endpoints: seq<LB.Endpoint>)
    | Choose(id: nat)
    | Ask(id: nat)
    | Hear(id: nat, answer: Answer)

  function Sequence(s: System, service: string): nat {
    if service in s.sequences then s.sequences[service] else 0
  }

  function Failure(timedOut: bool): Outcome {
    if timedOut then TimedOut else Unavailable
  }

  /** The head of the loop: stop, or pick the next endpoint and exclude it. */
  function Chosen(r: Request, sequence: nat): Request {
    if |r.sentTo| >= Attempts(r.method_, r.endpoints) || |r.excluded| >= |r.endpoints| || LB.TotalWeight(r.endpoints, r.excluded) == 0
    then r.(phase := Done(Failure(r.timedOut)))
    else
      var endpoint := r.endpoints[LB.ChosenAt(r.endpoints, r.excluded, sequence)].id;
      r.(excluded := r.excluded + [endpoint], phase := Asking(endpoint))
  }

  function Asked(r: Request, admitted: bool): Request
    requires r.phase.Asking?
  {
    if admitted then r.(sentTo := r.sentTo + [r.phase.endpoint], phase := Sending(r.phase.endpoint))
    else r.(refused := r.refused + [r.phase.endpoint], phase := Looping)
  }

  predicate Success(answer: Answer) {
    answer.Response? && 100 <= answer.status < 500
  }

  /** A response ends the request; a transport error sends it back to the loop. */
  function Heard(r: Request, answer: Answer): Request {
    match answer
    case Response(status) => r.(phase := Done(if 100 <= status <= 599 then Proxied(status) else Unavailable))
    case Unreachable(timeout) => r.(timedOut := timeout, phase := Looping)
  }

  predicate Enabled(s: System, a: Action) {
    match a
    case Advance(_) => true
    case Begin(id, _, _, endpoints) => id !in s.requests && LB.ValidService(endpoints)
    case Choose(id) => id in s.requests && s.requests[id].phase.Looping?
    case Ask(id) => id in s.requests && s.requests[id].phase.Asking?
    case Hear(id, _) => id in s.requests && s.requests[id].phase.Sending?
  }

  /** One atomic action; an action that is not enabled does nothing. */
  function Step(p: CB.Policy, s: System, a: Action): System {
    if !Enabled(s, a) then s
    else match a
      case Advance(milliseconds) => s.(now := s.now + milliseconds)
      case Begin(id, method_, service, endpoints) =>
        s.(requests := s.requests[id := Request(method_, service, endpoints, [], [], [], false, Looping)])
      case Choose(id) =>
        var r := Chosen(s.requests[id], Sequence(s, s.requests[id].service));
        var s' := s.(requests := s.requests[id := r]);
        if r.phase.Done? then s'
        else s'.(sequences := s.sequences[r.service := (Sequence(s, r.service) + 1) % TWO_64])
      case Ask(id) =>
        var endpoint := s.requests[id].phase.endpoint;
        var (entry, admitted) := CB.Allowed(p, CB.EntryOf(s.entries, endpoint), s.now);
        s.(entries := s.entries[endpoint := entry], requests := s.requests[id := Asked(s.requests[id], admitted)])
      case Hear(id, answer) =>
        var endpoint := s.requests[id].phase.endpoint;
        var entry := CB.Reported(p, CB.EntryOf(s.entries, endpoint), Success(answer), s.now);
        s.(entries := s.entries[endpoint := entry], requests := s.requests[id := Heard(s.requests[id], answer)],
           log := s.log + [Report(endpoint, Success(answer), s.now)])
  }

  function Run(p: CB.Policy, s: System, actions: seq<Action>): System {
    if actions == [] then s else Step(p, Run(p, s, actions[..|actions| - 1]), actions[|actions| - 1])
  }

  function Start(now: int): System {
    System(now, map[], map[], map[], [])
  }

  // ----- Circuits along every interleaving -----

  /** Failures reported for an endpoint since its last reported success. */
  function FailuresSince(log: seq<Report>, endpoint: string): nat {
    if log == [] then 0
    else
      var last := log[|log| - 1];
      if last.endpoint != endpoint then FailuresSince(log[..|log| - 1], endpoint)
      else if last.success then 0
      else FailuresSince(log[..|log| - 1], endpoint) + 1
  }

  /** The report an answer makes: a failure unless it is a response with a status from 100 to 499. */
  function ReportOf(s: System, a: Action): Report
    requires Enabled(s, a) && a.Hear?
  {
    Report(s.requests[a.id].phase.endpoint, a.answer.Response? && 100 <= a.answer.status <= 499, s.now)
  }

  /** The reports of a run: one for every answer heard, about the endpoint it came from, at the instant it came. */
  function Reports(p: CB.Policy, s: System, actions: seq<Action>): seq<Report> {
    if actions == [] then []
    else
      var init, a := actions[..|actions| - 1], actions[|actions| - 1];
      var s' := Run(p, s, init);
      Reports(p, s, init) + (if Enabled(s', a) && a.Hear? then [ReportOf(s', a)] else [])
  }

  lemma {:induction false} StepLogs(p: CB.Policy, s: System, a: Action)
    ensures Step(p, s, a).log == s.log + (if Enabled(s, a) && a.Hear? then [ReportOf(s, a)] else [])
  {
    hide Chosen, Asked, Heard, CB.Allowed, CB.Reported;
  }

  /** When an endpoint last failed. */
  function LastFailure(log: seq<Report>, endpoint: string): Option<int> {
    if log == [] then None
    else
      var last := log[|log| - 1];
      if last.endpoint == endpoint && !last.success then Some(last.at) else LastFailure(log[..|log| - 1], endpoint)
  }

  /** An attempt admitted to the endpoint has yet to report. */
  ghost predicate Outstanding(s: System, endpoint: string) {
    exists id :: id in s.requests && s.requests[id].phase == Sending(endpoint)
  }

  ghost predicate CircuitOk(p: CB.Policy, s: System, endpoint: string) {
    var entry, failures := CB.EntryOf(s.entries, endpoint), FailuresSince(s.log, endpoint);
    && (entry.state == CB.Closed <==> failures < p.failureThreshold)
    && (entry.state == CB.Closed ==> entry.failures == failures)
    && (entry.state == CB.HalfOpen <==> entry.probeInFlight)
    && (entry.state == CB.HalfOpen ==> Outstanding(s, endpoint))
    && (entry.state == CB.Open ==> LastFailure(s.log, endpoint).Some? && entry.openedAt <= LastFailure(s.log, endpoint).value)
    && (LastFailure(s.log, endpoint).Some? ==> LastFailure(s.log, endpoint).value <= s.now)
  }

  lemma {:induction false} LogSnoc(log: seq<Report>, report: Report, endpoint: string)
    ensures FailuresSince(log + [report], endpoint)
         == if report.endpoint != endpoint then FailuresSince(log, endpoint) else if report.success then 0 else FailuresSince(log, endpoint) + 1
    ensures LastFailure(log + [report], endpoint)
         == if report.endpoint == endpoint && !report.success then Some(report.at) else LastFailure(log, endpoint)
  {
    assert (log + [report])[..|log|] == log;
  }

  /** Sending attempts survive every action except their own report. */
  lemma {:induction false} OutstandingKept(p: CB.Policy, s: System, a: Action, endpoint: string)
    requires Outstanding(s, endpoint)
    requires !(Enabled(s, a) && a.Hear? && s.requests[a.id].phase.endpoint == endpoint)
    ensures Outstanding(Step(p, s, a), endpoint)
  {
    var id :| id in s.requests && s.requests[id].phase == Sending(endpoint);
    assert Step(p, s, a).requests[id].phase == Sending(endpoint);
  }

  lemma {:induction false} AskKeepsCircuit(p: CB.Policy, s: System, id: nat)
    requires CB.ValidPolicy(p) && Enabled(s, Ask(id)) && CircuitOk(p, s, s.requests[id].phase.endpoint)
    ensures CircuitOk(p, Step(p, s, Ask(id)), s.requests[id].phase.endpoint)
  {
    var endpoint := s.requests[id].phase.endpoint;
    var s' := Step(p, s, Ask(id));
    var (entry, admitted) := CB.Allowed(p, CB.EntryOf(s.entries, endpoint), s.now);
    assert CB.EntryOf(s'.entries, endpoint) == entry;
    if admitted {
      assert s'.requests[id].phase == Sending(endpoint);
    } else if entry.state == CB.HalfOpen {
      OutstandingKept(p, s, Ask(id), endpoint);
    }
  }

  lemma {:induction false} HearKeepsCircuit(p: CB.Policy, s: System, id: nat, answer: Answer)
    requires CB.ValidPolicy(p) && Enabled(s, Hear(id, answer)) && CircuitOk(p, s, s.requests[id].phase.endpoint)
    ensures CircuitOk(p, Step(p, s, Hear(id, answer)), s.requests[id].phase.endpoint)
  {
    hide FailuresSince, LastFailure, Outstanding, Success, Heard;
    var endpoint := s.requests[id].phase.endpoint;
    var s' := Step(p, s, Hear(id, answer));
    LogSnoc(s.log, Report(endpoint, Success(answer), s.now), endpoint);
    assert CB.EntryOf(s'.entries, endpoint) == CB.Reported(p, CB.EntryOf(s.entries, endpoint), Success(answer), s.now);
  }

  lemma {:induction false} StepKeepsCircuit(p: CB.Policy, s: System, a: Action, endpoint: string)
    requires CB.ValidPolicy(p) && CircuitOk(p, s, endpoint)
    ensures CircuitOk(p, Step(p, s, a), endpoint)
  {
    hide FailuresSince, LastFailure, Outstanding, Success, Heard, Asked, CB.Reported, CB.Allowed;
    if Enabled(s, a) && a.Ask? && s.requests[a.id].phase.endpoint == endpoint {
      AskKeepsCircuit(p, s, a.id);
    } else if Enabled(s, a) && a.Hear? && s.requests[a.id].phase.endpoint == endpoint {
      HearKeepsCircuit(p, s, a.id, a.answer);
    } else {
      if Outstanding(s, endpoint) {
        OutstandingKept(p, s, a, endpoint);
      }
      var s' := Step(p, s, a);
      assert CB.EntryOf(s'.entries, endpoint) == CB.EntryOf(s.entries, endpoint);
      if Enabled(s, a) && a.Hear? {
        LogSnoc(s.log, Report(s.requests[a.id].phase.endpoint, Success(a.answer), s.now), endpoint);
      }
    }
  }

  /**
   Along every interleaving an endpoint's circuit is closed exactly while fewer
   failures than the threshold were reported since its last success, half open
   exactly while its probe is in flight, and never half open without an
   admitted attempt that has yet to report.
   */
  lemma {:induction false} CircuitInvariant(p: CB.Policy, start: int, actions: seq<Action>, endpoint: string)
    requires CB.ValidPolicy(p)
    ensures CircuitOk(p, Run(p, Start(start), actions), endpoint)
    ensures Run(p, Start(start), actions).log == Reports(p, Start(start), actions)
  {
    hide Step, CircuitOk;
    if actions == [] {
      FreshCircuit(p, start, endpoint);
    } else {
      var init := actions[..|actions| - 1];
      CircuitInvariant(p, start, init, endpoint);
      StepKeepsCircuit(p, Run(p, Start(start), init), actions[|actions| - 1], endpoint);
      StepLogs(p, Run(p, Start(start), init), actions[|actions| - 1]);
    }
  }

  lemma {:induction false} FreshCircuit(p: CB.Policy, start: int, endpoint: string)
    requires CB.ValidPolicy(p)
    ensures CircuitOk(p, Start(start), endpoint)
  {
  }

  /** With nothing outstanding, a circuit whose open interval has elapsed since the last failure admits: it cannot stay shut. */
  lemma {:induction false} NeverStuck(p: CB.Policy, start: int, actions: seq<Action>, endpoint: string)
    requires CB.ValidPolicy(p)
    requires var s := Run(p, Start(start), actions);
             && !Outstanding(s, endpoint)
             && (LastFailure(s.log, endpoint).Some? ==> s.now - LastFailure(s.log, endpoint).value >= p.openDuration)
    ensures var s := Run(p, Start(start), actions);
            CB.Allowed(p, CB.EntryOf(s.entries, endpoint), s.now).1
  {
    CircuitInvariant(p, start, actions, endpoint);
  }

  // ----- Probes -----

  /** The circuit is half open and its probe has been admitted. */
  predicate Probing(s: System, endpoint: string) {
    CB.EntryOf(s.entries, endpoint).state == CB.HalfOpen && CB.EntryOf(s.entries, endpoint).probeInFlight
  }

  /** The action reports on an attempt at this endpoint. */
  predicate ReportsOn(s: System, a: Action, endpoint: string) {
    Enabled(s, a) && a.Hear? && s.requests[a.id].phase.endpoint == endpoint
  }

  /** This request reports on its attempt at the endpoint. */
  predicate ReportBy(s: System, a: Action, endpoint: string, id: nat) {
    ReportsOn(s, a, endpoint) && a.id == id
  }

  /** No action of the run reports on the endpoint. */
  predicate Unreported(p: CB.Policy, s: System, actions: seq<Action>, endpoint: string) {
    forall k :: 0 <= k < |actions| ==> !ReportsOn(Run(p, s, actions[..k]), actions[k], endpoint)
  }

  /** The action admits an attempt to this endpoint. */
  predicate Admits(p: CB.Policy, s: System, a: Action, endpoint: string) {
    && Enabled(s, a) && a.Ask? && s.requests[a.id].phase.endpoint == endpoint
    && CB.Allowed(p, CB.EntryOf(s.entries, endpoint), s.now).1
  }

  lemma {:induction false} ProbingStep(p: CB.Policy, s: System, a: Action, endpoint: string)
    requires Probing(s, endpoint) && !ReportsOn(s, a, endpoint)
    ensures Probing(Step(p, s, a), endpoint) && !Admits(p, s, a, endpoint)
  {
    hide Chosen, Asked, Heard, Success;
  }

  /** Once a probe is admitted, no other attempt to the endpoint is admitted until one of them reports. */
  lemma {:induction false} ProbeIsAlone(p: CB.Policy, s: System, actions: seq<Action>, endpoint: string)
    requires Probing(s, endpoint) && Unreported(p, s, actions, endpoint)
    ensures Probing(Run(p, s, actions), endpoint)
    ensures forall k :: 0 <= k < |actions| ==> !Admits(p, Run(p, s, actions[..k]), actions[k], endpoint)
  {
    hide Probing, ReportsOn, Admits, Step;
    if actions == [] {
    } else {
      var init, last := actions[..|actions| - 1], |actions| - 1;
      assert forall k :: 0 <= k < |init| ==> init[..k] == actions[..k];
      ProbeIsAlone(p, s, init, endpoint);
      ProbingStep(p, Run(p, s, init), actions[last], endpoint);
      forall k | 0 <= k < |actions| ensures !Admits(p, Run(p, s, actions[..k]), actions[k], endpoint) {
        if k < last {
          assert init[..k] == actions[..k] && init[k] == actions[k];
        }
      }
    }
  }

  /** The request has been to the endpoint and will not go there again. */
  predicate Past(r: Request, endpoint: string) {
    endpoint in r.excluded && r.phase != Asking(endpoint) && r.phase != Sending(endpoint)
  }

  /** An attempt that is asking or under way is excluded from further choice. */
  predicate Remembers(r: Request) {
    r.phase.Asking? || r.phase.Sending? ==> r.phase.endpoint in r.excluded
  }

  lemma {:induction false} RequestRemembers(p: CB.Policy, s: System, a: Action, id: nat, endpoint: string)
    requires id in s.requests && Remembers(s.requests[id])
    ensures id in Step(p, s, a).requests && Remembers(Step(p, s, a).requests[id])
    ensures Past(s.requests[id], endpoint) ==> Past(Step(p, s, a).requests[id], endpoint)
    ensures s.requests[id].phase == Sending(endpoint) ==>
      if ReportBy(s, a, endpoint, id) then Past(Step(p, s, a).requests[id], endpoint) else Step(p, s, a).requests[id] == s.requests[id]
  {
    hide CB.Allowed, CB.Reported, Success, LB.TotalWeight, LB.Chosen, LB.Slot, LB.ChosenAt;
  }

  lemma {:induction false} PastIsNotSending(r: Request, endpoint: string)
    ensures Past(r, endpoint) ==> r.phase != Sending(endpoint)
  {
  }

  lemma {:induction false} EveryoneRemembers(p: CB.Policy, start: int, actions: seq<Action>, id: nat)
    ensures var s := Run(p, Start(start), actions); id in s.requests ==> Remembers(s.requests[id])
  {
    hide LB.ValidService;
    if actions == [] {
    } else {
      var init, a := actions[..|actions| - 1], actions[|actions| - 1];
      EveryoneRemembers(p, start, init, id);
      var s := Run(p, Start(start), init);
      if id in s.requests {
        RequestRemembers(p, s, a, id, "");
      }
    }
  }

  /** An attempt still under way has not reported. */
  lemma {:induction false} StillUnderWay(p: CB.Policy, s: System, actions: seq<Action>, id: nat, endpoint: string)
    requires id in s.requests && Remembers(s.requests[id]) && s.requests[id].phase == Sending(endpoint)
    ensures var s' := Run(p, s, actions); id in s'.requests && Remembers(s'.requests[id])
    ensures var s' := Run(p, s, actions); s'.requests[id].phase == Sending(endpoint) || Past(s'.requests[id], endpoint)
    ensures Run(p, s, actions).requests[id].phase == Sending(endpoint) ==>
      forall k :: 0 <= k < |actions| ==> !ReportBy(Run(p, s, actions[..k]), actions[k], endpoint, id)
  {
    hide Step, ReportBy, Remembers, Past;
    if actions == [] {
    } else {
      var init, last := actions[..|actions| - 1], |actions| - 1;
      StillUnderWay(p, s, init, id, endpoint);
      RequestRemembers(p, Run(p, s, init), actions[last], id, endpoint);
      PastIsNotSending(Run(p, s, actions).requests[id], endpoint);
      if Run(p, s, actions).requests[id].phase == Sending(endpoint) {
        forall k | 0 <= k < |actions| ensures !ReportBy(Run(p, s, actions[..k]), actions[k], endpoint, id) {
          if k < last {
            assert init[..k] == actions[..k] && init[k] == actions[k];
          }
        }
      }
    }
  }

  /** If another attempt is admitted while a probe is still under way, then some other attempt reported in between. */
  lemma {:induction false} SecondProbeNeedsStaleReport(p: CB.Policy, start: int, before: seq<Action>, actions: seq<Action>, probe: nat, endpoint: string)
    requires actions != []
    requires var s := Run(p, Start(start), before);
      && Probing(s, endpoint) && probe in s.requests && s.requests[probe].phase == Sending(endpoint)
      && Admits(p, Run(p, s, actions[..|actions| - 1]), actions[|actions| - 1], endpoint)
      && probe in Run(p, s, actions).requests && Run(p, s, actions).requests[probe].phase == Sending(endpoint)
    ensures var s := Run(p, Start(start), before);
      exists k, other :: 0 <= k < |actions| && other != probe && ReportBy(Run(p, s, actions[..k]), actions[k], endpoint, other)
  {
    hide Probing, Admits, Step, Remembers, Run;
    var s := Run(p, Start(start), before);
    EveryoneRemembers(p, start, before, probe);
    StillUnderWay(p, s, actions, probe, endpoint);
    if Unreported(p, s, actions, endpoint) {
      ProbeIsAlone(p, s, actions, endpoint);
      assert false;
    }
    var k :| 0 <= k < |actions| && ReportsOn(Run(p, s, actions[..k]), actions[k], endpoint);
    assert ReportBy(Run(p, s, actions[..k]), actions[k], endpoint, actions[k].id);
  }

  /** No action of the run admits an attempt to the endpoint. */
  predicate Unadmitted(p: CB.Policy, s: System, actions: seq<Action>, endpoint: string) {
    forall k :: 0 <= k < |actions| ==> !Admits(p, Run(p, s, actions[..k]), actions[k], endpoint)
  }

  lemma {:induction false} QuietStep(p: CB.Policy, s: System, a: Action, endpoint: string)
    requires !Admits(p, s, a, endpoint)
    ensures !ReportsOn(s, a, endpoint) ==> CB.EntryOf(Step(p, s, a).entries, endpoint) == CB.EntryOf(s.entries, endpoint)
    ensures CB.EntryOf(s.entries, endpoint).state != CB.HalfOpen || ReportsOn(s, a, endpoint)
      ==> CB.EntryOf(Step(p, s, a).entries, endpoint).state != CB.HalfOpen
    ensures CB.EntryOf(s.entries, endpoint).state == CB.HalfOpen && CB.EntryOf(s.entries, endpoint).probeInFlight && ReportsOn(s, a, endpoint)
      ==> CB.EntryOf(Step(p, s, a).entries, endpoint) == CB.Reported(p, CB.EntryOf(s.entries, endpoint), Success(a.answer), s.now)
  {
    hide Chosen, Asked, Heard, Success;
  }

  lemma {:induction false} QuietInit(p: CB.Policy, s: System, actions: seq<Action>, endpoint: string)
    requires actions != []
    ensures var init, last := actions[..|actions| - 1], actions[|actions| - 1];
      && (Unreported(p, s, actions, endpoint) <==> Unreported(p, s, init, endpoint) && !ReportsOn(Run(p, s, init), last, endpoint))
      && (Unadmitted(p, s, actions, endpoint) <==> Unadmitted(p, s, init, endpoint) && !Admits(p, Run(p, s, init), last, endpoint))
  {
    hide ReportsOn, Admits, Step, Run;
    var init := actions[..|actions| - 1];
    assert forall k :: 0 <= k < |init| ==> init[..k] == actions[..k] && init[k] == actions[k];
    assert forall k :: 0 <= k < |actions| && k != |init| ==> init[..k] == actions[..k] && init[k] == actions[k];
  }

  /** While nobody else is admitted, a probed circuit stays half open exactly until a report about its endpoint arrives. */
  lemma {:induction false} HalfOpenExactly(p: CB.Policy, s: System, actions: seq<Action>, endpoint: string)
    requires Probing(s, endpoint) && Unadmitted(p, s, actions, endpoint)
    ensures CB.EntryOf(Run(p, s, actions).entries, endpoint).state == CB.HalfOpen <==> Unreported(p, s, actions, endpoint)
  {
    hide ReportsOn, Admits, Step, Unreported, Unadmitted;
    if actions == [] {
      NothingReported(p, s, endpoint);
    } else {
      var init, last := actions[..|actions| - 1], actions[|actions| - 1];
      QuietInit(p, s, actions, endpoint);
      HalfOpenExactly(p, s, init, endpoint);
      QuietStep(p, Run(p, s, init), last, endpoint);
    }
  }

  lemma {:induction false} NothingReported(p: CB.Policy, s: System, endpoint: string)
    ensures Unreported(p, s, [], endpoint) && Unadmitted(p, s, [], endpoint)
  {
  }

  /** Without a report and without an admission the entry stays as it is. */
  lemma {:induction false} QuietRun(p: CB.Policy, s: System, actions: seq<Action>, endpoint: string)
    requires Unreported(p, s, actions, endpoint) && Unadmitted(p, s, actions, endpoint)
    ensures CB.EntryOf(Run(p, s, actions).entries, endpoint) == CB.EntryOf(s.entries, endpoint)
  {
    hide ReportsOn, Admits, Step, Unreported, Unadmitted;
    if actions == [] {
    } else {
      var init, last := actions[..|actions| - 1], actions[|actions| - 1];
      QuietInit(p, s, actions, endpoint);
      QuietRun(p, s, init, endpoint);
      QuietStep(p, Run(p, s, init), last, endpoint);
    }
  }

  /** Without a report, an attempt under way stays under way. */
  lemma {:induction false} UnderWayKept(p: CB.Policy, s: System, actions: seq<Action>, id: nat, endpoint: string)
    requires Unreported(p, s, actions, endpoint)
    requires id in s.requests && Remembers(s.requests[id]) && s.requests[id].phase == Sending(endpoint)
    ensures id in Run(p, s, actions).requests && Run(p, s, actions).requests[id] == s.requests[id]
  {
    hide ReportsOn, Step, Unreported, Unadmitted, Remembers, Past;
    if actions == [] {
    } else {
      var init, last := actions[..|actions| - 1], actions[|actions| - 1];
      QuietInit(p, s, actions, endpoint);
      UnderWayKept(p, s, init, id, endpoint);
      RequestRemembers(p, Run(p, s, init), last, id, endpoint);
    }
  }

  /**
   Exactly when another attempt is let out beside a probe: not before some other
   attempt reports, then at once if it reported success, and otherwise as soon as
   the open duration has passed since that report.
   */
  lemma {:induction false} SecondProbeExactly(p: CB.Policy, start: int, before: seq<Action>, probe: nat, endpoint: string,
                                              waiting: seq<Action>, other: nat, answer: Answer, after: seq<Action>)
    requires var s := Run(p, Start(start), before);
      && Probing(s, endpoint) && probe in s.requests && s.requests[probe].phase == Sending(endpoint)
      && Unreported(p, s, waiting, endpoint)
      && ReportBy(Run(p, s, waiting), Hear(other, answer), endpoint, other) && other != probe
      && var s2 := Step(p, Run(p, s, waiting), Hear(other, answer));
         Unreported(p, s2, after, endpoint) && Unadmitted(p, s2, after, endpoint)
    ensures var s1 := Run(p, Run(p, Start(start), before), waiting);
      var s3 := Run(p, Step(p, s1, Hear(other, answer)), after);
      && !CB.Allowed(p, CB.EntryOf(s1.entries, endpoint), s1.now).1
      && probe in s3.requests && s3.requests[probe].phase == Sending(endpoint)
      && (CB.Allowed(p, CB.EntryOf(s3.entries, endpoint), s3.now).1 <==> Success(answer) || s3.now - s1.now >= p.openDuration)
  {
    hide Step, Run, Unreported, Unadmitted, Remembers, Past, Success;
    var s := Run(p, Start(start), before);
    var s1 := Run(p, s, waiting);
    var hear := Hear(other, answer);
    var s2 := Step(p, s1, hear);
    ProbeIsAlone(p, s, waiting, endpoint);
    EveryoneRemembers(p, start, before, probe);
    UnderWayKept(p, s, waiting, probe, endpoint);
    RequestRemembers(p, s1, hear, probe, endpoint);
    UnderWayKept(p, s2, after, probe, endpoint);
    QuietStep(p, s1, hear, endpoint);
    QuietRun(p, s2, after, endpoint);
  }

  // ----- Exactly when a circuit admits -----

  /** A probe is out: the last thing that happened to the circuit is an attempt admitted in spite of its failures. */
  function ProbeOut(p: CB.Policy, s: System, actions: seq<Action>, endpoint: string): bool {
    if actions == [] then false
    else
      var init, a := actions[..|actions| - 1], actions[|actions| - 1];
      var s' := Run(p, s, init);
      if ReportsOn(s', a, endpoint) then false
      else
        || (Admits(p, s', a, endpoint) && FailuresSince(Reports(p, s, init), endpoint) >= p.failureThreshold)
        || ProbeOut(p, s, init, endpoint)
  }

  /** Failures reported since the last success, not counting those that came while a probe was out, in 32 bits. */
  function Counted(p: CB.Policy, s: System, actions: seq<Action>, endpoint: string): nat {
    if actions == [] then 0
    else
      var init, a := actions[..|actions| - 1], actions[|actions| - 1];
      var s', before := Run(p, s, init), Counted(p, s, init, endpoint);
      if !ReportsOn(s', a, endpoint) then before
      else if ReportOf(s', a).success then 0
      else if ProbeOut(p, s, init, endpoint) then before
      else (before + 1) % TWO_32
  }

  /** The instant of the last failure that opened the circuit: one that came while a probe was out, or that brought the count to the threshold or beyond. */
  function OpenedAt(p: CB.Policy, s: System, actions: seq<Action>, endpoint: string): Option<int> {
    if actions == [] then None
    else
      var init, a := actions[..|actions| - 1], actions[|actions| - 1];
      var s' := Run(p, s, init);
      if ReportsOn(s', a, endpoint) && !ReportOf(s', a).success
         && (ProbeOut(p, s, init, endpoint) || (Counted(p, s, init, endpoint) + 1) % TWO_32 >= p.failureThreshold)
      then Some(s'.now)
      else OpenedAt(p, s, init, endpoint)
  }

  /** The entry of a circuit is what the run made of it. */
  predicate EntryTrue(p: CB.Policy, entry: CB.Entry, failures: nat, probe: bool, counted: nat, opening: Option<int>) {
    && (entry.state == CB.Closed <==> failures < p.failureThreshold)
    && (entry.state == CB.HalfOpen <==> probe) && entry.probeInFlight == probe
    && entry.failures == counted
    && (entry.state == CB.Closed ==> counted == failures)
    && (entry.state != CB.Closed ==> opening == Some(entry.openedAt))
  }

  /** How one action moves what the run says about a circuit. */
  lemma {:induction false} EntryStep(p: CB.Policy, s: System, a: Action, endpoint: string, failures: nat, probe: bool, counted: nat, opening: Option<int>)
    requires CB.ValidPolicy(p) && EntryTrue(p, CB.EntryOf(s.entries, endpoint), failures, probe, counted, opening)
    ensures var entry := CB.EntryOf(Step(p, s, a).entries, endpoint);
      if ReportsOn(s, a, endpoint) then
        if ReportOf(s, a).success then EntryTrue(p, entry, 0, false, 0, opening)
        else
          EntryTrue(p, entry, failures + 1, false, if probe then counted else (counted + 1) % TWO_32,
                    if probe || (counted + 1) % TWO_32 >= p.failureThreshold then Some(s.now) else opening)
      else EntryTrue(p, entry, failures, probe || (Admits(p, s, a, endpoint) && failures >= p.failureThreshold), counted, opening)
  {
    hide Chosen, Asked, Heard;
    if ReportsOn(s, a, endpoint) {
      CountUp(counted, failures, p.failureThreshold);
    }
  }

  lemma {:induction false} CountUp(counted: nat, failures: nat, threshold: nat)
    requires threshold < TWO_32
    ensures counted == failures < threshold ==> (counted + 1) % TWO_32 == failures + 1
  {
  }

  lemma {:induction false} EntryIsTrue(p: CB.Policy, start: int, actions: seq<Action>, endpoint: string)
    requires CB.ValidPolicy(p)
    ensures EntryTrue(p, CB.EntryOf(Run(p, Start(start), actions).entries, endpoint),
                      FailuresSince(Reports(p, Start(start), actions), endpoint), ProbeOut(p, Start(start), actions, endpoint),
                      Counted(p, Start(start), actions, endpoint), OpenedAt(p, Start(start), actions, endpoint))
  {
    hide Step, EntryTrue, ReportsOn, Admits, FailuresSince;
    var s0 := Start(start);
    if actions == [] {
      FreshEntry(p, start, endpoint);
    } else {
      var init, a := actions[..|actions| - 1], actions[|actions| - 1];
      EntryIsTrue(p, start, init, endpoint);
      EntryStep(p, Run(p, s0, init), a, endpoint, FailuresSince(Reports(p, s0, init), endpoint), ProbeOut(p, s0, init, endpoint),
                Counted(p, s0, init, endpoint), OpenedAt(p, s0, init, endpoint));
      FailuresNext(p, s0, actions, endpoint);
    }
  }

  lemma {:induction false} FreshEntry(p: CB.Policy, start: int, endpoint: string)
    requires CB.ValidPolicy(p)
    ensures EntryTrue(p, CB.EntryOf(Start(start).entries, endpoint), FailuresSince([], endpoint), false, 0, None)
  {
  }

  /** What the last action adds to the failures reported. */
  lemma {:induction false} FailuresNext(p: CB.Policy, s: System, actions: seq<Action>, endpoint: string)
    requires actions != []
    ensures var init, a := actions[..|actions| - 1], actions[|actions| - 1];
      var s' := Run(p, s, init);
      && FailuresSince(Reports(p, s, actions), endpoint)
         == (if !ReportsOn(s', a, endpoint) then FailuresSince(Reports(p, s, init), endpoint)
             else if ReportOf(s', a).success then 0 else FailuresSince(Reports(p, s, init), endpoint) + 1)
      && LastFailure(Reports(p, s, actions), endpoint)
         == (if ReportsOn(s', a, endpoint) && !ReportOf(s', a).success then Some(s'.now) else LastFailure(Reports(p, s, init), endpoint))
  {
    hide Step, FailuresSince, LastFailure;
    var init, a := actions[..|actions| - 1], actions[|actions| - 1];
    var s', log := Run(p, s, init), Reports(p, s, init);
    if Enabled(s', a) && a.Hear? {
      LogSnoc(log, ReportOf(s', a), endpoint);
    } else {
      assert Reports(p, s, actions) == log;
    }
  }

  /**
   Along every interleaving, an attempt is admitted if and only if fewer failures
   than the threshold were reported since the last success, or no probe is out and
   the open duration has passed since the failure that opened the circuit.
   */
  lemma {:induction false} AdmissionExactly(p: CB.Policy, start: int, actions: seq<Action>, endpoint: string)
    requires CB.ValidPolicy(p)
    ensures var s := Run(p, Start(start), actions);
      var tripped := FailuresSince(Reports(p, Start(start), actions), endpoint) >= p.failureThreshold;
      var opening := OpenedAt(p, Start(start), actions, endpoint);
      && (tripped ==> opening.Some?)
      && (CB.Allowed(p, CB.EntryOf(s.entries, endpoint), s.now).1
          <==> !tripped || (!ProbeOut(p, Start(start), actions, endpoint) && s.now - opening.value >= p.openDuration))
  {
    hide Run, Reports, OpenedAt, ProbeOut, Counted, FailuresSince;
    EntryIsTrue(p, start, actions, endpoint);
  }

  /** Unless 2^32 failures came in a row, the failure that opened a circuit is the last one. */
  lemma {:induction false} OpenedByLastFailure(p: CB.Policy, start: int, actions: seq<Action>, endpoint: string)
    requires CB.ValidPolicy(p)
    ensures var failures := FailuresSince(Reports(p, Start(start), actions), endpoint);
      failures < TWO_32 ==>
        && Counted(p, Start(start), actions, endpoint) <= failures
        && (failures < p.failureThreshold ==> Counted(p, Start(start), actions, endpoint) == failures && !ProbeOut(p, Start(start), actions, endpoint))
        && (failures >= p.failureThreshold ==>
            && Counted(p, Start(start), actions, endpoint) >= p.failureThreshold
            && OpenedAt(p, Start(start), actions, endpoint) == LastFailure(Reports(p, Start(start), actions), endpoint))
  {
    hide Step, ReportsOn, Admits, FailuresSince, LastFailure, Reports;
    if actions == [] {
      NoReports(p, Start(start), endpoint);
    } else {
      var init := actions[..|actions| - 1];
      OpenedByLastFailure(p, start, init, endpoint);
      FailuresNext(p, Start(start), actions, endpoint);
      SmallCount(Counted(p, Start(start), init, endpoint));
    }
  }

  lemma {:induction false} NoReports(p: CB.Policy, s: System, endpoint: string)
    ensures Reports(p, s, []) == [] && FailuresSince([], endpoint) == 0
  {
  }

  lemma {:induction false} SmallCount(counted: nat)
    ensures counted + 1 < TWO_32 ==> (counted + 1) % TWO_32 == counted + 1
  {
  }

  // A run in which that happens: one upstream, a threshold of one failure.

  const SOLE := [LB.Endpoint("a", 1)]
  const STRICT := CB.Policy(1, 1)

  function Attempt(id: nat): seq<Action> {
    [Begin(id, Get, "s", SOLE), Choose(id), Ask(id)]
  }

  lemma {:induction false} RunAppend(p: CB.Policy, s: System, xs: seq<Action>, ys: seq<Action>)
    ensures Run(p, s, xs + ys) == Run(p, Run(p, s, xs), ys)
    decreases |ys|
  {
    hide Step;
    if ys == [] {
      assert xs + ys == xs;
    } else {
      assert (xs + ys)[..|xs + ys| - 1] == xs + ys[..|ys| - 1];
      RunAppend(p, s, xs, ys[..|ys| - 1]);
    }
  }

  /** An attempt begins and picks the only endpoint. */
  lemma {:induction false} AttemptPicks(p: CB.Policy, s: System, id: nat)
    requires id !in s.requests
    ensures var s' := Step(p, Step(p, s, Begin(id, Get, "s", SOLE)), Choose(id));
      && s'.now == s.now && s'.entries == s.entries && s'.requests.Keys == s.requests.Keys + {id} && s'.requests[id].phase == Asking("a")
      && (forall other <- s.requests :: s'.requests[other] == s.requests[other])
  {
    hide LB.Slot, LB.Chosen;
    assert LB.TotalWeight(SOLE, []) == 1 by {
      assert SOLE[..0] == [];
    }
  }

  /** What one attempt does when the circuit admits it. */
  lemma {:induction false} Attempted(p: CB.Policy, s: System, id: nat)
    requires id !in s.requests && CB.Allowed(p, CB.EntryOf(s.entries, "a"), s.now).1
    ensures var s' := Run(p, s, Attempt(id));
      && s'.now == s.now && s'.entries == s.entries["a" := CB.Allowed(p, CB.EntryOf(s.entries, "a"), s.now).0]
      && s'.requests.Keys == s.requests.Keys + {id} && s'.requests[id].phase == Sending("a")
      && (forall other <- s.requests :: s'.requests[other] == s.requests[other])
  {
    hide Run, Chosen, CB.Allowed, LB.ValidService;
    AttemptPicks(p, s, id);
    RunThree(p, s, Begin(id, Get, "s", SOLE), Choose(id), Ask(id));
  }

  lemma {:induction false} RunThree(p: CB.Policy, s: System, a: Action, b: Action, c: Action)
    ensures Run(p, s, [a, b, c]) == Step(p, Step(p, Step(p, s, a), b), c)
  {
    hide Step;
    RunOne(p, s, a);
    RunSnoc(p, s, [a], b);
    RunSnoc(p, s, [a, b], c);
    assert [a] + [b] == [a, b] && [a, b] + [c] == [a, b, c];
  }

  lemma {:induction false} RunOne(p: CB.Policy, s: System, a: Action)
    ensures Run(p, s, [a]) == Step(p, s, a)
  {
    hide Step;
    assert [a][..0] == [];
  }

  /** An attempt fails, and the open interval passes. */
  function Failing(id: nat): seq<Action> {
    [Hear(id, Unreachable(false)), Advance(1)]
  }

  lemma {:induction false} AttemptFailed(s: System, id: nat)
    requires id in s.requests && s.requests[id].phase == Sending("a")
    ensures var s' := Run(STRICT, s, Failing(id));
      && s'.now == s.now + 1
      && CB.EntryOf(s'.entries, "a") == CB.Reported(STRICT, CB.EntryOf(s.entries, "a"), false, s.now)
      && s'.requests.Keys == s.requests.Keys
      && (forall other <- s.requests :: other != id ==> s'.requests[other] == s.requests[other])
  {
    hide CB.Reported;
    var hear := Hear(id, Unreachable(false));
    RunOne(STRICT, s, hear);
    RunSnoc(STRICT, s, [hear], Advance(1));
    assert [hear] + [Advance(1)] == Failing(id);
  }

  /** Two attempts while the circuit is closed; one fails, and a third attempt is the probe. */
  function FirstProbe(): seq<Action> {
    Attempt(1) + Attempt(2) + Failing(1) + Attempt(3)
  }

  /** The other early attempt fails late, and a fourth attempt is a probe too. */
  function SecondProbe(): seq<Action> {
    Failing(2) + Attempt(4)
  }

  /** After the first failure the circuit is open; after the interval it takes the third attempt as its probe. */
  lemma {:induction false} FirstProbeUnderWay()
    ensures var s := Run(STRICT, Start(0), FirstProbe());
      && Probing(s, "a") && s.requests.Keys == {1, 2, 3} && s.requests[2].phase == Sending("a") && s.requests[3].phase == Sending("a")
  {
    hide Run, Step, Attempt, Failing;
    var s0 := Start(0);
    Attempted(STRICT, s0, 1);
    var s1 := Run(STRICT, s0, Attempt(1));
    Attempted(STRICT, s1, 2);
    var s2 := Run(STRICT, s1, Attempt(2));
    AttemptFailed(s2, 1);
    Attempted(STRICT, Run(STRICT, s2, Failing(1)), 3);
    RunAppend(STRICT, s0, Attempt(1), Attempt(2));
    RunAppend(STRICT, s0, Attempt(1) + Attempt(2), Failing(1));
    RunAppend(STRICT, s0, Attempt(1) + Attempt(2) + Failing(1), Attempt(3));
  }

  /** Two probes under way at once. */
  lemma {:induction false} TwoProbesTogether()
    ensures var s := Run(STRICT, Start(0), FirstProbe());
      var s' := Run(STRICT, s, SecondProbe());
      && Probing(s, "a") && 3 in s.requests && s.requests[3].phase == Sending("a") && 4 !in s.requests
      && Probing(s', "a") && 3 in s'.requests && s'.requests[3].phase == Sending("a")
      && 4 in s'.requests && s'.requests[4].phase == Sending("a")
  {
    hide Run, Step, Attempt, Failing, FirstProbe;
    FirstProbeUnderWay();
    var s := Run(STRICT, Start(0), FirstProbe());
    AttemptFailed(s, 2);
    Attempted(STRICT, Run(STRICT, s, Failing(2)), 4);
    RunAppend(STRICT, s, Failing(2), Attempt(4));
  }

  // ----- The loop of one request -----

  ghost predicate Distinct(ids: seq<string>) {
    forall i, j :: 0 <= i < j < |ids| ==> ids[i] != ids[j]
  }

  function Ids(endpoints: seq<LB.Endpoint>): seq<string> {
    seq(|endpoints|, i requires 0 <= i < |endpoints| => endpoints[i].id)
  }

  /** What holds of a request at every moment of its loop. */
  ghost predicate RequestOk(r: Request) {
    && LB.ValidService(r.endpoints)
    && Distinct(r.excluded) && (forall id <- r.excluded :: id in Ids(r.endpoints))
    && Distinct(r.sentTo) && (forall id <- r.sentTo :: id in r.excluded)
    && |r.sentTo| <= Attempts(r.method_, r.endpoints)
    && (r.phase.Asking? ==>
      && r.excluded != [] && r.phase.endpoint == r.excluded[|r.excluded| - 1] && r.phase.endpoint !in r.sentTo
      && |r.sentTo| < Attempts(r.method_, r.endpoints))
    && (r.phase.Sending? ==> r.sentTo != [])
    && (forall id <- r.excluded :: id in r.sentTo || id in r.refused || r.phase == Asking(id))
    && (r.phase.Done? && r.sentTo == [] ==> forall id <- Ids(r.endpoints) :: id in r.refused)
  }

  ghost function Names(ids: seq<string>): set<string> {
    set id | id in ids
  }

  /** Distinct names drawn from a list are no more than the list; when they are as many, they are all of it. */
  lemma {:induction false} PickedAll(picked: seq<string>, names: seq<string>)
    requires Distinct(picked) && (forall id <- picked :: id in names) && Distinct(names)
    ensures |picked| <= |names|
    ensures |picked| == |names| ==> forall id <- names :: id in picked
  {
    var a, b := Names(picked), Names(names);
    DistinctSize(picked);
    DistinctSize(names);
    assert a <= b;
    SubsetSize(a, b);
    if |picked| == |names| {
      forall id | id in names ensures id in picked {
        assert id in b;
      }
    }
  }

  lemma {:induction false} SubsetSize(a: set<string>, b: set<string>)
    requires a <= b
    ensures |a| <= |b| && (|a| == |b| ==> a == b)
  {
    assert |b - a| + |a| == |b| by {
      assert b == (b - a) + a;
    }
    if |a| == |b| {
      assert b - a == {};
    }
  }

  lemma {:induction false} DistinctSize(ids: seq<string>)
    requires Distinct(ids)
    ensures |Names(ids)| == |ids|
    decreases |ids|
  {
    if ids == [] {
    } else {
      var n := |ids| - 1;
      DistinctSize(ids[..n]);
      assert Names(ids) == Names(ids[..n]) + {ids[n]};
      assert ids[n] !in ids[..n];
    }
  }

  /** While an endpoint is left, the balancer finds one: its failure exits are never taken. */
  lemma {:induction false} BalancerSucceeds(r: Request)
    requires RequestOk(r) && |r.excluded| < |r.endpoints|
    ensures LB.TotalWeight(r.endpoints, r.excluded) > 0
  {
    var names := Ids(r.endpoints);
    if forall id <- names :: id in r.excluded {
      PickedAll(names, r.excluded);
    }
    assert exists i :: 0 <= i < |names| && names[i] !in r.excluded;
    var i :| 0 <= i < |r.endpoints| && r.endpoints[i].id !in r.excluded;
    LB.WeightAvailable(r.endpoints, r.excluded, i);
  }

  lemma {:induction false} ChosenOk(r: Request, sequence: nat)
    requires RequestOk(r) && r.phase.Looping?
    ensures RequestOk(Chosen(r, sequence))
    ensures Chosen(r, sequence).phase.Done? <==> |r.sentTo| == Attempts(r.method_, r.endpoints) || |r.excluded| == |r.endpoints|
  {
    var names := Ids(r.endpoints);
    PickedAll(r.excluded, names);
    if |r.excluded| < |r.endpoints| {
      BalancerSucceeds(r);
      var i := LB.ChosenAt(r.endpoints, r.excluded, sequence);
      assert names[i] == r.endpoints[i].id;
    }
  }

  /** How many actions of its own a request may still take, at most. */
  function Rank(r: Request): nat
    requires |r.excluded| <= |r.endpoints|
  {
    match r.phase
    case Done(_) => 0
    case Looping => 3 * (|r.endpoints| - |r.excluded|) + 1
    case Asking(_) => 3 * (|r.endpoints| - |r.excluded|) + 3
    case Sending(_) => 3 * (|r.endpoints| - |r.excluded|) + 2
  }

  lemma {:induction false} RankDefined(r: Request)
    requires RequestOk(r)
    ensures |r.excluded| <= |r.endpoints|
  {
    PickedAll(r.excluded, Ids(r.endpoints));
  }

  lemma {:induction false} AskedOk(r: Request, admitted: bool)
    requires RequestOk(r) && r.phase.Asking?
    ensures RequestOk(Asked(r, admitted))
  {
    hide LB.ValidService, Attempts;
  }

  lemma {:induction false} HeardOk(r: Request, answer: Answer)
    requires RequestOk(r) && r.phase.Sending?
    ensures RequestOk(Heard(r, answer))
  {
    hide LB.ValidService, Attempts;
  }

  /** A `Choose`, `Ask` or `Hear` of this request that takes effect. */
  predicate Moves(s: System, a: Action, id: nat) {
    Enabled(s, a) && (a.Choose? || a.Ask? || a.Hear?) && a.id == id
  }

  /** Every action keeps a request's invariant, and every action of its own brings it closer to its end. */
  lemma {:induction false} RequestAdvances(p: CB.Policy, s: System, a: Action, id: nat)
    requires id in s.requests && RequestOk(s.requests[id])
    ensures id in Step(p, s, a).requests
    ensures var r, r' := s.requests[id], Step(p, s, a).requests[id];
            && RequestOk(r') && r'.endpoints == r.endpoints && r.sentTo <= r'.sentTo
            && |r.excluded| <= |r.endpoints| && |r'.excluded| <= |r'.endpoints|
            && (if Moves(s, a, id) then Rank(r') < Rank(r) else r' == r)
  {
    hide RequestOk;
    var r := s.requests[id];
    RankDefined(r);
    if Moves(s, a, id) {
      match a
      case Choose(_) =>
        ChosenOk(r, Sequence(s, r.service));
        RankDefined(Chosen(r, Sequence(s, r.service)));
      case Ask(_) =>
        AskedOk(r, CB.Allowed(p, CB.EntryOf(s.entries, r.phase.endpoint), s.now).1);
      case Hear(_, answer) =>
        HeardOk(r, answer);
    }
  }

  /** How many actions of a request took effect along a run. */
  function MoveCount(p: CB.Policy, s: System, actions: seq<Action>, id: nat): nat {
    if actions == [] then 0
    else
      var init, a := actions[..|actions| - 1], actions[|actions| - 1];
      MoveCount(p, s, init, id) + (if Moves(Run(p, s, init), a, id) then 1 else 0)
  }

  lemma {:induction false} FreshRequestOk(r: Request)
    requires LB.ValidService(r.endpoints)
    requires r.excluded == [] && r.sentTo == [] && r.refused == [] && r.phase.Looping?
    ensures RequestOk(r)
  {
  }

  /** The endpoints whose circuits a request asked along a run, with this answer, in order. */
  function Asks(p: CB.Policy, s: System, actions: seq<Action>, id: nat, admitted: bool): seq<string> {
    if actions == [] then []
    else
      var init, a := actions[..|actions| - 1], actions[|actions| - 1];
      var s' := Run(p, s, init);
      Asks(p, s, init, id, admitted)
      + (if Enabled(s', a) && a == Ask(id) && Admits(p, s', a, s'.requests[id].phase.endpoint) == admitted
         then [s'.requests[id].phase.endpoint] else [])
  }

  lemma {:induction false} BookkeepingStep(p: CB.Policy, s: System, a: Action, id: nat)
    requires id in s.requests
    ensures var r, r' := s.requests[id], Step(p, s, a).requests[id];
      if Enabled(s, a) && a == Ask(id) then
        var admitted := Admits(p, s, a, r.phase.endpoint);
        && r'.sentTo == (if admitted then r.sentTo + [r.phase.endpoint] else r.sentTo)
        && r'.refused == (if admitted then r.refused else r.refused + [r.phase.endpoint])
      else r'.sentTo == r.sentTo && r'.refused == r.refused
  {
    hide CB.Allowed, CB.Reported, Success, LB.TotalWeight, LB.Chosen, LB.Slot, LB.ChosenAt, LB.ValidService;
  }

  /** A request's own lists are what happened: the admissions and the refusals of its asks, in order. */
  lemma {:induction false} BookkeepingIsTrue(p: CB.Policy, start: int, actions: seq<Action>, id: nat)
    ensures var s := Run(p, Start(start), actions);
      var sends, refusals := Asks(p, Start(start), actions, id, true), Asks(p, Start(start), actions, id, false);
      if id in s.requests then s.requests[id].sentTo == sends && s.requests[id].refused == refusals else sends == [] && refusals == []
  {
    hide Admits, Chosen, Asked, Heard, Success, LB.ValidService;
    if actions == [] {
    } else {
      var init, a := actions[..|actions| - 1], actions[|actions| - 1];
      BookkeepingIsTrue(p, start, init, id);
      var s := Run(p, Start(start), init);
      if id in s.requests {
        BookkeepingStep(p, s, a, id);
      }
    }
  }

  /** The last answer a request heard along a run. */
  function LastAnswer(p: CB.Policy, s: System, actions: seq<Action>, id: nat): Option<Answer> {
    if actions == [] then None
    else
      var init, a := actions[..|actions| - 1], actions[|actions| - 1];
      if Enabled(Run(p, s, init), a) && a.Hear? && a.id == id then Some(a.answer) else LastAnswer(p, s, init, id)
  }

  /** What an upstream's answer, or the lack of one, means to the caller. */
  function Verdict(answer: Option<Answer>): Outcome {
    match answer
    case Some(Response(status)) => if 100 <= status <= 599 then Proxied(status) else Unavailable
    case Some(Unreachable(timeout)) => if timeout then TimedOut else Unavailable
    case None => Unavailable
  }

  /** As many sends as the method allows. */
  function Limit(method_: HttpMethod, endpoints: nat): nat {
    if method_.Get? || method_.Head? || method_.Options? then (if endpoints < 2 then endpoints else 2) else 1
  }

  /** A request knows the last answer it heard, has ended if that was a response, and otherwise ends only when it may not go on. */
  predicate AnswerOk(r: Request, answer: Option<Answer>) {
    && (answer.Some? && answer.value.Response? ==> r.phase.Done?)
    && (!r.phase.Done? ==> r.timedOut == (answer == Some(Unreachable(true))))
    && (r.phase.Done? ==> r.phase.outcome == Verdict(answer))
    && (r.phase.Done? && !(answer.Some? && answer.value.Response?) ==>
        |r.sentTo| == Limit(r.method_, |r.endpoints|) || |r.excluded| == |r.endpoints|)
  }

  lemma {:induction false} AnswerChosen(r: Request, sequence: nat, answer: Option<Answer>)
    requires RequestOk(r) && r.phase.Looping? && AnswerOk(r, answer)
    ensures AnswerOk(Chosen(r, sequence), answer)
  {
    hide RequestOk, LB.TotalWeight, LB.ChosenAt;
    ChosenOk(r, sequence);
    LimitIs(r.method_, r.endpoints);
  }

  lemma {:induction false} LimitIs(method_: HttpMethod, endpoints: seq<LB.Endpoint>)
    ensures Limit(method_, |endpoints|) == Attempts(method_, endpoints)
  {
  }

  lemma {:induction false} AnswerAsked(r: Request, admitted: bool, answer: Option<Answer>)
    requires r.phase.Asking? && AnswerOk(r, answer)
    ensures AnswerOk(Asked(r, admitted), answer)
  {
    hide Limit, Verdict;
  }

  lemma {:induction false} AnswerHeard(r: Request, answer: Answer)
    ensures AnswerOk(Heard(r, answer), Some(answer))
  {
    hide Limit;
  }

  lemma {:induction false} AnswerStep(p: CB.Policy, s: System, a: Action, id: nat, answer: Option<Answer>)
    requires id in s.requests && RequestOk(s.requests[id]) && AnswerOk(s.requests[id], answer)
    ensures id in Step(p, s, a).requests
    ensures AnswerOk(Step(p, s, a).requests[id], if Enabled(s, a) && a.Hear? && a.id == id then Some(a.answer) else answer)
  {
    hide RequestOk, AnswerOk, Chosen, Asked, Heard, CB.Allowed, CB.Reported, Success, LB.ValidService;
    var r := s.requests[id];
    if Moves(s, a, id) {
      match a
      case Choose(_) => AnswerChosen(r, Sequence(s, r.service), answer);
      case Ask(_) => AnswerAsked(r, CB.Allowed(p, CB.EntryOf(s.entries, r.phase.endpoint), s.now).1, answer);
      case Hear(_, heard) => AnswerHeard(r, heard);
    }
  }

  lemma {:induction false} AnswersAreTrue(p: CB.Policy, start: int, actions: seq<Action>, id: nat)
    ensures var s := Run(p, Start(start), actions);
      if id in s.requests then AnswerOk(s.requests[id], LastAnswer(p, Start(start), actions, id))
      else LastAnswer(p, Start(start), actions, id) == None
  {
    hide RequestOk, AnswerOk, Chosen, Asked, Heard, Success, LB.ValidService;
    if actions == [] {
    } else {
      var init, a := actions[..|actions| - 1], actions[|actions| - 1];
      AnswersAreTrue(p, start, init, id);
      RequestsOk(p, start, init, id);
      var s := Run(p, Start(start), init);
      if id in s.requests {
        AnswerStep(p, s, a, id, LastAnswer(p, Start(start), init, id));
      } else if id in Step(p, s, a).requests {
        FreshAnswerOk(Step(p, s, a).requests[id]);
      }
    }
  }

  lemma {:induction false} FreshAnswerOk(r: Request)
    requires !r.timedOut && r.phase.Looping?
    ensures AnswerOk(r, None)
  {
  }

  /**
   What a request ends with is what its last answer means: the upstream's own status
   if that is a status, a timeout if it timed out, and unavailability otherwise. It
   ends exactly with a response, or when it was sent as often as its method allows,
   or when every endpoint was asked.
   */
  lemma {:induction false} OutcomeExactly(p: CB.Policy, start: int, actions: seq<Action>, id: nat)
    requires id in Run(p, Start(start), actions).requests
    ensures var r, answer := Run(p, Start(start), actions).requests[id], LastAnswer(p, Start(start), actions, id);
      var sends, refusals := Asks(p, Start(start), actions, id, true), Asks(p, Start(start), actions, id, false);
      && (r.phase.Done? ==> r.phase.outcome == Verdict(answer))
      && (answer.Some? && answer.value.Response? ==> r.phase.Done?)
      && (r.phase.Done? && !(answer.Some? && answer.value.Response?) ==>
          |sends| == Limit(r.method_, |r.endpoints|) || forall endpoint <- Ids(r.endpoints) :: endpoint in sends || endpoint in refusals)
  {
    hide Run, Step, Asks, LastAnswer, LB.ValidService, Limit, Verdict, Attempts;
    AnswersAreTrue(p, start, actions, id);
    BookkeepingIsTrue(p, start, actions, id);
    RequestsOk(p, start, actions, id);
    var r := Run(p, Start(start), actions).requests[id];
    if |r.excluded| == |r.endpoints| {
      AllExcluded(r);
    }
  }

  lemma {:induction false} AllExcluded(r: Request)
    requires RequestOk(r) && |r.excluded| == |r.endpoints|
    ensures forall endpoint <- Ids(r.endpoints) :: endpoint in r.excluded
  {
    assert Distinct(Ids(r.endpoints));
    PickedAll(r.excluded, Ids(r.endpoints));
  }

  /**
   Along every interleaving, a request never goes to one endpoint twice; goes
   out at most once, or twice for a retryable method; ends without being sent
   only after every endpoint's circuit refused it; and ends: its actions number
   at most three an endpoint and one more.
   */
  lemma {:induction false} DispatchGuarantees(p: CB.Policy, start: int, actions: seq<Action>, id: nat)
    ensures var s := Run(p, Start(start), actions);
            if id !in s.requests then MoveCount(p, Start(start), actions, id) == 0
            else
              var r := s.requests[id];
              && RequestOk(r) && |r.excluded| <= |r.endpoints|
              && MoveCount(p, Start(start), actions, id) + Rank(r) <= 3 * |r.endpoints| + 1
              && var sends, refusals := Asks(p, Start(start), actions, id, true), Asks(p, Start(start), actions, id, false);
                 && Distinct(sends) && |sends| <= Limit(r.method_, |r.endpoints|)
                 && (r.phase.Done? && sends == [] ==> forall endpoint <- Ids(r.endpoints) :: endpoint in refusals)
  {
    hide Asks, Run, Step, Ids, LB.ValidService, Rank;
    RequestsOk(p, start, actions, id);
    BookkeepingIsTrue(p, start, actions, id);
  }

  lemma {:induction false} RequestsOk(p: CB.Policy, start: int, actions: seq<Action>, id: nat)
    ensures var s := Run(p, Start(start), actions);
            if id !in s.requests then MoveCount(p, Start(start), actions, id) == 0
            else
              var r := s.requests[id];
              && RequestOk(r) && |r.excluded| <= |r.endpoints|
              && MoveCount(p, Start(start), actions, id) + Rank(r) <= 3 * |r.endpoints| + 1
  {
    hide RequestOk;
    if actions == [] {
    } else {
      var init, a := actions[..|actions| - 1], actions[|actions| - 1];
      RequestsOk(p, start, init, id);
      var s := Run(p, Start(start), init);
      if id in s.requests {
        RequestAdvances(p, s, a, id);
      } else if Enabled(s, a) && a.Begin? && a.id == id {
        FreshRequestOk(Step(p, s, a).requests[id]);
      }
    }
  }

  // ----- The loop as the gateway runs it -----

  lemma {:induction false} RunSnoc(p: CB.Policy, s: System, actions: seq<Action>, a: Action)
    ensures Run(p, s, actions + [a]) == Step(p, Run(p, s, actions), a)
  {
    assert (actions + [a])[..|actions|] == actions;
  }

  class Gateway {
    const breaker: CB.Breaker
    const balancer: LB.WeightedRoundRobin

    constructor (breaker: CB.Breaker, balancer: LB.WeightedRoundRobin)
      ensures this.breaker == breaker && this.balancer == balancer
    {
      this.breaker, this.balancer := breaker, balancer;
    }

    /** The shared objects and one request, as a state of the machine. */
    ghost predicate Mirrors(s: System, now: int, r: Request)
      reads breaker, balancer
    {
      && s.now == now && s.entries == breaker.entries && s.sequences == balancer.sequences
      && s.requests == map[0 := r] && RequestOk(r)
    }

    method Pick(ghost s: System, ghost r: Request, service: string, endpoints: seq<LB.Endpoint>, excluded: seq<string>, now: int)
      returns (endpoint: string, ghost s': System, ghost r': Request)
      requires balancer.Valid() && Mirrors(s, now, r) && r.phase.Looping?
      requires r.service == service && r.endpoints == endpoints && r.excluded == excluded
      requires |excluded| < |endpoints| && |r.sentTo| < Attempts(r.method_, endpoints)
      modifies balancer
      ensures balancer.Valid() && s' == Step(breaker.policy, s, Choose(0)) && Mirrors(s', now, r')
      ensures r' == r.(excluded := excluded + [endpoint], phase := Asking(endpoint))
    {
      hide RequestOk, LB.ChosenAt, LB.TotalWeight;
      BalancerSucceeds(r);
      ChosenOk(r, Sequence(s, service));
      var chosen := balancer.Choose(service, endpoints, excluded);
      endpoint := chosen.value.id;
      s' := Step(breaker.policy, s, Choose(0));
      r' := Chosen(r, Sequence(s, service));
    }

    method Knock(ghost s: System, ghost r: Request, endpoint: string, now: int)
      returns (admitted: bool, ghost s': System, ghost r': Request)
      requires Mirrors(s, now, r) && r.phase == Asking(endpoint)
      modifies breaker
      ensures s' == Step(breaker.policy, s, Ask(0)) && Mirrors(s', now, r') && r' == Asked(r, admitted)
    {
      hide RequestOk;
      AskedOk(r, true);
      AskedOk(r, false);
      admitted := breaker.Allow(endpoint, now);
      s', r' := Step(breaker.policy, s, Ask(0)), Asked(r, admitted);
    }

    method Tell(ghost s: System, ghost r: Request, endpoint: string, reply: Answer, now: int)
      returns (ghost s': System, ghost r': Request)
      requires Mirrors(s, now, r) && r.phase == Sending(endpoint)
      modifies breaker
      ensures s' == Step(breaker.policy, s, Hear(0, reply)) && Mirrors(s', now, r') && r' == Heard(r, reply)
    {
      hide RequestOk;
      HeardOk(r, reply);
      if reply.Response? && 100 <= reply.status < 500 {
        breaker.RecordSuccess(endpoint);
      } else {
        breaker.RecordFailure(endpoint, now);
      }
      s', r' := Step(breaker.policy, s, Hear(0, reply)), Heard(r, reply);
    }

    /** One turn of the loop up to the circuit's answer. */
    method Try(ghost s0: System, ghost actions: seq<Action>, ghost s: System, ghost r: Request,
               service: string, endpoints: seq<LB.Endpoint>, excluded: seq<string>, now: int)
      returns (endpoint: string, admitted: bool, ghost actions': seq<Action>, ghost s': System, ghost r': Request)
      requires balancer.Valid() && Mirrors(s, now, r) && r.phase.Looping? && s == Run(breaker.policy, s0, actions)
      requires r.service == service && r.endpoints == endpoints && r.excluded == excluded
      requires |excluded| < |endpoints| && |r.sentTo| < Attempts(r.method_, endpoints)
      modifies breaker, balancer
      ensures balancer.Valid() && Mirrors(s', now, r') && s' == Run(breaker.policy, s0, actions')
      ensures r' == Asked(r.(excluded := excluded + [endpoint], phase := Asking(endpoint)), admitted)
    {
      hide RequestOk, Run, Step, Attempts;
      RunSnoc(breaker.policy, s0, actions, Choose(0));
      endpoint, s', r' := Pick(s, r, service, endpoints, excluded, now);
      actions' := actions + [Choose(0)];
      RunSnoc(breaker.policy, s0, actions', Ask(0));
      admitted, s', r' := Knock(s', r', endpoint, now);
      actions' := actions' + [Ask(0)];
    }

    /** Waiting for the upstream, and reporting what it answered. */
    method Await(ghost s0: System, ghost actions: seq<Action>, ghost s: System, ghost r: Request,
                 endpoint: string, reply: Answer, took: nat, now: int)
      returns (now': int, ghost actions': seq<Action>, ghost s': System, ghost r': Request)
      requires Mirrors(s, now, r) && r.phase == Sending(endpoint) && s == Run(breaker.policy, s0, actions)
      modifies breaker
      ensures now' == now + took && Mirrors(s', now', r') && s' == Run(breaker.policy, s0, actions') && r' == Heard(r, reply)
    {
      hide RequestOk, Run, Step, Heard;
      now' := now + took;
      RunSnoc(breaker.policy, s0, actions, Advance(took));
      Waiting(breaker.policy, s, took);
      s', actions' := s.(now := now'), actions + [Advance(took)];
      RunSnoc(breaker.policy, s0, actions', Hear(0, reply));
      s', r' := Tell(s', r, endpoint, reply, now');
      actions' := actions' + [Hear(0, reply)];
    }

    /**
     The retry loop of one request with the shared objects to itself: a run of
     the machine above. `answer` and `delay` give the reply to the n-th send and
     how long it took.
     */
    method Forward(method_: HttpMethod, service: string, endpoints: seq<LB.Endpoint>, start: int,
                   answer: nat -> Answer, delay: nat -> nat)
      returns (outcome: Outcome, sentTo: seq<string>, ghost actions: seq<Action>)
      requires LB.ValidService(endpoints) && balancer.Valid()
      modifies breaker, balancer
      ensures balancer.Valid()
      ensures var s := Run(breaker.policy, System(start, old(breaker.entries), old(balancer.sequences), map[], []), actions);
              && s.entries == breaker.entries && s.sequences == balancer.sequences
              && s.requests.Keys == {0} && RequestOk(s.requests[0])
              && s.requests[0].endpoints == endpoints && s.requests[0].method_ == method_
              && s.requests[0].phase == Done(outcome) && s.requests[0].sentTo == sentTo
      ensures |sentTo| <= Limit(method_, |endpoints|)
      ensures outcome == Verdict(if sentTo == [] then None else Some(answer(|sentTo|)))
      ensures forall n :: 1 <= n < |sentTo| ==> answer(n).Unreachable?
    {
      hide RequestOk, Run, Step, LB.ValidService, Limit, Attempts;
      LimitIs(method_, endpoints);
      var excluded: seq<string> := [];
      var attempts := Attempts(method_, endpoints);
      var timedOut, now := false, start;
      sentTo := [];
      ghost var p, s0 := breaker.policy, System(start, breaker.entries, balancer.sequences, map[], []);
      ghost var r := Request(method_, service, endpoints, [], [], [], false, Looping);
      ghost var s := s0.(requests := map[0 := r]);
      actions := [Begin(0, method_, service, endpoints)];
      Beginning(p, s0, actions[0], s);
      FreshRequestOk(r);
      while |sentTo| < attempts && |excluded| < |endpoints|
        invariant balancer.Valid() && Mirrors(s, now, r) && s == Run(p, s0, actions)
        invariant r == Request(method_, service, endpoints, excluded, sentTo, r.refused, timedOut, Looping)
        invariant |sentTo| <= attempts && (sentTo == [] ==> !timedOut)
        invariant sentTo != [] ==> answer(|sentTo|) == Unreachable(timedOut)
        invariant forall n :: 1 <= n < |sentTo| ==> answer(n).Unreachable?
        decreases |endpoints| - |excluded|
      {
        var endpoint, admitted;
        endpoint, admitted, actions, s, r := Try(s0, actions, s, r, service, endpoints, excluded, now);
        excluded := excluded + [endpoint];
        if admitted {
          sentTo := sentTo + [endpoint];
          var reply := answer(|sentTo|);
          now, actions, s, r := Await(s0, actions, s, r, endpoint, reply, delay(|sentTo|), now);
          if reply.Response? {
            outcome := if 100 <= reply.status <= 599 then Proxied(reply.status) else Unavailable;
            return;
          }
          timedOut := reply.timeout;
        }
      }
      RunSnoc(p, s0, actions, Choose(0));
      Stopping(p, s, r);
      actions := actions + [Choose(0)];
      outcome := if timedOut then TimedOut else Unavailable;
    }
  }

  lemma {:induction false} Beginning(p: CB.Policy, s0: System, a: Action, s: System)
    requires a.Begin? && a.id !in s0.requests && LB.ValidService(a.endpoints)
    requires s == s0.(requests := s0.requests[a.id := Request(a.method_, a.service, a.endpoints, [], [], [], false, Looping)])
    ensures Run(p, s0, [a]) == s
  {
    RunSnoc(p, s0, [], a);
    assert [] + [a] == [a];
  }

  lemma {:induction false} Waiting(p: CB.Policy, s: System, milliseconds: nat)
    ensures Step(p, s, Advance(milliseconds)) == s.(now := s.now + milliseconds)
  {
  }

  lemma {:induction false} Stopping(p: CB.Policy, s: System, r: Request)
    requires s.requests == map[0 := r] && RequestOk(r) && r.phase.Looping?
    requires |r.sentTo| >= Attempts(r.method_, r.endpoints) || |r.excluded| >= |r.endpoints|
    ensures Step(p, s, Choose(0)) == s.(requests := map[0 := r.(phase := Done(Failure(r.timedOut)))])
    ensures RequestOk(r.(phase := Done(Failure(r.timedOut))))
  {
    hide RequestOk;
    ChosenOk(r, Sequence(s, r.service));
  }
}
