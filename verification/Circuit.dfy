/** The circuit breaker of one endpoint, as values: what each bookkeeping call makes of its state,
 *  and what holds over every sequence of such calls. */
module CircuitModel {
  import opened Wrappers

  datatype Strategy = Failover | Weighted | CostFirst | LatencyFirst

  datatype Cost = Cost(input: real, output: real)

  datatype Spec = Spec(name: string, priority: Option<real>, weight: Option<real>, cost: Option<Cost>, healthUrl: bool)

  datatype Policy = Policy(strategy: Strategy, maxRetries: int, failureThreshold: Option<int>, cooldownMs: Option<int>)

  datatype Circuit = Closed | Open | HalfOpen

  datatype Health = Health(ok: bool, ts: int)

  datatype Endpoint = Endpoint(
    spec: Spec, circuit: Circuit, consecutiveFailures: nat, openedAt: Option<int>, lastLatency: Option<int>,
    latencies: seq<int>, totalSuccess: nat, totalFailure: nat, lastHealth: Option<Health>)

  function New(spec: Spec): Endpoint {
    Endpoint(spec, Closed, 0, None, None, [], 0, 0, None)
  }

  function Cooldown(policy: Policy): int {
    if policy.cooldownMs.Some? then policy.cooldownMs.value else 0
  }

  /** An absent threshold is infinite. */
  predicate Reaches(policy: Policy, failures: nat) {
    policy.failureThreshold.Some? && failures >= policy.failureThreshold.value
  }

  function Available(ep: Endpoint, policy: Policy, now: int): (Endpoint, bool) {
    if ep.circuit != Open then (ep, true)
    else if ep.openedAt.Some? && now - ep.openedAt.value >= Cooldown(policy) then (ep.(circuit := HalfOpen), true)
    else (ep, false)
  }

  function Slide(latencies: seq<int>, latency: int): seq<int> {
    if |latencies| + 1 > 20 then (latencies + [latency])[1..] else latencies + [latency]
  }

  function Success(ep: Endpoint, latency: int): Endpoint {
    ep.(totalSuccess := ep.totalSuccess + 1, consecutiveFailures := 0, lastLatency := Some(latency),
        latencies := Slide(ep.latencies, latency), circuit := Closed)
  }

  /** `start` is when the failed attempt began. */
  function Failure(ep: Endpoint, policy: Policy, start: int): Endpoint {
    var counted := ep.(totalFailure := ep.totalFailure + 1, consecutiveFailures := ep.consecutiveFailures + 1);
    if ep.circuit == Closed && Reaches(policy, counted.consecutiveFailures)
    then counted.(circuit := Open, openedAt := Some(start))
    else counted
  }

  /** One endpoint's part of a health pass. */
  function Ping(ep: Endpoint, ok: bool, ts: int): Endpoint {
    if !ep.spec.healthUrl then ep
    else
      var seen := ep.(lastHealth := Some(Health(ok, ts)));
      if ok then (if ep.circuit == Closed then seen else seen.(circuit := HalfOpen))
      else if ep.circuit == Closed then seen.(consecutiveFailures := ep.consecutiveFailures + 1)
      else seen
  }

  datatype Event =
    | Probed(now: int)
    | Succeeded(latency: int)
    | Failed(start: int)
    | Pinged(ok: bool, ts: int)

  function Step(ep: Endpoint, policy: Policy, e: Event): Endpoint {
    match e
    case Probed(now) => Available(ep, policy, now).0
    case Succeeded(latency) => Success(ep, latency)
    case Failed(start) => Failure(ep, policy, start)
    case Pinged(ok, ts) => Ping(ep, ok, ts)
  }

  function Run(ep: Endpoint, policy: Policy, events: seq<Event>): Endpoint {
    if events == [] then ep
    else Step(Run(ep, policy, events[..|events| - 1]), policy, events[|events| - 1])
  }

  // ---- references: the same facts read off the history

  /** Latencies of all successes, in order. */
  function SuccessLatencies(events: seq<Event>): seq<int> {
    if events == [] then []
    else if events[|events| - 1].Succeeded? then
      SuccessLatencies(events[..|events| - 1]) + [events[|events| - 1].latency]
    else SuccessLatencies(events[..|events| - 1])
  }

  function LastTwenty(s: seq<int>): seq<int> {
    if |s| > 20 then s[|s| - 20..] else s
  }

  /** Failed calls since the last success. */
  function FailuresSinceSuccess(events: seq<Event>): nat {
    if events == [] || events[|events| - 1].Succeeded? then 0
    else FailuresSinceSuccess(events[..|events| - 1]) + if events[|events| - 1].Failed? then 1 else 0
  }

  /** What the failure counter counts since the last success: failed calls, and failed pings of an
   *  endpoint with a health URL that found its circuit closed. */
  function CountedSinceSuccess(spec: Spec, policy: Policy, events: seq<Event>): nat {
    if events == [] || events[|events| - 1].Succeeded? then 0
    else
      var before := events[..|events| - 1];
      CountedSinceSuccess(spec, policy, before) +
      match events[|events| - 1]
        case Failed(_) => 1
        case Pinged(ok, _) => if !ok && spec.healthUrl && Run(New(spec), policy, before).circuit == Closed then 1 else 0
        case _ => 0
  }

  predicate NoPings(events: seq<Event>) {
    forall i :: 0 <= i < |events| ==> !events[i].Pinged?
  }

  /** The latency window holds exactly the latest successes, oldest first. */
  lemma {:induction false} WindowIsLastTwenty(spec: Spec, policy: Policy, events: seq<Event>)
    ensures var ep := Run(New(spec), policy, events);
      ep.latencies == LastTwenty(SuccessLatencies(events)) && ep.totalSuccess == |SuccessLatencies(events)|
  {
    if events != [] {
      var n := |events| - 1;
      WindowIsLastTwenty(spec, policy, events[..n]);
      if events[n].Succeeded? { SlideKeepsTwenty(SuccessLatencies(events[..n]), events[n].latency); }
    }
  }

  /** All failed calls. */
  function FailedCalls(events: seq<Event>): nat {
    if events == [] then 0
    else FailedCalls(events[..|events| - 1]) + if events[|events| - 1].Failed? then 1 else 0
  }

  /** What the last health check said, and when. */
  function LastPing(events: seq<Event>): Option<Health> {
    if events == [] then None
    else
      match events[|events| - 1]
      case Pinged(ok, ts) => Some(Health(ok, ts))
      case _ => LastPing(events[..|events| - 1])
  }

  /** The counters and the last readings are those of the whole history; health checks leave a trace only
   *  on an endpoint with a health URL. */
  lemma {:induction false} TotalsOfHistory(spec: Spec, policy: Policy, events: seq<Event>)
    ensures var ep := Run(New(spec), policy, events); var latencies := SuccessLatencies(events);
      && ep.totalSuccess == |latencies| && ep.totalFailure == FailedCalls(events)
      && ep.lastLatency == (if latencies == [] then None else Some(latencies[|latencies| - 1]))
      && ep.lastHealth == (if spec.healthUrl then LastPing(events) else None)
  {
    if events != [] {
      var n := |events| - 1;
      TotalsOfHistory(spec, policy, events[..n]);
      HistoryOfEndpoint(spec, policy, events[..n]);
    }
  }

  lemma {:induction false} SlideKeepsTwenty(s: seq<int>, x: int)
    ensures Slide(LastTwenty(s), x) == LastTwenty(s + [x])
  {
  }

  /** An open circuit has an opening time, and the failure counter counts exactly the failed calls and
   *  the failed pings on a closed circuit since the last success; without a health URL or without
   *  health passes these are the failed calls. */
  lemma {:induction false} HistoryOfEndpoint(spec: Spec, policy: Policy, events: seq<Event>)
    ensures var ep := Run(New(spec), policy, events);
      && ep.spec == spec
      && (ep.circuit == Open ==> ep.openedAt.Some?)
      && ep.consecutiveFailures == CountedSinceSuccess(spec, policy, events)
      && (NoPings(events) || !spec.healthUrl ==> ep.consecutiveFailures == FailuresSinceSuccess(events))
  {
    if events != [] { HistoryOfEndpoint(spec, policy, events[..|events| - 1]); }
  }

  /** The counter of a closed circuit is below the threshold. */
  ghost predicate BelowThreshold(ep: Endpoint, policy: Policy) {
    ep.circuit == Closed ==> !Reaches(policy, ep.consecutiveFailures)
  }

  /** Without health passes, or for an endpoint without a health URL, and with a threshold of at least
   *  one or none, a closed circuit is below its threshold. */
  lemma {:induction false} ClosedIsBelowThreshold(spec: Spec, policy: Policy, events: seq<Event>)
    requires NoPings(events) || !spec.healthUrl
    requires policy.failureThreshold.Some? ==> policy.failureThreshold.value >= 1
    ensures Run(New(spec), policy, events).spec == spec && BelowThreshold(Run(New(spec), policy, events), policy)
  {
    if events != [] { ClosedIsBelowThreshold(spec, policy, events[..|events| - 1]); }
  }

  /** `n` failed health checks in a row. */
  function FailedPings(n: nat): seq<Event> {
    if n == 0 then [] else FailedPings(n - 1) + [Pinged(false, n)]
  }

  /** Failed health checks alone count on a closed circuit without ever opening it. */
  lemma {:induction false} PingsDoNotOpen(spec: Spec, policy: Policy, n: nat)
    requires spec.healthUrl
    ensures var ep := Run(New(spec), policy, FailedPings(n));
      ep.spec == spec && ep.circuit == Closed && ep.consecutiveFailures == n
  {
    if n > 0 {
      PingsDoNotOpen(spec, policy, n - 1);
      assert FailedPings(n)[..|FailedPings(n)| - 1] == FailedPings(n - 1);
    }
  }

  /** Over all histories a closed circuit stays below its threshold exactly when there is no threshold,
   *  or it is at least one and the endpoint has no health URL. */
  lemma {:induction false} AlwaysBelowThresholdIff(spec: Spec, policy: Policy)
    ensures (forall events: seq<Event> :: BelowThreshold(Run(New(spec), policy, events), policy)) <==>
      policy.failureThreshold.None? || (policy.failureThreshold.value >= 1 && !spec.healthUrl)
  {
    if policy.failureThreshold.None? || (policy.failureThreshold.value >= 1 && !spec.healthUrl) {
      forall events: seq<Event> ensures BelowThreshold(Run(New(spec), policy, events), policy) {
        if policy.failureThreshold.Some? { ClosedIsBelowThreshold(spec, policy, events); }
      }
    } else if policy.failureThreshold.value < 1 {
      assert !BelowThreshold(Run(New(spec), policy, []), policy);
    } else {
      PingsDoNotOpen(spec, policy, policy.failureThreshold.value);
      assert !BelowThreshold(Run(New(spec), policy, FailedPings(policy.failureThreshold.value)), policy);
    }
  }

  /** Every change of a circuit, whatever the state: closed opens only on a failed call at the
   *  threshold, half-open only closes and only by a success, nothing else opens. */
  lemma {:induction false} CircuitMoves(ep: Endpoint, policy: Policy, e: Event)
    ensures var ep' := Step(ep, policy, e);
      && (ep.circuit != Open && ep'.circuit == Open <==>
        ep.circuit == Closed && e.Failed?
          && policy.failureThreshold.Some? && policy.failureThreshold.value <= ep.consecutiveFailures + 1)
      && (ep.circuit != Open && ep'.circuit == Open ==> ep'.openedAt == Some(e.start))
      && (ep.circuit != Closed && ep'.circuit == Closed <==> ep.circuit != Closed && e.Succeeded?)
      && (ep.circuit == HalfOpen ==> ep'.circuit == if e.Succeeded? then Closed else HalfOpen)
      && (ep.circuit == Open && ep'.circuit == HalfOpen <==>
            ep.circuit == Open && ((e.Pinged? && e.ok && ep.spec.healthUrl)
              || (e.Probed? && ep.openedAt.Some?
                && e.now - ep.openedAt.value >= if policy.cooldownMs == None then 0 else policy.cooldownMs.value)))
  {
  }

  /** Nothing that ends an open circuit before `until`. */
  predicate Quiet(spec: Spec, events: seq<Event>, until: int) {
    forall i :: 0 <= i < |events| ==>
      match events[i]
      case Probed(now) => now < until
      case Succeeded(_) => false
      case Failed(_) => true
      case Pinged(ok, _) => !(ok && spec.healthUrl)
  }

  /** A circuit that opened at `start` takes no traffic before its cooldown is over, unless a call
   *  succeeds or a health check does; further failures do not prolong the cooldown. */
  lemma {:induction false} OpenStaysOpen(ep: Endpoint, policy: Policy, events: seq<Event>, start: int)
    requires ep.circuit == Open && ep.openedAt == Some(start) && Quiet(ep.spec, events, start + Cooldown(policy))
    ensures var ep' := Run(ep, policy, events);
      && ep'.spec == ep.spec && ep'.circuit == Open && ep'.openedAt == Some(start)
      && forall now :: Available(ep', policy, now).1 <==> now >= start + Cooldown(policy)
  {
    if events != [] { OpenStaysOpen(ep, policy, events[..|events| - 1], start); }
  }

  /** Event `i` is the failed call that takes a closed circuit to the threshold, and nothing after it
   *  ended the cooldown it began. */
  ghost predicate OpenedAt(spec: Spec, policy: Policy, events: seq<Event>, i: nat)
    requires i < |events|
  {
    && events[i].Failed?
    && Run(New(spec), policy, events[..i]).circuit == Closed
    && Reaches(policy, Run(New(spec), policy, events[..i]).consecutiveFailures + 1)
    && Quiet(spec, events[i + 1..], events[i].start + Cooldown(policy))
  }

  lemma {:induction false} OpenedAtNext(spec: Spec, policy: Policy, events: seq<Event>, n: nat, i: nat)
    requires |events| == n + 1 && i < n
    ensures OpenedAt(spec, policy, events, i) <==>
      OpenedAt(spec, policy, events[..n], i) && Quiet(spec, [events[n]], events[i].start + Cooldown(policy))
  {
    assert events[..n][..i] == events[..i];
    assert events[i + 1..] == events[..n][i + 1..] + [events[n]];
  }

  /** Where the opening of an open circuit lies. */
  ghost predicate OpeningKnown(spec: Spec, policy: Policy, events: seq<Event>) {
    var openedAt := Run(New(spec), policy, events).openedAt;
    openedAt.Some? && exists i ::
      0 <= i < |events| && OpenedAt(spec, policy, events, i) && events[i] == Failed(openedAt.value)
  }

  lemma {:induction false} StillOpen(spec: Spec, policy: Policy, events: seq<Event>, n: nat)
    requires |events| == n + 1 && OpeningKnown(spec, policy, events[..n])
    requires Run(New(spec), policy, events[..n]).circuit == Open && Run(New(spec), policy, events).circuit == Open
    ensures OpeningKnown(spec, policy, events)
  {
    HistoryOfEndpoint(spec, policy, events[..n]);
    var start := Run(New(spec), policy, events[..n]).openedAt.value;
    var i :| 0 <= i < n && OpenedAt(spec, policy, events[..n], i) && events[..n][i] == Failed(start);
    OpenedAtNext(spec, policy, events, n, i);
    assert Quiet(spec, [events[n]], start + Cooldown(policy));
    assert OpenedAt(spec, policy, events, i) && events[i] == Failed(start);
  }

  lemma {:induction false} OpenSince(spec: Spec, policy: Policy, events: seq<Event>)
    requires Run(New(spec), policy, events).circuit == Open
    ensures OpeningKnown(spec, policy, events)
  {
    var n := |events| - 1;
    if Run(New(spec), policy, events[..n]).circuit == Open {
      OpenSince(spec, policy, events[..n]);
      StillOpen(spec, policy, events, n);
    } else {
      assert OpenedAt(spec, policy, events, n);
    }
  }

  lemma {:induction false} RunAppend(ep: Endpoint, policy: Policy, a: seq<Event>, b: seq<Event>)
    ensures Run(ep, policy, a + b) == Run(Run(ep, policy, a), policy, b)
  {
    if b == [] { assert a + b == a; } else {
      RunAppend(ep, policy, a, b[..|b| - 1]);
      assert (a + b)[..|a + b| - 1] == a + b[..|b| - 1];
    }
  }

  /** Over every history, a circuit is open exactly when some failed call found it closed with the
   *  failures in a row reaching the threshold, and nothing since ended that call's cooldown. */
  lemma {:induction false} OpenIff(spec: Spec, policy: Policy, events: seq<Event>)
    ensures Run(New(spec), policy, events).circuit == Open <==>
      exists i :: 0 <= i < |events| && OpenedAt(spec, policy, events, i)
  {
    if Run(New(spec), policy, events).circuit == Open { OpenSince(spec, policy, events); }
    forall i | 0 <= i < |events| && OpenedAt(spec, policy, events, i)
      ensures Run(New(spec), policy, events).circuit == Open
    {
      var opening := events[..i + 1];
      assert opening[..i] == events[..i];
      HistoryOfEndpoint(spec, policy, events[..i]);
      assert events == opening + events[i + 1..];
      RunAppend(New(spec), policy, opening, events[i + 1..]);
      OpenStaysOpen(Run(New(spec), policy, opening), policy, events[i + 1..], events[i].start);
    }
  }

  /** Once half-open, an endpoint is offered on every probe until a call succeeds, however many fail. */
  lemma {:induction false} HalfOpenStaysAvailable(ep: Endpoint, policy: Policy, events: seq<Event>)
    requires ep.circuit == HalfOpen && forall i :: 0 <= i < |events| ==> !events[i].Succeeded?
    ensures Run(ep, policy, events).circuit == HalfOpen
    ensures forall now :: Available(Run(ep, policy, events), policy, now) == (Run(ep, policy, events), true)
  {
    if events != [] { HalfOpenStaysAvailable(ep, policy, events[..|events| - 1]); }
  }
}

/** The mutable endpoint state and the bookkeeping calls that update it in place. */
module Circuit {
  import opened Wrappers
  import opened M = CircuitModel

  class EndpointState {
    const spec: Spec
    var circuit: M.Circuit
    var consecutiveFailures: nat
    var openedAt: Option<int>
    var lastLatency: Option<int>
    var latencies: seq<int>
    var totalSuccess: nat
    var totalFailure: nat
    var lastHealth: Option<Health>

    constructor (spec: Spec)
      ensures this.spec == spec && Value() == New(spec)
    {
      this.spec := spec;
      circuit, consecutiveFailures, openedAt, lastLatency, latencies := Closed, 0, None, None, [];
      totalSuccess, totalFailure, lastHealth := 0, 0, None;
    }

    function Value(): Endpoint
      reads this
    {
      Endpoint(spec, circuit, consecutiveFailures, openedAt, lastLatency, latencies, totalSuccess, totalFailure,
        lastHealth)
    }
  }

  method IsAvailable(ep: EndpointState, policy: Policy, now: int) returns (ok: bool)
    modifies ep
    ensures (ep.Value(), ok) == Available(old(ep.Value()), policy, now)
  {
    if ep.circuit == Closed || ep.circuit == HalfOpen { return true; }
    if ep.openedAt.Some? && now - ep.openedAt.value >= Cooldown(policy) {
      ep.circuit := HalfOpen;
      return true;
    }
    return false;
  }

  method RecordSuccess(ep: EndpointState, latency: int)
    modifies ep
    ensures ep.Value() == Success(old(ep.Value()), latency)
  {
    ep.totalSuccess := ep.totalSuccess + 1;
    ep.consecutiveFailures := 0;
    ep.lastLatency := Some(latency);
    ep.latencies := ep.latencies + [latency];
    if |ep.latencies| > 20 { ep.latencies := ep.latencies[1..]; }
    if ep.circuit == HalfOpen || ep.circuit == Open { ep.circuit := Closed; }
  }

  method RecordFailure(ep: EndpointState, policy: Policy, start: int)
    modifies ep
    ensures ep.Value() == Failure(old(ep.Value()), policy, start)
  {
    ep.totalFailure := ep.totalFailure + 1;
    ep.consecutiveFailures := ep.consecutiveFailures + 1;
    if ep.circuit == Closed && Reaches(policy, ep.consecutiveFailures) {
      ep.circuit := Open;
      ep.openedAt := Some(start);
    }
  }

  /** One endpoint of a health pass, given the ping's answer. */
  method RecordPing(ep: EndpointState, ok: bool, ts: int)
    modifies ep
    ensures ep.Value() == Ping(old(ep.Value()), ok, ts)
  {
    if !ep.spec.healthUrl { return; }
    ep.lastHealth := Some(Health(ok, ts));
    if ok {
      if ep.circuit == Open || ep.circuit == HalfOpen { ep.circuit := HalfOpen; }
    } else if ep.circuit == Closed {
      ep.consecutiveFailures := ep.consecutiveFailures + 1;
    }
  }

  function Values(eps: seq<EndpointState>): seq<Endpoint>
    reads eps
  {
    seq(|eps|, i requires 0 <= i < |eps| reads eps => eps[i].Value())
  }
}
