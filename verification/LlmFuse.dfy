/** The process-wide fuse in front of every LLM request: a billing fuse, a per-turn budget and a
 *  rolling one-hour budget. Clock readings and the configuration in force are inputs of each call. */
module LlmFuseModel {
  import opened Wrappers

  const HOUR: int := 3_600_000

  datatype Config = Config(llmCallsPerTurn: int, llmCallsPerHour: int, billingFuseMs: int)

  datatype Trip = Billing | TurnBudget | HourBudget

  datatype Fuse = Fuse(billingOpenUntil: int, billingReason: string, callsThisTurn: nat, hourWindow: seq<nat>)

  const Fresh := Fuse(0, "", 0, [])

  const BILLING_REASON: string := "insufficient balance / billing"

  /** Shifts elements off the front while they are older than `limit`. */
  function Shifted(window: seq<nat>, limit: int): seq<nat> {
    if window != [] && window[0] < limit then Shifted(window[1..], limit) else window
  }

  function Check(f: Fuse, now: nat, cfg: Config): (Fuse, Option<Trip>) {
    if now < f.billingOpenUntil then (f, Some(Billing))
    else
      var f' := f.(callsThisTurn := f.callsThisTurn + 1, hourWindow := Shifted(f.hourWindow + [now], now - HOUR));
      (f', if cfg.llmCallsPerTurn > 0 && f'.callsThisTurn > cfg.llmCallsPerTurn then Some(TurnBudget)
           else if cfg.llmCallsPerHour > 0 && |f'.hourWindow| > cfg.llmCallsPerHour then Some(HourBudget)
           else None)
  }

  /** `billing` says whether the error text matches the billing pattern; the clock is read twice. */
  function Report(f: Fuse, billing: bool, now: nat, later: nat, cfg: Config): Fuse {
    if billing && now >= f.billingOpenUntil then
      f.(billingOpenUntil := later + cfg.billingFuseMs, billingReason := BILLING_REASON) else f
  }

  /** Times at or after `since`, in order. */
  function Since(times: seq<nat>, since: int): seq<nat> {
    if times == [] then []
    else
      var n := |times| - 1;
      if times[n] >= since then Since(times[..n], since) + [times[n]] else Since(times[..n], since)
  }

  // ---- runs

  datatype Event =
    | Checked(now: nat, cfg: Config)
    | Reported(billing: bool, now: nat, later: nat, cfg: Config)
    | TurnReset

  function Step(f: Fuse, e: Event): Fuse {
    match e
    case Checked(now, cfg) => Check(f, now, cfg).0
    case Reported(billing, now, later, cfg) => Report(f, billing, now, later, cfg)
    case TurnReset => f.(callsThisTurn := 0)
  }

  function Run(events: seq<Event>): Fuse {
    if events == [] then Fresh else Step(Run(events[..|events| - 1]), events[|events| - 1])
  }

  /** The verdict on the last event, when it is a check. */
  function Verdict(events: seq<Event>): Option<Trip>
    requires events != [] && events[|events| - 1].Checked?
  {
    var e := events[|events| - 1];
    Check(Run(events[..|events| - 1]), e.now, e.cfg).1
  }

  predicate Counted(events: seq<Event>)
    requires events != []
  {
    events[|events| - 1].Checked? && Verdict(events) != Some(Billing)
  }

  predicate Succeeded(events: seq<Event>)
    requires events != []
  {
    events[|events| - 1].Checked? && Verdict(events) == None
  }

  /** The times of all counted attempts of a run, never forgotten. */
  function Log(events: seq<Event>): seq<nat> {
    if events == [] then []
    else if Counted(events) then Log(events[..|events| - 1]) + [events[|events| - 1].now]
    else Log(events[..|events| - 1])
  }

  /** Counted attempts since the last turn reset. */
  function TurnCount(events: seq<Event>): nat {
    if events == [] || events[|events| - 1].TurnReset? then 0
    else TurnCount(events[..|events| - 1]) + if Counted(events) then 1 else 0
  }

  function LastReading(e: Event): nat {
    match e
    case Checked(now, _) => now
    case Reported(_, _, later, _) => later
    case TurnReset => 0
  }

  /** The clock never goes back. */
  predicate Monotone(events: seq<Event>) {
    && (forall i :: 0 <= i < |events| && events[i].Reported? ==> events[i].now <= events[i].later)
    && (forall i, j :: 0 <= i < j < |events| && !events[j].TurnReset? ==> LastReading(events[i]) <= events[j].now)
  }

  // ---- the window is the log

  ghost predicate Sorted(times: seq<nat>) {
    forall i, j :: 0 <= i < j < |times| ==> times[i] <= times[j]
  }

  lemma {:induction false} SinceAll(times: seq<nat>, since: int)
    requires forall i :: 0 <= i < |times| ==> times[i] >= since
    ensures Since(times, since) == times
  {
    if times != [] { SinceAll(times[..|times| - 1], since); }
  }

  lemma {:induction false} SinceFirst(times: seq<nat>, since: int)
    requires times != []
    ensures Since(times, since) == (if times[0] >= since then [times[0]] else []) + Since(times[1..], since)
  {
    var n := |times| - 1;
    if n > 0 {
      SinceFirst(times[..n], since);
      assert times[..n][1..] == times[1..][..n - 1];
    }
  }

  lemma {:induction false} ShiftedIsSince(window: seq<nat>, limit: int)
    requires Sorted(window)
    ensures Shifted(window, limit) == Since(window, limit)
  {
    if window != [] && window[0] < limit {
      ShiftedIsSince(window[1..], limit);
      SinceFirst(window, limit);
    } else {
      SinceAll(window, limit);
    }
  }

  lemma {:induction false} SinceTwice(times: seq<nat>, a: int, b: int)
    requires a <= b
    ensures Since(Since(times, a), b) == Since(times, b)
  {
    if times != [] {
      var n := |times| - 1;
      SinceTwice(times[..n], a, b);
      if times[n] >= a { SinceAppend(Since(times[..n], a), times[n], b); }
    }
  }

  lemma {:induction false} SinceAppend(times: seq<nat>, t: nat, since: int)
    ensures Since(times + [t], since) == if t >= since then Since(times, since) + [t] else Since(times, since)
  {
    assert (times + [t])[..|times|] == times;
  }

  lemma {:induction false} LogBounds(events: seq<Event>, bound: nat)
    requires Monotone(events)
    requires forall i :: 0 <= i < |events| ==> LastReading(events[i]) <= bound
    ensures Sorted(Log(events)) && forall i :: 0 <= i < |Log(events)| ==> Log(events)[i] <= bound
  {
    if events != [] {
      var n := |events| - 1;
      LogBounds(events[..n], if events[n].TurnReset? then bound else events[n].now);
    }
  }

  lemma {:induction false} MonotonePrefix(events: seq<Event>, n: nat)
    requires Monotone(events) && n <= |events|
    ensures Monotone(events[..n])
  {
  }

  lemma {:induction false} SinceSorted(times: seq<nat>, since: int)
    requires Sorted(times)
    ensures var kept := Since(times, since);
      Sorted(kept) && forall i :: 0 <= i < |kept| ==> times != [] && kept[i] <= times[|times| - 1]
  {
    if times != [] { SinceSorted(times[..|times| - 1], since); }
  }

  lemma {:induction false} SortedAppend(times: seq<nat>, t: nat)
    requires Sorted(times) && forall i :: 0 <= i < |times| ==> times[i] <= t
    ensures Sorted(times + [t])
  {
  }

  lemma {:induction false} WindowStep(log: seq<nat>, since: int, now: nat, limit: int)
    requires Sorted(log) && since <= limit <= now && forall i :: 0 <= i < |log| ==> log[i] <= now
    ensures Shifted(Since(log, since) + [now], limit) == Since(log + [now], limit) == Since(log, limit) + [now]
  {
    var window := Since(log, since);
    assert Sorted(window + [now]) by {
      SinceSorted(log, since);
      SortedAppend(window, now);
    }
    ShiftedIsSince(window + [now], limit);
    SinceAppend(window, now, limit);
    SinceAppend(log, now, limit);
    SinceTwice(log, since, limit);
  }

  /** Where the window of a run with this log begins. */
  function WindowStart(log: seq<nat>): int {
    if log == [] then -3_600_000 else log[|log| - 1] as int - 3_600_000
  }

  /** The pruned window is the full log cut to the hour before the last counted attempt. */
  lemma {:induction false} WindowIsLog(events: seq<Event>)
    requires Monotone(events)
    ensures Run(events).hourWindow == Since(Log(events), WindowStart(Log(events)))
  {
    if events != [] {
      var n := |events| - 1;
      MonotonePrefix(events, n);
      WindowIsLog(events[..n]);
      if Counted(events) {
        LogBounds(events[..n], events[n].now);
        WindowStep(Log(events[..n]), WindowStart(Log(events[..n])), events[n].now, events[n].now - 3_600_000);
      }
    }
  }

  /** `status().callsThisHour` counts the attempts of the last hour in the full log. */
  lemma {:induction false} StatusCountsLog(events: seq<Event>, now: nat)
    requires Monotone(events) && forall i :: 0 <= i < |events| ==> LastReading(events[i]) <= now
    ensures Since(Run(events).hourWindow, now - 3_600_000) == Since(Log(events), now - 3_600_000)
  {
    WindowIsLog(events);
    LogBounds(events, now);
    SinceTwice(Log(events), WindowStart(Log(events)), now - 3_600_000);
  }

  lemma {:induction false} TurnIsCounted(events: seq<Event>)
    ensures Run(events).callsThisTurn == TurnCount(events)
  {
    if events != [] { TurnIsCounted(events[..|events| - 1]); }
  }

  // ---- when a check succeeds, and what that bounds

  /** A check is let through exactly when the billing fuse is shut and neither budget is used up by
   *  the attempts counted before it, in this turn and in the last hour. */
  lemma {:induction false} CheckSucceedsIff(events: seq<Event>, now: nat, cfg: Config)
    requires Monotone(events + [Checked(now, cfg)])
    ensures Succeeded(events + [Checked(now, cfg)]) <==>
      && now >= Run(events).billingOpenUntil
      && (cfg.llmCallsPerTurn > 0 ==> TurnCount(events) < cfg.llmCallsPerTurn)
      && (cfg.llmCallsPerHour > 0 ==> |Since(Log(events), now - 3_600_000)| < cfg.llmCallsPerHour)
  {
    assert (events + [Checked(now, cfg)])[..|events|] == events;
    TurnIsCounted(events);
    if now >= Run(events).billingOpenUntil { HourWindowAfter(events, now, cfg); }
  }

  lemma {:induction false} BeforeCheck(events: seq<Event>, now: nat, cfg: Config)
    requires Monotone(events + [Checked(now, cfg)])
    ensures Monotone(events) && forall i :: 0 <= i < |events| ==> LastReading(events[i]) <= now
  {
    var all := events + [Checked(now, cfg)];
    assert all[..|events|] == events;
    MonotonePrefix(all, |events|);
    forall i | 0 <= i < |events| ensures LastReading(events[i]) <= now {
      assert events[i] == all[i] && !all[|events|].TurnReset?;
    }
  }

  lemma {:induction false} HourWindowAfter(events: seq<Event>, now: nat, cfg: Config)
    requires Monotone(events + [Checked(now, cfg)]) && now >= Run(events).billingOpenUntil
    ensures |Check(Run(events), now, cfg).0.hourWindow| == |Since(Log(events), now - 3_600_000)| + 1
  {
    var log := Log(events);
    assert Sorted(log) && (forall i :: 0 <= i < |log| ==> log[i] <= now)
      && Run(events).hourWindow == Since(log, WindowStart(log)) by {
      BeforeCheck(events, now, cfg);
      WindowIsLog(events);
      LogBounds(events, now);
    }
    WindowStep(log, WindowStart(log), now, now - 3_600_000);
  }

  /** Successful checks at times from `from` to `to`, both included. */
  function SuccessesIn(events: seq<Event>, from: int, to: int): nat {
    if events == [] then 0
    else
      SuccessesIn(events[..|events| - 1], from, to) +
      if Succeeded(events) && from <= events[|events| - 1].now <= to then 1 else 0
  }

  lemma {:induction false} SuccessesAreLogged(events: seq<Event>, from: int, to: int, since: int)
    requires since <= from
    ensures SuccessesIn(events, from, to) <= |Since(Log(events), since)|
  {
    if events != [] {
      var n := |events| - 1;
      SuccessesAreLogged(events[..n], from, to, since);
      if Counted(events) { SinceAppend(Log(events[..n]), events[n].now, since); }
    }
  }

  lemma {:induction false} SuccessWithinLimit(events: seq<Event>)
    requires Monotone(events) && events != [] && Succeeded(events) && events[|events| - 1].cfg.llmCallsPerHour > 0
    ensures |Since(Log(events), events[|events| - 1].now - 3_600_000)| <= events[|events| - 1].cfg.llmCallsPerHour
  {
    WindowIsLog(events);
  }

  /** In any run and any closed interval of one hour, at most `limit` checks succeed, as long as the
   *  checks in it were made under an hourly limit of at most `limit`. */
  lemma {:induction false} HourlyBound(events: seq<Event>, from: int, limit: nat)
    requires Monotone(events)
    requires forall i :: 0 <= i < |events| && events[i].Checked? && from <= events[i].now <= from + 3_600_000 ==>
      0 < events[i].cfg.llmCallsPerHour <= limit
    ensures SuccessesIn(events, from, from + 3_600_000) <= limit
  {
    if events != [] {
      var n := |events| - 1;
      MonotonePrefix(events, n);
      HourlyBound(events[..n], from, limit);
      if Succeeded(events) && from <= events[n].now <= from + 3_600_000 {
        SuccessWithinLimit(events);
        SuccessesAreLogged(events, from, from + 3_600_000, events[n].now - 3_600_000);
      }
    }
  }

  function TurnSuccesses(events: seq<Event>): nat {
    if events == [] || events[|events| - 1].TurnReset? then 0
    else TurnSuccesses(events[..|events| - 1]) + if Succeeded(events) then 1 else 0
  }

  lemma {:induction false} TurnSuccessesCounted(events: seq<Event>)
    ensures TurnSuccesses(events) <= TurnCount(events)
  {
    if events != [] { TurnSuccessesCounted(events[..|events| - 1]); }
  }

  /** The turn was not reset at `i` or after. */
  predicate SameTurn(events: seq<Event>, i: nat) { forall j :: i <= j < |events| ==> !events[j].TurnReset? }

  /** Since the last turn reset at most `limit` checks succeeded, when those made since then were made
   *  under a per-turn limit of at most `limit`. */
  lemma {:induction false} TurnBound(events: seq<Event>, limit: nat)
    requires forall i :: 0 <= i < |events| && events[i].Checked? && SameTurn(events, i) ==>
      0 < events[i].cfg.llmCallsPerTurn <= limit
    ensures TurnSuccesses(events) <= limit
  {
    if events != [] && !events[|events| - 1].TurnReset? {
      var n := |events| - 1;
      forall i | 0 <= i < n && events[i].Checked? && SameTurn(events[..n], i)
        ensures 0 < events[i].cfg.llmCallsPerTurn <= limit
      {
        assert forall j :: i <= j < n ==> events[j] == events[..n][j];
        assert SameTurn(events, i);
      }
      TurnBound(events[..n], limit);
      if Succeeded(events) {
        assert SameTurn(events, n);
        TurnIsCounted(events);
        TurnSuccessesCounted(events);
      }
    }
  }

  // ---- the billing fuse

  /** Event `i` is a billing error that opens the fuse. */
  predicate Opens(events: seq<Event>, i: nat)
    requires i < |events|
  {
    events[i].Reported? && events[i].billing && events[i].now >= Run(events[..i]).billingOpenUntil
  }

  /** Some billing error that found the fuse shut is younger than its fuse time. */
  ghost predicate BillingOpenAt(events: seq<Event>, now: nat) {
    exists i :: 0 <= i < |events| && Opens(events, i) && now < events[i].later + events[i].cfg.billingFuseMs
  }

  lemma {:induction false} BillingOpenNext(events: seq<Event>, n: nat, now: nat)
    requires |events| == n + 1
    ensures BillingOpenAt(events, now) <==>
      BillingOpenAt(events[..n], now) || (Opens(events, n) && now < events[n].later + events[n].cfg.billingFuseMs)
  {
    var before := events[..n];
    assert forall i :: 0 <= i < n ==> events[..i] == before[..i];
    assert forall i :: 0 <= i < n ==> (Opens(events, i) <==> Opens(before, i));
    if BillingOpenAt(before, now) {
      var i :| 0 <= i < n && Opens(before, i) && now < before[i].later + before[i].cfg.billingFuseMs;
      assert Opens(events, i);
    }
  }

  ghost predicate LastOpening(events: seq<Event>, i: nat) {
    i < |events| && Opens(events, i) && forall j :: i < j < |events| ==> !Opens(events, j)
  }

  /** A reported time until which the fuse is open is that of the last billing error that found it
   *  shut, and the reported reason is the billing text. */
  lemma {:induction false} OpenNamesItsCause(events: seq<Event>)
    ensures var f := Run(events);
      if exists i: nat :: LastOpening(events, i) then
        f.billingReason == "insufficient balance / billing" && exists i: nat ::
          LastOpening(events, i) && f.billingOpenUntil == events[i].later + events[i].cfg.billingFuseMs
      else f.billingReason == "" && f.billingOpenUntil == 0
  {
    if events != [] {
      var n := |events| - 1;
      OpenNamesItsCause(events[..n]);
      if Opens(events, n) {
        assert LastOpening(events, n);
      } else {
        OpeningsBefore(events);
        if exists i: nat :: LastOpening(events, i) {
          var k: nat :| LastOpening(events[..n], k)
            && Run(events[..n]).billingOpenUntil == events[..n][k].later + events[..n][k].cfg.billingFuseMs;
          assert LastOpening(events, k) && events[k] == events[..n][k];
        } else {
          forall i: nat ensures !LastOpening(events[..n], i) {
            assert LastOpening(events, i) <==> LastOpening(events[..n], i);
          }
        }
      }
    }
  }

  lemma {:induction false} OpeningsBefore(events: seq<Event>)
    requires events != [] && !Opens(events, |events| - 1)
    ensures forall i: nat :: LastOpening(events, i) <==> LastOpening(events[..|events| - 1], i)
  {
    var n := |events| - 1;
    var before := events[..n];
    forall i: nat | i < n ensures Opens(events, i) <==> Opens(before, i) {
      assert events[..i] == before[..i];
    }
    forall i: nat ensures LastOpening(events, i) <==> LastOpening(before, i) {
      if LastOpening(before, i) {
        assert forall j :: i < j < n ==> !Opens(before, j);
      }
    }
  }

  lemma {:induction false} OpenUntil(events: seq<Event>, now: nat)
    requires Monotone(events) && forall i :: 0 <= i < |events| ==> LastReading(events[i]) <= now
    ensures now < Run(events).billingOpenUntil <==> BillingOpenAt(events, now)
  {
    if events != [] {
      var n := |events| - 1;
      MonotonePrefix(events, n);
      OpenUntil(events[..n], now);
      BillingOpenNext(events, n, now);
      assert events[n].Reported? ==> events[n].now <= now;
    }
  }

  /** A check fails with `billing`, uncounted, exactly while some billing error that found the fuse
   *  shut is younger than its fuse time; errors that find it open do not prolong it. */
  lemma {:induction false} BillingBlocks(events: seq<Event>, now: nat, cfg: Config)
    requires Monotone(events + [Checked(now, cfg)])
    ensures var all := events + [Checked(now, cfg)];
      && (Verdict(all) == Some(Billing) <==> BillingOpenAt(events, now))
      && (Verdict(all) == Some(Billing) ==> Run(all) == Run(events) && Log(all) == Log(events))
  {
    assert (events + [Checked(now, cfg)])[..|events|] == events;
    BeforeCheck(events, now, cfg);
    OpenUntil(events, now);
  }

  /** What a check answers, in this order: the billing fuse, then the budget of the turn, then that of
   *  the hour, each used up by the attempts before this one. */
  lemma {:induction false} VerdictIs(events: seq<Event>, now: nat, cfg: Config)
    requires Monotone(events + [Checked(now, cfg)])
    ensures Verdict(events + [Checked(now, cfg)]) ==
      if BillingOpenAt(events, now) then Some(Billing)
      else if cfg.llmCallsPerTurn > 0 && TurnCount(events) >= cfg.llmCallsPerTurn then Some(TurnBudget)
      else if cfg.llmCallsPerHour > 0 && |Since(Log(events), now - 3_600_000)| >= cfg.llmCallsPerHour
        then Some(HourBudget)
      else None
  {
    assert (events + [Checked(now, cfg)])[..|events|] == events;
    BeforeCheck(events, now, cfg);
    OpenUntil(events, now);
    TurnIsCounted(events);
    if now >= Run(events).billingOpenUntil { HourWindowAfter(events, now, cfg); }
  }
}

/** The fuse as the object it is. */
module LlmFuse {
  import opened Wrappers
  import opened M = LlmFuseModel

  datatype FuseStatus = FuseStatus(open: bool, reason: Option<string>, untilMs: Option<int>, callsThisTurn: nat,
          callsThisHour: nat)

  class LlmFuse {
    var billingOpenUntil: int
    var billingReason: string
    var callsThisTurn: nat
    var hourWindow: seq<nat>

    ghost function Model(): M.Fuse
      reads this
    {
      M.Fuse(billingOpenUntil, billingReason, callsThisTurn, hourWindow)
    }

    constructor ()
      ensures Model() == Fresh
    {
      billingOpenUntil, billingReason, callsThisTurn, hourWindow := 0, "", 0, [];
    }

    method ResetTurn()
      modifies this
      ensures Model() == Step(old(Model()), TurnReset)
    {
      callsThisTurn := 0;
    }

    method Check(now: nat, cfg: Config) returns (trip: Option<Trip>)
      modifies this
      ensures (Model(), trip) == M.Check(old(Model()), now, cfg)
    {
      if now < billingOpenUntil { return Some(Billing); }
      callsThisTurn := callsThisTurn + 1;
      hourWindow := hourWindow + [now];
      var hourAgo := now - HOUR;
      while |hourWindow| > 0 && hourWindow[0] < hourAgo
        invariant Shifted(hourWindow, hourAgo) == Shifted(old(hourWindow) + [now], hourAgo)
        invariant billingOpenUntil == old(billingOpenUntil) && billingReason == old(billingReason)
          && callsThisTurn == old(callsThisTurn) + 1
        decreases |hourWindow|
      {
        hourWindow := hourWindow[1..];
      }
      if cfg.llmCallsPerTurn > 0 && callsThisTurn > cfg.llmCallsPerTurn { return Some(TurnBudget); }
      if cfg.llmCallsPerHour > 0 && |hourWindow| > cfg.llmCallsPerHour { return Some(HourBudget); }
      trip := None;
    }

    method Report(billing: bool, now: nat, later: nat, cfg: Config)
      modifies this
      ensures Model() == M.Report(old(Model()), billing, now, later, cfg)
    {
      if billing && now >= billingOpenUntil {
        billingOpenUntil := later + cfg.billingFuseMs;
        billingReason := BILLING_REASON;
      }
    }

    /** Reason and time are reported only while the fuse is open. */
    method Status(now: nat) returns (status: FuseStatus)
      ensures status.open <==> now < billingOpenUntil
      ensures status.reason == (if status.open then Some(billingReason) else None)
        && status.untilMs == (if status.open then Some(billingOpenUntil) else None)
      ensures status.callsThisTurn == callsThisTurn && status.callsThisHour == |Since(hourWindow, now - HOUR)|
    {
      var open := now < billingOpenUntil;
      var reason, untilMs := None, None;
      if open { reason, untilMs := Some(billingReason), Some(billingOpenUntil); }
      status := FuseStatus(open, reason, untilMs, callsThisTurn, |Since(hourWindow, now - HOUR)|);
    }
  }
}
