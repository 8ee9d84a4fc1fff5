/** Failover over several endpoints: what a call may do to them while other calls and health passes
 *  act on the same endpoints, and what follows from it. */
module MeshModel {
  import opened Wrappers
  import opened CircuitModel
  import opened Routing

  /** One change to the endpoint at `place`; `own` when this call recorded an invocation's result. */
  datatype Entry = Entry(place: nat, event: Event, own: bool)

  /** What `call` cannot decide itself: clock readings, random draws, the result of its n-th
   *  invocation of `fn`, and what others do to the endpoints while that invocation is pending. */
  datatype World = World(clock: nat -> int, draw: nat -> real, succeeds: nat -> bool, others: nat -> seq<Entry>)

  /** One picked endpoint: how much had happened when it was picked, and its invocations' results. */
  datatype Round = Round(place: nat, at: nat, results: seq<bool>)

  // ---- what a log of changes makes of the endpoints

  function Apply(eps: seq<Endpoint>, policy: Policy, e: Entry): seq<Endpoint> {
    if e.place < |eps| then eps[e.place := Step(eps[e.place], policy, e.event)] else eps
  }

  function Replay(eps: seq<Endpoint>, policy: Policy, log: seq<Entry>): (r: seq<Endpoint>)
    ensures |r| == |eps|
  {
    if log == [] then eps else Apply(Replay(eps, policy, log[..|log| - 1]), policy, log[|log| - 1])
  }

  lemma {:induction false} ReplayAppend(eps: seq<Endpoint>, policy: Policy, a: seq<Entry>, b: seq<Entry>)
    ensures Replay(eps, policy, a + b) == Replay(Replay(eps, policy, a), policy, b)
  {
    if b == [] { assert a + b == a; } else {
      ReplayAppend(eps, policy, a, b[..|b| - 1]);
      assert (a + b)[..|a + b| - 1] == a + b[..|b| - 1];
    }
  }

  lemma {:induction false} ReplayKeepsSpecs(eps: seq<Endpoint>, policy: Policy, log: seq<Entry>)
    ensures forall i :: 0 <= i < |eps| ==> Replay(eps, policy, log)[i].spec == eps[i].spec
  {
    if log != [] { ReplayKeepsSpecs(eps, policy, log[..|log| - 1]); }
  }

  /** Endpoint `i`'s own history within a log. */
  function EventsOf(log: seq<Entry>, i: nat): seq<Event> {
    if log == [] then []
    else if log[|log| - 1].place == i then EventsOf(log[..|log| - 1], i) + [log[|log| - 1].event]
    else EventsOf(log[..|log| - 1], i)
  }

  /** Each endpoint lives through its own events only, so what holds of every history of one endpoint
   *  holds of every endpoint of a mesh. */
  lemma {:induction false} ReplayIsPerEndpoint(eps: seq<Endpoint>, policy: Policy, log: seq<Entry>, i: nat)
    requires i < |eps|
    ensures Replay(eps, policy, log)[i] == Run(eps[i], policy, EventsOf(log, i))
  {
    if log != [] {
      var n := |log| - 1;
      ReplayIsPerEndpoint(eps, policy, log[..n], i);
      var events := EventsOf(log[..n], i) + [log[n].event];
      assert events[..|events| - 1] == EventsOf(log[..n], i);
    }
  }

  /** Asking every endpoint whether it is available, in map order. */
  function ProbeLog(nows: seq<int>): seq<Entry> {
    seq(|nows|, i requires 0 <= i < |nows| => Entry(i, Probed(nows[i]), false))
  }

  /** Takes traffic, and was not tried. */
  predicate Eligible(ep: Endpoint, tried: set<string>) { ep.circuit != Open && ep.spec.name !in tried }

  /** Endpoints among the first `k` that take traffic and are not excluded. */
  function Candidates(eps: seq<Endpoint>, tried: set<string>, k: nat): seq<Candidate>
    requires k <= |eps|
  {
    if k == 0 then []
    else if Eligible(eps[k - 1], tried)
    then Candidates(eps, tried, k - 1) + [Candidate(k - 1, eps[k - 1])]
    else Candidates(eps, tried, k - 1)
  }

  lemma {:induction false} CandidatesFrame(a: seq<Endpoint>, b: seq<Endpoint>, tried: set<string>, k: nat)
    requires k <= |a| && k <= |b| && a[..k] == b[..k]
    ensures Candidates(a, tried, k) == Candidates(b, tried, k)
  {
    if k > 0 {
      assert a[..k][k - 1] == b[..k][k - 1];
      assert a[..k - 1] == a[..k][..k - 1] && b[..k - 1] == b[..k][..k - 1];
      CandidatesFrame(a, b, tried, k - 1);
    }
  }

  lemma {:induction false} CandidatesMeaning(eps: seq<Endpoint>, tried: set<string>, k: nat)
    requires k <= |eps|
    ensures forall c :: c in Candidates(eps, tried, k) <==>
      c.place < k && c.endpoint == eps[c.place] && eps[c.place].circuit != Open && eps[c.place].spec.name !in tried
  {
    if k > 0 { CandidatesMeaning(eps, tried, k - 1); }
  }

  function Pick(eps: seq<Endpoint>, strategy: Strategy, tried: set<string>, draw: real): Option<Candidate> {
    PickByStrategy(strategy, Candidates(eps, tried, |eps|), draw)
  }

  /** A pick takes traffic and has not been tried; there is none only when every endpoint is open or
   *  tried. */
  lemma {:induction false} PickMeaning(eps: seq<Endpoint>, strategy: Strategy, tried: set<string>, draw: real)
    ensures var pick := Pick(eps, strategy, tried, draw);
      match pick
      case Some(c) =>
        c.place < |eps| && c.endpoint == eps[c.place] && eps[c.place].circuit != Open
        && eps[c.place].spec.name !in tried
      case None => forall i :: 0 <= i < |eps| ==> eps[i].circuit == Open || eps[i].spec.name in tried
  {
    CandidatesMeaning(eps, tried, |eps|);
    var cs := Candidates(eps, tried, |eps|);
    if cs != [] {
      RoutePicksCandidate(strategy, cs, draw);
    } else {
      forall i | 0 <= i < |eps| ensures eps[i].circuit == Open || eps[i].spec.name in tried {
        assert Candidate(i, eps[i]) !in cs;
      }
    }
  }

  /** Exactly the endpoints that take traffic and were not tried, in the order in which they are declared. */
  ghost predicate ListsEligible(eps: seq<Endpoint>, tried: set<string>, cs: seq<Candidate>) {
    && (forall c :: c in cs <==>
          c.place < |eps| && c.endpoint == eps[c.place] && c.endpoint.circuit != Open
          && c.endpoint.spec.name !in tried)
    && InOrder(cs)
  }

  ghost predicate InOrder(cs: seq<Candidate>) { forall i, j :: 0 <= i < j < |cs| ==> cs[i].place < cs[j].place }

  lemma {:induction false} CandidatesInOrder(eps: seq<Endpoint>, tried: set<string>, k: nat)
    requires k <= |eps|
    ensures InOrder(Candidates(eps, tried, k))
  {
    if k > 0 {
      var before := Candidates(eps, tried, k - 1);
      CandidatesInOrder(eps, tried, k - 1);
      CandidatesMeaning(eps, tried, k - 1);
      var cs := Candidates(eps, tried, k);
      forall i, j | 0 <= i < j < |cs| ensures cs[i].place < cs[j].place {
        assert cs[i] == before[i] && before[i] in before;
        if j < |before| { assert cs[j] == before[j]; }
      }
    }
  }

  /** The strategy picks among exactly the endpoints that take traffic and were not tried, in the order in
   *  which they are declared. */
  lemma {:induction false} PicksAmongEligible(eps: seq<Endpoint>, strategy: Strategy, tried: set<string>, draw: real)
    ensures exists cs ::
      && ListsEligible(eps, tried, cs)
      && Pick(eps, strategy, tried, draw) == if cs == [] then None else Some(Route(strategy, cs, draw))
  {
    CandidatesMeaning(eps, tried, |eps|);
    CandidatesInOrder(eps, tried, |eps|);
    assert ListsEligible(eps, tried, Candidates(eps, tried, |eps|));
  }

  // ---- what a call's rounds and log must look like

  /** Own results in a log: which endpoint, and whether it was a success. */
  function Recorded(log: seq<Entry>): seq<(nat, bool)> {
    if log == [] then []
    else if log[|log| - 1].own then
      Recorded(log[..|log| - 1]) + [(log[|log| - 1].place, log[|log| - 1].event.Succeeded?)]
    else Recorded(log[..|log| - 1])
  }

  /** Results of the invocations, in order. */
  function Invoked(rounds: seq<Round>): seq<(nat, bool)> {
    if rounds == [] then [] else Invoked(rounds[..|rounds| - 1]) + ResultsOf(rounds[|rounds| - 1])
  }

  function ResultsOf(round: Round): seq<(nat, bool)> {
    seq(|round.results|, i requires 0 <= i < |round.results| => (round.place, round.results[i]))
  }

  function Names(eps: seq<Endpoint>, rounds: seq<Round>): set<string>
  {
    set r | r in rounds && r.place < |eps| :: eps[r.place].spec.name
  }

  /** Every retry was used and failed. */
  predicate AllFailures(results: seq<bool>, retries: int) {
    |results| == (if retries > 0 then retries else 0) && forall k :: 0 <= k < |results| ==> !results[k]
  }

  /** The last invocation succeeded, after failures only. */
  predicate OneSuccess(results: seq<bool>, retries: int) {
    0 < |results| <= retries && forall k :: 0 <= k < |results| ==> (results[k] <==> k == |results| - 1)
  }

  predicate Exhausted(round: Round, retries: int) { AllFailures(round.results, retries) }

  predicate Succeeds(round: Round, retries: int) { OneSuccess(round.results, retries) }

  /** Each round's endpoint is what the strategy picks, among the endpoints that take traffic at that
   *  moment and were not picked before. */
  ghost predicate PickedInTurn(eps: seq<Endpoint>, policy: Policy, draw: nat -> real, log: seq<Entry>,
          rounds: seq<Round>) {
    forall r :: 0 <= r < |rounds| ==> InTurn(eps, policy, draw, log, rounds, r)
  }

  ghost predicate InTurn(eps: seq<Endpoint>, policy: Policy, draw: nat -> real, log: seq<Entry>, rounds: seq<Round>,
          r: nat)
    requires r < |rounds|
  {
    && rounds[r].place < |eps| && rounds[r].at <= |log|
    && var pick := Pick(Replay(eps, policy, log[..rounds[r].at]), policy.strategy, Names(eps, rounds[..r]), draw(r));
       pick.Some? && pick.value.place == rounds[r].place
  }

  ghost predicate DistinctPlaces(rounds: seq<Round>) {
    forall i, j :: 0 <= i < j < |rounds| ==> rounds[i].place != rounds[j].place
  }

  function Total(rounds: seq<Round>): nat {
    if rounds == [] then 0 else Total(rounds[..|rounds| - 1]) + |rounds[|rounds| - 1].results|
  }

  lemma {:induction false} TotalInvocations(rounds: seq<Round>)
    ensures |Invoked(rounds)| == Total(rounds)
  {
    if rounds != [] { TotalInvocations(rounds[..|rounds| - 1]); }
  }

  lemma {:induction false} TotalBound(rounds: seq<Round>, retries: nat)
    requires forall r :: 0 <= r < |rounds| ==> |rounds[r].results| <= retries
    ensures Total(rounds) <= |rounds| * retries
  {
    if rounds != [] {
      TotalBound(rounds[..|rounds| - 1], retries);
      assert |rounds| * retries == (|rounds| - 1) * retries + retries;
    }
  }

  lemma {:induction false} PlacesFit(places: set<nat>, n: nat)
    requires forall p :: p in places ==> p < n
    ensures |places| <= n
  {
    if n > 0 {
      PlacesFit(places - {n - 1}, n - 1);
      if n - 1 in places { assert |places - {n - 1}| == |places| - 1; } else { assert places - {n - 1} == places; }
    } else {
      assert places == {};
    }
  }

  lemma {:induction false} FewRounds(rounds: seq<Round>, n: nat)
    requires DistinctPlaces(rounds) && forall r :: 0 <= r < |rounds| ==> rounds[r].place < n
    ensures |rounds| <= n
  {
    var places := PlacesOf(rounds);
    PlacesFit(places, n);
  }

  lemma {:induction false} PlacesOf(rounds: seq<Round>) returns (places: set<nat>)
    requires DistinctPlaces(rounds)
    ensures |places| == |rounds| && forall p :: p in places <==> exists r :: 0 <= r < |rounds| && rounds[r].place == p
  {
    if rounds == [] {
      places := {};
    } else {
      var n := |rounds| - 1;
      var rest := PlacesOf(rounds[..n]);
      assert rounds[n].place !in rest;
      places := rest + {rounds[n].place};
      forall p ensures p in places <==> exists r :: 0 <= r < |rounds| && rounds[r].place == p {
        if exists r :: 0 <= r < |rounds| && rounds[r].place == p {
          var r :| 0 <= r < |rounds| && rounds[r].place == p;
          if r < n { assert rounds[..n][r].place == p; }
        }
        if p in rest {
          var r :| 0 <= r < n && rounds[..n][r].place == p;
          assert rounds[r].place == p;
        }
      }
    }
  }

  /** A call under way: every round so far was exhausted. */
  ghost predicate InProgress(eps: seq<Endpoint>, policy: Policy, draw: nat -> real, log: seq<Entry>,
          rounds: seq<Round>) {
    && DistinctPlaces(rounds)
    && |Names(eps, rounds)| == |rounds|
    && (forall r :: 0 <= r < |rounds| ==> Exhausted(rounds[r], policy.maxRetries))
    && Recorded(log) == Invoked(rounds)
    && PickedInTurn(eps, policy, draw, log, rounds)
  }

  /** How a call may end: rounds of failures on distinct endpoints, then either one success or
   *  nothing left to pick. */
  ghost predicate Outcome(eps: seq<Endpoint>, policy: Policy, log: seq<Entry>, rounds: seq<Round>, ok: bool) {
    && DistinctPlaces(rounds)
    && (forall r :: 0 <= r < |rounds| - (if ok then 1 else 0) ==> Exhausted(rounds[r], policy.maxRetries))
    && (ok ==> rounds != [] && Succeeds(rounds[|rounds| - 1], policy.maxRetries))
    && (!ok ==> forall i :: 0 <= i < |eps| ==>
      Replay(eps, policy, log)[i].circuit == Open || eps[i].spec.name in Names(eps, rounds))
    && Recorded(log) == Invoked(rounds)
  }

  /** A call picks each endpoint at most once and invokes `fn` at most `endpoints x retries` times,
   *  each invocation recorded once. */
  lemma {:induction false} InvocationBound(eps: seq<Endpoint>, policy: Policy, draw: nat -> real, log: seq<Entry>,
          rounds: seq<Round>, ok: bool)
    requires Outcome(eps, policy, log, rounds, ok) && PickedInTurn(eps, policy, draw, log, rounds)
    ensures |rounds| <= |eps|
    ensures |Recorded(log)| <= |eps| * (if policy.maxRetries > 0 then policy.maxRetries else 0)
  {
    var retries: nat := if policy.maxRetries > 0 then policy.maxRetries else 0;
    forall r | 0 <= r < |rounds| ensures |rounds[r].results| <= retries && rounds[r].place < |eps| {
      assert InTurn(eps, policy, draw, log, rounds, r);
    }
    FewRounds(rounds, |eps|);
    TotalBound(rounds, retries);
    TotalInvocations(rounds);
    ProductMonotone(|rounds|, |eps|, retries);
  }

  lemma {:induction false} ProductMonotone(a: nat, b: nat, c: nat)
    requires a <= b
    ensures a * c <= b * c
  {
  }

  /** A call returns a result exactly when some invocation succeeded, and then that invocation is its
   *  only success and its last record. */
  lemma {:induction false} ReturnsIffLastSucceeds(eps: seq<Endpoint>, policy: Policy, log: seq<Entry>,
          rounds: seq<Round>, ok: bool)
    requires Outcome(eps, policy, log, rounds, ok)
    ensures ok <==> exists k :: 0 <= k < |Recorded(log)| && Recorded(log)[k].1
    ensures forall k :: 0 <= k < |Recorded(log)| && Recorded(log)[k].1 ==> k == |Recorded(log)| - 1
  {
    if ok {
      var n := |rounds| - 1;
      AllFail(rounds[..n], policy.maxRetries);
      LastSucceeds(Invoked(rounds[..n]), rounds[n], policy.maxRetries);
      var all := Invoked(rounds);
      assert all[|all| - 1].1;
    } else {
      AllFail(rounds, policy.maxRetries);
    }
  }

  lemma {:induction false} LastSucceeds(failed: seq<(nat, bool)>, round: Round, retries: int)
    requires (forall k :: 0 <= k < |failed| ==> !failed[k].1) && Succeeds(round, retries)
    ensures var all := failed + ResultsOf(round);
      all != [] && forall k :: 0 <= k < |all| ==> (all[k].1 <==> k == |all| - 1)
  {
  }

  lemma {:induction false} AllFail(rounds: seq<Round>, retries: int)
    requires forall r :: 0 <= r < |rounds| ==> Exhausted(rounds[r], retries)
    ensures forall k :: 0 <= k < |Invoked(rounds)| ==> !Invoked(rounds)[k].1
  {
    if rounds != [] {
      AllFail(rounds[..|rounds| - 1], retries);
    }
  }

  /** Failed invocations of one endpoint. */
  function Failures(records: seq<(nat, bool)>, place: nat): nat {
    if records == [] then 0
    else Failures(records[..|records| - 1], place) + if records[|records| - 1] == (place, false) then 1 else 0
  }

  lemma {:induction false} FailuresAppend(a: seq<(nat, bool)>, b: seq<(nat, bool)>, place: nat)
    ensures Failures(a + b, place) == Failures(a, place) + Failures(b, place)
  {
    if b == [] { assert a + b == a; } else {
      FailuresAppend(a, b[..|b| - 1], place);
      assert (a + b)[..|a + b| - 1] == a + b[..|b| - 1];
    }
  }

  lemma {:induction false} RoundFailures(round: Round, place: nat)
    requires forall k :: 0 <= k < |round.results| ==> !round.results[k]
    ensures Failures(ResultsOf(round), place) == if place == round.place then |round.results| else 0
    decreases |round.results|
  {
    if round.results != [] {
      var n := |round.results| - 1;
      RoundFailures(round.(results := round.results[..n]), place);
      OneMoreResult(round.place, round.at, round.results);
    }
  }

  ghost predicate HasRound(rounds: seq<Round>, place: nat) {
    exists r :: 0 <= r < |rounds| && rounds[r].place == place
  }

  lemma {:induction false} HasRoundNext(rounds: seq<Round>, place: nat)
    requires rounds != [] && DistinctPlaces(rounds)
    ensures var n := |rounds| - 1;
      && (HasRound(rounds, place) <==> HasRound(rounds[..n], place) || rounds[n].place == place)
      && !(HasRound(rounds[..n], place) && rounds[n].place == place)
  {
    var n := |rounds| - 1;
    if HasRound(rounds[..n], place) {
      var r :| 0 <= r < n && rounds[..n][r].place == place;
      assert rounds[r].place == place;
    }
    if HasRound(rounds, place) && rounds[n].place != place {
      var r :| 0 <= r < |rounds| && rounds[r].place == place;
      assert rounds[..n][r].place == place;
    }
  }

  lemma {:induction false} ExhaustedFailures(rounds: seq<Round>, retries: int, place: nat)
    requires DistinctPlaces(rounds) && forall r :: 0 <= r < |rounds| ==> Exhausted(rounds[r], retries)
    ensures Failures(Invoked(rounds), place) == if HasRound(rounds, place) && retries >= 1 then retries else 0
  {
    if rounds != [] {
      var n := |rounds| - 1;
      ExhaustedFailures(rounds[..n], retries, place);
      RoundFailures(rounds[n], place);
      FailuresAppend(Invoked(rounds[..n]), ResultsOf(rounds[n]), place);
      HasRoundNext(rounds, place);
    }
  }

  /** A call gives up only when every endpoint is out of traffic or its invocation has failed once for
   *  each retry allowed. */
  lemma {:induction false} GivesUpExhausted(eps: seq<Endpoint>, policy: Policy, log: seq<Entry>, rounds: seq<Round>,
          i: nat)
    requires Outcome(eps, policy, log, rounds, false) && i < |eps|
    requires forall j, k :: 0 <= j < k < |eps| ==> eps[j].spec.name != eps[k].spec.name
    ensures Replay(eps, policy, log)[i].circuit == Open
      || Failures(Recorded(log), i) == if policy.maxRetries >= 1 then policy.maxRetries else 0
  {
    ExhaustedFailures(rounds, policy.maxRetries, i);
    if eps[i].spec.name in Names(eps, rounds) {
      var r :| r in rounds && r.place < |eps| && eps[r.place].spec.name == eps[i].spec.name;
      var k :| 0 <= k < |rounds| && rounds[k] == r;
      assert rounds[k].place == i;
    }
  }

  // ---- facts the call's loops need

  lemma {:induction false} RecordedAppend(a: seq<Entry>, b: seq<Entry>)
    ensures Recorded(a + b) == Recorded(a) + Recorded(b)
  {
    if b == [] { assert a + b == a; } else {
      RecordedAppend(a, b[..|b| - 1]);
      assert (a + b)[..|a + b| - 1] == a + b[..|b| - 1];
    }
  }

  lemma {:induction false} NothingRecorded(log: seq<Entry>)
    requires forall i :: 0 <= i < |log| ==> !log[i].own
    ensures Recorded(log) == []
  {
    if log != [] { NothingRecorded(log[..|log| - 1]); }
  }

  /** Changes made by others. */
  function Foreign(entries: seq<Entry>): seq<Entry> {
    seq(|entries|, i requires 0 <= i < |entries| => entries[i].(own := false))
  }

  /** One endpoint's check: others act while the ping is pending, then its result is recorded. */
  function CheckLog(k: nat, ok: bool, ts: int, others: seq<Entry>): seq<Entry> {
    Foreign(others) + [Entry(k, Pinged(ok, ts), false)]
  }

  /** A health pass over the first `k` endpoints; those without a health URL are skipped. */
  function PassLog(specs: seq<Spec>, oks: seq<bool>, times: seq<int>, others: seq<seq<Entry>>, k: nat): seq<Entry>
    requires k <= |specs| && |oks| == |times| == |others| == |specs|
  {
    if k == 0 then []
    else
      var before := PassLog(specs, oks, times, others, k - 1);
      if specs[k - 1].healthUrl then before + CheckLog(k - 1, oks[k - 1], times[k - 1], others[k - 1])
      else before
  }

  // ---- the endpoint map

  /** Specifications as a map keeps them: each name at its first place, with its last value. */
  function Merged(specs: seq<Spec>): seq<Spec> {
    var names := NamesInOrder(specs);
    seq(|names|, i requires 0 <= i < |names| => LastNamed(specs, names[i]))
  }

  /** The names, each at its first place. */
  function NamesInOrder(specs: seq<Spec>): seq<string> {
    if specs == [] then []
    else
      var before := NamesInOrder(specs[..|specs| - 1]);
      var name := specs[|specs| - 1].name;
      if name in before then before else before + [name]
  }

  /** The last specification with the name; a nameless default when there is none. */
  function LastNamed(specs: seq<Spec>, name: string): Spec {
    if specs == [] then Spec(name, None, None, None, false)
    else if specs[|specs| - 1].name == name then specs[|specs| - 1]
    else LastNamed(specs[..|specs| - 1], name)
  }

  lemma {:induction false} MergedNames(specs: seq<Spec>, name: string)
    ensures LastNamed(specs, name).name == name
  {
    if specs != [] { MergedNames(specs[..|specs| - 1], name); }
  }

  /** The last specification of a name. */
  ghost predicate IsLastNamed(specs: seq<Spec>, spec: Spec) {
    exists k :: 0 <= k < |specs| && specs[k] == spec && forall l :: k < l < |specs| ==> specs[l].name != spec.name
  }

  /** The one name is mentioned before the other. */
  ghost predicate NamedBefore(specs: seq<Spec>, a: string, b: string) {
    exists k :: 0 <= k < |specs| && specs[k].name == a && forall l :: 0 <= l <= k ==> specs[l].name != b
  }

  ghost predicate Mentioned(specs: seq<Spec>, name: string) { exists k :: 0 <= k < |specs| && specs[k].name == name }

  lemma {:induction false} NamesAre(specs: seq<Spec>, name: string)
    ensures name in NamesInOrder(specs) <==> Mentioned(specs, name)
  {
    if specs != [] {
      var n := |specs| - 1;
      NamesAre(specs[..n], name);
      if Mentioned(specs[..n], name) {
        var k :| 0 <= k < n && specs[..n][k].name == name;
        assert specs[k].name == name;
      }
      if Mentioned(specs, name) && specs[n].name != name {
        var k :| 0 <= k < |specs| && specs[k].name == name;
        assert specs[..n][k].name == name;
      }
    }
  }

  lemma {:induction false} LastNamedIs(specs: seq<Spec>, name: string)
    requires Mentioned(specs, name)
    ensures LastNamed(specs, name).name == name && IsLastNamed(specs, LastNamed(specs, name))
  {
    var n := |specs| - 1;
    if specs[n].name != name {
      var m :| 0 <= m < |specs| && specs[m].name == name;
      assert specs[..n][m].name == name;
      LastNamedIs(specs[..n], name);
      LastNamedStays(specs[..n], LastNamed(specs[..n], name), specs[n]);
      assert specs[..n] + [specs[n]] == specs;
    }
  }

  lemma {:induction false} LastNamedStays(specs: seq<Spec>, spec: Spec, more: Spec)
    requires IsLastNamed(specs, spec) && more.name != spec.name
    ensures IsLastNamed(specs + [more], spec)
  {
    var k :| 0 <= k < |specs| && specs[k] == spec && forall l :: k < l < |specs| ==> specs[l].name != spec.name;
    assert (specs + [more])[k] == spec;
  }

  lemma {:induction false} NamedBeforeStays(specs: seq<Spec>, more: seq<Spec>, a: string, b: string)
    requires specs <= more && NamedBefore(specs, a, b)
    ensures NamedBefore(more, a, b)
  {
    var k :| 0 <= k < |specs| && specs[k].name == a && forall l :: 0 <= l <= k ==> specs[l].name != b;
    assert more[k].name == a && forall l :: 0 <= l <= k ==> more[l] == specs[l];
  }

  ghost predicate InTurnNamed(specs: seq<Spec>, names: seq<string>) {
    forall i, j :: 0 <= i < j < |names| ==> NamedBefore(specs, names[i], names[j])
  }

  lemma {:induction false} NamesInTurn(specs: seq<Spec>)
    ensures InTurnNamed(specs, NamesInOrder(specs))
  {
    if specs != [] {
      var n := |specs| - 1;
      var before, names := NamesInOrder(specs[..n]), NamesInOrder(specs);
      NamesInTurn(specs[..n]);
      forall i, j | 0 <= i < j < |names| ensures NamedBefore(specs, names[i], names[j]) {
        if j < |before| {
          assert NamedBefore(specs[..n], before[i], before[j]);
          NamedBeforeStays(specs[..n], specs, names[i], names[j]);
        } else {
          NamesAre(specs[..n], names[i]);
          NamesAre(specs[..n], names[j]);
          var k :| 0 <= k < n && specs[..n][k].name == names[i];
          assert specs[k].name == names[i];
          forall l | 0 <= l <= k ensures specs[l].name != names[j] { assert specs[..n][l] == specs[l]; }
        }
      }
    }
  }

  /** Each name mentioned has one endpoint, with its last specification, in the order of first mention. */
  lemma {:induction false} MergedIs(specs: seq<Spec>)
    ensures var merged := Merged(specs);
      && (forall i :: 0 <= i < |merged| ==> IsLastNamed(specs, merged[i]))
      && (forall s :: s in specs ==> exists i :: 0 <= i < |merged| && merged[i].name == s.name)
      && (forall i, j :: 0 <= i < j < |merged| ==> NamedBefore(specs, merged[i].name, merged[j].name))
  {
    var names, merged := NamesInOrder(specs), Merged(specs);
    NamesInTurn(specs);
    forall i | 0 <= i < |merged| ensures IsLastNamed(specs, merged[i]) && merged[i].name == names[i] {
      NamesAre(specs, names[i]);
      LastNamedIs(specs, names[i]);
    }
    forall s | s in specs ensures exists i :: 0 <= i < |merged| && merged[i].name == s.name {
      var k :| 0 <= k < |specs| && specs[k] == s;
      assert Mentioned(specs, specs[k].name);
      NamesAre(specs, s.name);
      var i :| 0 <= i < |names| && names[i] == s.name;
      assert merged[i].name == s.name;
    }
  }

  lemma {:induction false} MergedNext(specs: seq<Spec>, spec: Spec, at: nat)
    requires at <= |Merged(specs)|
    requires at < |Merged(specs)| ==> Merged(specs)[at].name == spec.name
    requires forall k :: 0 <= k < at ==> Merged(specs)[k].name != spec.name
    ensures Merged(specs + [spec]) == if at < |Merged(specs)| then Merged(specs)[at := spec] else Merged(specs) + [spec]
  {
    var names := NamesInOrder(specs);
    assert (specs + [spec])[..|specs|] == specs;
    NamesDistinct(specs);
    forall i | 0 <= i < |names| ensures Merged(specs)[i].name == names[i] { MergedNames(specs, names[i]); }
  }

  lemma {:induction false} NamesDistinct(specs: seq<Spec>)
    ensures forall i, j :: 0 <= i < j < |NamesInOrder(specs)| ==> NamesInOrder(specs)[i] != NamesInOrder(specs)[j]
  {
    if specs != [] { NamesDistinct(specs[..|specs| - 1]); }
  }

  // ---- what a call's log holds, given the world

  /** The `n`-th clock readings from `tick` on. */
  function Readings(clock: nat -> int, tick: nat, n: nat): seq<int> {
    seq(n, i requires 0 <= i < n => clock(tick + i))
  }

  /** One attempt: the clock is read, others act while the invocation is pending, and the result is
   *  recorded with that reading, or with the time since then. */
  function AttemptLog(world: World, place: nat, tick: nat, calls: nat, ok: bool): seq<Entry> {
    var start := world.clock(tick);
    var event := if ok then Succeeded(world.clock(tick + 1) - start) else Failed(start);
    Foreign(world.others(calls)) + [Entry(place, event, true)]
  }

  /** The attempts of one round. */
  function RoundLog(world: World, place: nat, tick: nat, calls: nat, results: seq<bool>): seq<Entry> {
    if results == [] then []
    else
      var n := |results| - 1;
      RoundLog(world, place, tick, calls, results[..n]) + AttemptLog(world, place, tick + n, calls + n, results[n])
  }

  /** Clock readings used by rounds of failures over `n` endpoints: one for each probe and attempt. */
  function Ticks(n: nat, rounds: seq<Round>): nat {
    if rounds == [] then 0 else Ticks(n, rounds[..|rounds| - 1]) + n + |rounds[|rounds| - 1].results|
  }

  /** All endpoints are probed, then the picked one is tried; and so on. */
  function RoundsLog(world: World, n: nat, rounds: seq<Round>): seq<Entry> {
    if rounds == [] then []
    else
      var before, round := rounds[..|rounds| - 1], rounds[|rounds| - 1];
      RoundsLog(world, n, before) + ProbeLog(Readings(world.clock, Ticks(n, before), n))
      + RoundLog(world, round.place, Ticks(n, before) + n, Total(before), round.results)
  }

  /** A call's whole log: its rounds, and one more probing when nothing is left to pick although not
   *  all were tried. */
  function CallLog(world: World, eps: seq<Endpoint>, rounds: seq<Round>, ok: bool): seq<Entry> {
    if !ok && |Names(eps, rounds)| < |eps| then
      RoundsLog(world, |eps|, rounds) + ProbeLog(Readings(world.clock, Ticks(|eps|, rounds), |eps|))
    else RoundsLog(world, |eps|, rounds)
  }

  /** The rounds' results are the world's, one for each invocation. */
  ghost predicate ResultsFrom(world: World, calls: nat, results: seq<bool>) {
    forall k :: 0 <= k < |results| ==> results[k] == world.succeeds(calls + k)
  }

  ghost predicate AllResultsFrom(world: World, rounds: seq<Round>) {
    forall r :: 0 <= r < |rounds| ==> ResultsFrom(world, Total(rounds[..r]), rounds[r].results)
  }

  lemma {:induction false} ResultsNext(world: World, rounds: seq<Round>, round: Round)
    requires AllResultsFrom(world, rounds) && ResultsFrom(world, Total(rounds), round.results)
    ensures AllResultsFrom(world, rounds + [round])
  {
    var all := rounds + [round];
    forall r | 0 <= r < |all| ensures ResultsFrom(world, Total(all[..r]), all[r].results) {
      assert all[..r] == if r < |rounds| then rounds[..r] else rounds;
    }
  }

  lemma {:induction false} RoundLogNext(world: World, place: nat, tick: nat, calls: nat, results: seq<bool>, ok: bool)
    ensures RoundLog(world, place, tick, calls, results + [ok]) ==
      RoundLog(world, place, tick, calls, results) + AttemptLog(world, place, tick + |results|, calls + |results|, ok)
  {
    assert (results + [ok])[..|results|] == results;
  }

  /** A round's log records its results, each once. */
  lemma {:induction false} RoundRecords(world: World, place: nat, at: nat, tick: nat, calls: nat, results: seq<bool>)
    ensures Recorded(RoundLog(world, place, tick, calls, results)) == ResultsOf(Round(place, at, results))
  {
    if results != [] {
      var n := |results| - 1;
      var attempt := AttemptLog(world, place, tick + n, calls + n, results[n]);
      RoundRecords(world, place, at, tick, calls, results[..n]);
      AttemptRecords(world, place, tick + n, calls + n, results[n]);
      RecordedAppend(RoundLog(world, place, tick, calls, results[..n]), attempt);
      OneMoreResult(place, at, results);
    }
  }

  lemma {:induction false} OneMoreResult(place: nat, at: nat, results: seq<bool>)
    requires results != []
    ensures var n := |results| - 1;
      ResultsOf(Round(place, at, results)) == ResultsOf(Round(place, at, results[..n])) + [(place, results[n])]
  {
  }

  lemma {:induction false} AttemptRecords(world: World, place: nat, tick: nat, calls: nat, ok: bool)
    ensures Recorded(AttemptLog(world, place, tick, calls, ok)) == [(place, ok)]
  {
    var others := Foreign(world.others(calls));
    NothingRecorded(others);
    assert AttemptLog(world, place, tick, calls, ok)[..|others|] == others;
  }

  /** What a log says of this call's own invocations. */
  function OwnEvents(log: seq<Entry>): seq<Event> {
    if log == [] then []
    else if log[|log| - 1].own then OwnEvents(log[..|log| - 1]) + [log[|log| - 1].event]
    else OwnEvents(log[..|log| - 1])
  }

  lemma {:induction false} OwnEventsAppend(a: seq<Entry>, b: seq<Entry>)
    ensures OwnEvents(a + b) == OwnEvents(a) + OwnEvents(b)
  {
    if b == [] { assert a + b == a; } else {
      OwnEventsAppend(a, b[..|b| - 1]);
      assert (a + b)[..|a + b| - 1] == a + b[..|b| - 1];
    }
  }

  lemma {:induction false} NoOwnEvents(entries: seq<Entry>)
    ensures OwnEvents(Foreign(entries)) == []
  {
    if entries != [] {
      NoOwnEvents(entries[..|entries| - 1]);
      assert Foreign(entries)[..|entries| - 1] == Foreign(entries[..|entries| - 1]);
    }
  }

  /** A failure is recorded by when it began, a success by how long it took until the next reading. */
  predicate TimedAt(world: World, at: nat, ok: bool, event: Event) {
    if ok then event.Succeeded? && world.clock(at) + event.latency == world.clock(at + 1)
    else event == Failed(world.clock(at))
  }

  ghost predicate AllTimed(world: World, tick: nat, results: seq<bool>, events: seq<Event>) {
    && |events| == |results|
    && forall k :: 0 <= k < |results| ==> TimedAt(world, tick + k, results[k], events[k])
  }

  lemma {:induction false} TimedNext(world: World, tick: nat, results: seq<bool>, events: seq<Event>, ok: bool,
          event: Event)
    requires AllTimed(world, tick, results, events) && TimedAt(world, tick + |results|, ok, event)
    ensures AllTimed(world, tick, results + [ok], events + [event])
  {
  }

  lemma {:induction false} AttemptTimes(world: World, place: nat, tick: nat, calls: nat, ok: bool)
    ensures var events := OwnEvents(AttemptLog(world, place, tick, calls, ok));
      |events| == 1 && TimedAt(world, tick, ok, events[0])
  {
    var others := Foreign(world.others(calls));
    NoOwnEvents(world.others(calls));
    assert AttemptLog(world, place, tick, calls, ok)[..|others|] == others;
  }

  lemma {:induction false} JoinTimes(world: World, tick: nat, results: seq<bool>, ok: bool, before: seq<Entry>,
          attempt: seq<Entry>)
    requires AllTimed(world, tick, results, OwnEvents(before))
    requires |OwnEvents(attempt)| == 1 && TimedAt(world, tick + |results|, ok, OwnEvents(attempt)[0])
    ensures AllTimed(world, tick, results + [ok], OwnEvents(before + attempt))
  {
    OwnEventsAppend(before, attempt);
    TimedNext(world, tick, results, OwnEvents(before), ok, OwnEvents(attempt)[0]);
    assert OwnEvents(attempt) == [OwnEvents(attempt)[0]];
  }

  /** Every invocation of a round is recorded with a clock reading of its own, in order. */
  lemma {:induction false} RoundTimes(world: World, place: nat, tick: nat, calls: nat, results: seq<bool>)
    ensures AllTimed(world, tick, results, OwnEvents(RoundLog(world, place, tick, calls, results)))
  {
    if results != [] {
      var n := |results| - 1;
      var earlier, ok := results[..n], results[n];
      RoundTimes(world, place, tick, calls, earlier);
      AttemptTimes(world, place, tick + n, calls + n, ok);
      RoundLogNext(world, place, tick, calls, earlier, ok);
      JoinTimes(world, tick, earlier, ok, RoundLog(world, place, tick, calls, earlier),
        AttemptLog(world, place, tick + n, calls + n, ok));
      assert earlier + [ok] == results;
    }
  }

  /** Where the rounds so far stand in the world. */
  ghost predicate Traced(world: World, n: nat, log: seq<Entry>, rounds: seq<Round>, tick: nat, calls: nat) {
    log == RoundsLog(world, n, rounds) && AllResultsFrom(world, rounds) && tick == Ticks(n, rounds)
      && calls == Total(rounds)
  }

  lemma {:induction false} TracedNext(world: World, n: nat, log: seq<Entry>, probed: seq<Entry>, more: seq<Entry>,
          rounds: seq<Round>, tick: nat, calls: nat, round: Round)
    requires Traced(world, n, log, rounds, tick, calls) && ResultsFrom(world, calls, round.results)
    requires probed == log + ProbeLog(Readings(world.clock, tick, n))
    requires more == RoundLog(world, round.place, tick + n, calls, round.results)
    ensures Traced(world, n, probed + more, rounds + [round], tick + n + |round.results|, calls + |round.results|)
  {
    assert (rounds + [round])[..|rounds|] == rounds;
    ResultsNext(world, rounds, round);
  }

  lemma {:induction false} PickedInTurnExtends(eps: seq<Endpoint>, policy: Policy, draw: nat -> real, log: seq<Entry>,
          more: seq<Entry>, rounds: seq<Round>)
    requires PickedInTurn(eps, policy, draw, log, rounds)
    ensures PickedInTurn(eps, policy, draw, log + more, rounds)
  {
    forall r | 0 <= r < |rounds| ensures InTurn(eps, policy, draw, log + more, rounds, r) {
      assert InTurn(eps, policy, draw, log, rounds, r);
      assert (log + more)[..rounds[r].at] == log[..rounds[r].at];
    }
  }

  lemma {:induction false} PickedNext(eps: seq<Endpoint>, policy: Policy, draw: nat -> real, log: seq<Entry>,
          rounds: seq<Round>, round: Round)
    requires PickedInTurn(eps, policy, draw, log, rounds)
    requires round.place < |eps| && round.at <= |log|
    requires var pick := Pick(Replay(eps, policy, log[..round.at]), policy.strategy, Names(eps, rounds),
      draw(|rounds|));
      pick.Some? && pick.value.place == round.place
    ensures PickedInTurn(eps, policy, draw, log, rounds + [round])
  {
    var all := rounds + [round];
    forall r | 0 <= r < |all| ensures InTurn(eps, policy, draw, log, all, r) {
      if r < |rounds| {
        assert InTurn(eps, policy, draw, log, rounds, r);
        assert all[..r] == rounds[..r] && all[r] == rounds[r];
      } else {
        assert all[..r] == rounds;
      }
    }
  }

  lemma {:induction false} NamesNext(eps: seq<Endpoint>, rounds: seq<Round>, round: Round)
    requires round.place < |eps|
    ensures Names(eps, rounds + [round]) == Names(eps, rounds) + {eps[round.place].spec.name}
  {
  }

  lemma {:induction false} NewPlace(eps: seq<Endpoint>, rounds: seq<Round>, round: Round)
    requires DistinctPlaces(rounds) && round.place < |eps| && eps[round.place].spec.name !in Names(eps, rounds)
    ensures DistinctPlaces(rounds + [round])
  {
  }

  function AllNames(eps: seq<Endpoint>): set<string> {
    set i | 0 <= i < |eps| :: eps[i].spec.name
  }

  lemma {:induction false} FewNames(eps: seq<Endpoint>)
    ensures |AllNames(eps)| <= |eps|
  {
    if eps == [] {
      assert AllNames(eps) == {};
    } else {
      var n := |eps| - 1;
      FewNames(eps[..n]);
      assert AllNames(eps) == AllNames(eps[..n]) + {eps[n].spec.name} by {
        forall name ensures name in AllNames(eps) <==> name in AllNames(eps[..n]) || name == eps[n].spec.name {
          if name in AllNames(eps) {
            var i :| 0 <= i < |eps| && eps[i].spec.name == name;
            if i < n { assert eps[..n][i].spec.name == name; }
          }
          if name in AllNames(eps[..n]) {
            var i :| 0 <= i < n && eps[..n][i].spec.name == name;
            assert eps[i].spec.name == name;
          }
        }
      }
    }
  }

  /** As many distinct names tried as there are endpoints: all were tried. */
  lemma {:induction false} AllTried(eps: seq<Endpoint>, rounds: seq<Round>)
    requires |Names(eps, rounds)| >= |eps|
    ensures forall i :: 0 <= i < |eps| ==> eps[i].spec.name in Names(eps, rounds)
  {
    FewNames(eps);
    var tried, all := Names(eps, rounds), AllNames(eps);
    assert tried <= all;
    assert all == tried + (all - tried);
    assert |all| == |tried| + |all - tried|;
    assert forall i :: 0 <= i < |eps| ==> eps[i].spec.name in all;
  }
}
