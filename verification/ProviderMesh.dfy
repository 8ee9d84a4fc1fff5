/** The mesh as the object it is: endpoint states updated in place by picking and by recording. */
module ProviderMesh {
  import opened Wrappers
  import opened CircuitModel
  import opened Circuit
  import opened Routing
  import opened MeshModel

  class Mesh {
    const policy: Policy
    var endpoints: seq<EndpointState>   // in the Map's insertion order

    ghost predicate Valid()
      reads this
    {
      && Distinct(endpoints)
      && DistinctNames(endpoints)
    }

    /** `policy` has its defaults filled in. A name given twice keeps its first place and takes the
     *  last specification. */
    constructor (specs: seq<Spec>, policy: Policy)
      ensures Valid() && fresh(endpoints) && this.policy == policy
      ensures Specs(endpoints) == Merged(specs)
      ensures forall i :: 0 <= i < |endpoints| ==> endpoints[i].Value() == New(endpoints[i].spec)
    {
      this.policy := policy;
      var eps := Build(specs);
      endpoints := eps;
    }

    static method Build(specs: seq<Spec>) returns (eps: seq<EndpointState>)
      ensures fresh(eps) && Distinct(eps) && DistinctNames(eps)
      ensures Specs(eps) == Merged(specs)
      ensures forall i :: 0 <= i < |eps| ==> eps[i].Value() == New(eps[i].spec)
    {
      eps := [];
      for k := 0 to |specs|
        invariant fresh(eps) && Distinct(eps) && DistinctNames(eps)
        invariant Specs(eps) == Merged(specs[..k])
        invariant forall i :: 0 <= i < |eps| ==> eps[i].Value() == New(eps[i].spec)
      {
        assert specs[..k + 1] == specs[..k] + [specs[k]];
        eps := Put(eps, specs[..k], specs[k]);
      }
      assert specs[..|specs|] == specs;
    }

    /** A map's `set`: the name's place stays, or a new one is appended. */
    static method Put(eps: seq<EndpointState>, ghost before: seq<Spec>, spec: Spec) returns (all: seq<EndpointState>)
      requires Distinct(eps) && DistinctNames(eps) && Specs(eps) == Merged(before)
      requires forall i :: 0 <= i < |eps| ==> eps[i].Value() == New(eps[i].spec)
      ensures fresh(set e | e in all && e !in eps) && Distinct(all) && DistinctNames(all)
      ensures Specs(all) == Merged(before + [spec])
      ensures forall i :: 0 <= i < |all| ==> all[i].Value() == New(all[i].spec)
    {
      var at := IndexOf(eps, spec.name);
      var state := new EndpointState(spec);
      SetKeepsNames(eps, at, state);
      MergedNext(before, spec, at);
      all := SetAt(eps, at, state);
    }

    static function Specs(eps: seq<EndpointState>): seq<Spec> {
      seq(|eps|, i requires 0 <= i < |eps| => eps[i].spec)
    }

    static function SetAt(eps: seq<EndpointState>, at: nat, state: EndpointState): seq<EndpointState>
      requires at <= |eps|
    {
      if at < |eps| then eps[at := state] else eps + [state]
    }

    static ghost predicate DistinctNames(eps: seq<EndpointState>) {
      forall i, j :: 0 <= i < j < |eps| ==> eps[i].spec.name != eps[j].spec.name
    }

    static lemma {:induction false} SetKeepsNames(eps: seq<EndpointState>, at: nat, state: EndpointState)
      requires Distinct(eps) && DistinctNames(eps) && state !in eps && at <= |eps|
      requires at < |eps| ==> eps[at].spec.name == state.spec.name
      requires at == |eps| ==> forall k :: 0 <= k < |eps| ==> eps[k].spec.name != state.spec.name
      ensures Distinct(SetAt(eps, at, state)) && DistinctNames(SetAt(eps, at, state))
      ensures Specs(SetAt(eps, at, state)) == if at < |eps| then Specs(eps)[at := state.spec]
        else Specs(eps) + [state.spec]
    {
    }

    static method IndexOf(eps: seq<EndpointState>, name: string) returns (i: nat)
      ensures i <= |eps|
      ensures i < |eps| ==> eps[i].spec.name == name
      ensures forall k :: 0 <= k < i ==> eps[k].spec.name != name
    {
      i := 0;
      while i < |eps| && eps[i].spec.name != name
        invariant i <= |eps| && forall k :: 0 <= k < i ==> eps[k].spec.name != name
      {
        i := i + 1;
      }
    }

    method Probe(k: nat, now: int) returns (ok: bool)
      requires Valid() && k < |endpoints|
      modifies endpoints
      ensures Values(endpoints) == Apply(old(Values(endpoints)), policy, Entry(k, Probed(now), false))
      ensures ok <==> endpoints[k].circuit != Open
    {
      ok := IsAvailable(endpoints[k], policy, now);
    }

    /** Whatever the entry says happened to its endpoint happens. */
    method Record(e: Entry)
      requires Valid()
      modifies endpoints
      ensures Values(endpoints) == Apply(old(Values(endpoints)), policy, e)
    {
      if e.place < |endpoints| {
        var ep := endpoints[e.place];
        match e.event
        case Probed(now) => var _ := IsAvailable(ep, policy, now);
        case Succeeded(latency) => RecordSuccess(ep, latency);
        case Failed(start) => RecordFailure(ep, policy, start);
        case Pinged(ok, ts) => RecordPing(ep, ok, ts);
      }
    }

    method PickEndpoint(tried: set<string>, nows: seq<int>, draw: real) returns (pick: Option<nat>)
      requires Valid() && |nows| == |endpoints|
      modifies endpoints
      ensures Values(endpoints) == Replay(old(Values(endpoints)), policy, ProbeLog(nows))
      ensures var chosen := Pick(Values(endpoints), policy.strategy, tried, draw);
        pick == if chosen.Some? then Some(chosen.value.place) else None
    {
      var candidates := Available(tried, nows);
      var chosen := PickByStrategy(policy.strategy, candidates, draw);
      pick := if chosen.Some? then Some(chosen.value.place) else None;
    }

    /** The endpoints that take traffic and were not tried, each probed in turn. */
    method Available(tried: set<string>, nows: seq<int>) returns (candidates: seq<Candidate>)
      requires Valid() && |nows| == |endpoints|
      modifies endpoints
      ensures Values(endpoints) == Replay(old(Values(endpoints)), policy, ProbeLog(nows))
      ensures candidates == Candidates(Values(endpoints), tried, |endpoints|)
    {
      candidates := [];
      ghost var init := Values(endpoints);
      for k := 0 to |endpoints|
        invariant ProbedSoFar(init, Values(endpoints), policy, nows, tried, k, candidates)
      {
        ghost var before := Values(endpoints);
        var more := Consider(tried, k, nows[k]);
        OneMoreProbe(init, before, Values(endpoints), policy, nows, tried, k, candidates);
        candidates := candidates + more;
      }
      assert ProbeLog(nows)[..|endpoints|] == ProbeLog(nows);
    }

    /** One endpoint is probed, and is a candidate if it takes traffic and was not tried. */
    method Consider(tried: set<string>, k: nat, now: int) returns (more: seq<Candidate>)
      requires Valid() && k < |endpoints|
      modifies endpoints
      ensures Values(endpoints) == Apply(old(Values(endpoints)), policy, Entry(k, Probed(now), false))
      ensures more == if Eligible(Values(endpoints)[k], tried) then [Candidate(k, Values(endpoints)[k])] else []
    {
      var ok := Probe(k, now);
      more := if ok && endpoints[k].spec.name !in tried then [Candidate(k, endpoints[k].Value())] else [];
    }

    /** The first `k` endpoints were probed, and `candidates` are those of them to pick from. */
    static ghost predicate ProbedSoFar(init: seq<Endpoint>, now: seq<Endpoint>, policy: Policy, nows: seq<int>,
            tried: set<string>, k: nat, candidates: seq<Candidate>) {
      && k <= |nows| == |init| && now == Replay(init, policy, ProbeLog(nows)[..k])
      && candidates == Candidates(now, tried, k)
    }

    static lemma {:induction false} OneMoreProbe(init: seq<Endpoint>, before: seq<Endpoint>, after: seq<Endpoint>,
            policy: Policy, nows: seq<int>, tried: set<string>, k: nat, candidates: seq<Candidate>)
      requires ProbedSoFar(init, before, policy, nows, tried, k, candidates) && k < |nows|
      requires after == Apply(before, policy, Entry(k, Probed(nows[k]), false))
      ensures ProbedSoFar(init, after, policy, nows, tried, k + 1,
        candidates + if Eligible(after[k], tried) then [Candidate(k, after[k])] else [])
    {
      assert ProbeLog(nows)[..k + 1][..k] == ProbeLog(nows)[..k];
      CandidatesFrame(after, before, tried, k);
    }

    method Interfere(entries: seq<Entry>)
      requires Valid()
      modifies endpoints
      ensures Values(endpoints) == Replay(old(Values(endpoints)), policy, Foreign(entries))
    {
      for k := 0 to |entries|
        invariant Values(endpoints) == Replay(old(Values(endpoints)), policy, Foreign(entries)[..k])
      {
        Record(entries[k].(own := false));
        assert Foreign(entries)[..k + 1][..k] == Foreign(entries)[..k];
      }
      assert Foreign(entries)[..|entries|] == Foreign(entries);
    }

    /** One health pass. While an endpoint's ping is pending others act: `others[i]`. */
    method RunHealthChecks(oks: seq<bool>, times: seq<int>, others: seq<seq<Entry>>)
      requires Valid() && |oks| == |times| == |others| == |endpoints|
      modifies endpoints
      ensures Values(endpoints) == Replay(old(Values(endpoints)), policy,
        PassLog(Specs(endpoints), oks, times, others, |endpoints|))
    {
      ghost var init := Values(endpoints);
      ghost var specs := Specs(endpoints);
      for k := 0 to |endpoints|
        invariant Values(endpoints) == Replay(init, policy, PassLog(specs, oks, times, others, k))
      {
        PassNext(init, policy, specs, oks, times, others, k);
        if endpoints[k].spec.healthUrl { CheckHealth(k, oks[k], times[k], others[k]); }
      }
    }

    static lemma {:induction false} PassNext(init: seq<Endpoint>, policy: Policy, specs: seq<Spec>, oks: seq<bool>,
            times: seq<int>, others: seq<seq<Entry>>, k: nat)
      requires k < |specs| && |oks| == |times| == |others| == |specs|
      ensures var before := Replay(init, policy, PassLog(specs, oks, times, others, k));
        Replay(init, policy, PassLog(specs, oks, times, others, k + 1)) ==
          if specs[k].healthUrl then Replay(before, policy, CheckLog(k, oks[k], times[k], others[k])) else before
    {
      ReplayAppend(init, policy, PassLog(specs, oks, times, others, k), CheckLog(k, oks[k], times[k], others[k]));
    }

    method CheckHealth(k: nat, ok: bool, ts: int, others: seq<Entry>)
      requires Valid() && k < |endpoints|
      modifies endpoints
      ensures Values(endpoints) == Replay(old(Values(endpoints)), policy, CheckLog(k, ok, ts, others))
    {
      var ping := Entry(k, Pinged(ok, ts), false);
      Interfere(others);
      Record(ping);
      assert (Foreign(others) + [ping])[..|others|] == Foreign(others);
    }

    /** One attempt: read the clock, invoke while others act, record the result. */
    method Attempt(world: World, place: nat, tick: nat, calls: nat) returns (ok: bool, tick': nat)
      requires Valid() && place < |endpoints|
      modifies endpoints
      ensures ok == world.succeeds(calls) && tick' == tick + if ok then 2 else 1
      ensures Values(endpoints) == Replay(old(Values(endpoints)), policy, AttemptLog(world, place, tick, calls, ok))
    {
      ghost var init := Values(endpoints);
      var start := world.clock(tick);
      tick' := tick + 1;
      Interfere(world.others(calls));
      ok := world.succeeds(calls);
      var entry := Entry(place, Failed(start), true);
      if ok {
        entry := Entry(place, Succeeded(world.clock(tick') - start), true);
        tick' := tick' + 1;
      }
      Record(entry);
      ReplayAppend(init, policy, Foreign(world.others(calls)), [entry]);
      assert [entry][..0] == [];
    }

    /** The retry loop on one picked endpoint: failures up to the number of retries, or a success
     *  before. */
    method TryEndpoint(world: World, place: nat, tick: nat, calls: nat)
            returns (ok: bool, results: seq<bool>, tick': nat)
      requires Valid() && place < |endpoints|
      modifies endpoints
      ensures Values(endpoints) == Replay(old(Values(endpoints)), policy, RoundLog(world, place, tick, calls, results))
      ensures ResultsFrom(world, calls, results)
      ensures if ok then OneSuccess(results, policy.maxRetries) else AllFailures(results, policy.maxRetries)
      ensures !ok ==> tick' == tick + |results|
    {
      ok, results, tick' := false, [], tick;
      ghost var init := Values(endpoints);
      while |results| < policy.maxRetries
        invariant !ok && FailedSoFar(world, calls, results, policy.maxRetries)
        invariant Tried(init, Values(endpoints), policy, world, place, tick, calls, results)
        invariant tick' == tick + |results|
        decreases policy.maxRetries - |results|
      {
        var call, at := calls + |results|, tick';
        ghost var before := Values(endpoints);
        ok, tick' := Attempt(world, place, at, call);
        OneMoreAttempt(init, before, Values(endpoints), policy, world, place, tick, calls, results, at, call, ok);
        MoreResults(world, calls, results, policy.maxRetries, ok);
        results := results + [ok];
        if ok { return; }
      }
    }

    /** What the attempts so far have made of the endpoints. */
    static ghost predicate Tried(init: seq<Endpoint>, now: seq<Endpoint>, policy: Policy, world: World, place: nat,
            tick: nat, calls: nat, results: seq<bool>) {
      now == Replay(init, policy, RoundLog(world, place, tick, calls, results))
    }

    /** Failures only, as the world has it, and no more than the retries. */
    static ghost predicate FailedSoFar(world: World, calls: nat, results: seq<bool>, retries: int) {
      && ResultsFrom(world, calls, results) && |results| <= (if retries > 0 then retries else 0)
      && forall k :: 0 <= k < |results| ==> !results[k]
    }

    static lemma {:induction false} MoreResults(world: World, calls: nat, results: seq<bool>, retries: int, ok: bool)
      requires FailedSoFar(world, calls, results, retries) && |results| < retries
        && ok == world.succeeds(calls + |results|)
      ensures ResultsFrom(world, calls, results + [ok])
      ensures if ok then OneSuccess(results + [ok], retries) else FailedSoFar(world, calls, results + [ok], retries)
    {
    }

    static lemma {:induction false} OneMoreAttempt(init: seq<Endpoint>, before: seq<Endpoint>, after: seq<Endpoint>,
            policy: Policy, world: World, place: nat, tick: nat, calls: nat, results: seq<bool>, at: nat, call: nat,
            ok: bool)
      requires Tried(init, before, policy, world, place, tick, calls, results) && at == tick + |results|
        && call == calls + |results|
      requires after == Replay(before, policy, AttemptLog(world, place, at, call, ok))
      ensures Tried(init, after, policy, world, place, tick, calls, results + [ok])
    {
      RoundLogNext(world, place, tick, calls, results, ok);
      ReplayAppend(init, policy, RoundLog(world, place, tick, calls, results), AttemptLog(world, place, at, call, ok));
    }

    /** A call under way, and where it stands in the world. */
    static ghost predicate Underway(init: seq<Endpoint>, policy: Policy, world: World, log: seq<Entry>,
            rounds: seq<Round>, tick: nat, calls: nat) {
      && InProgress(init, policy, world.draw, log, rounds)
      && Traced(world, |init|, log, rounds, tick, calls)
    }

    /** A call that has ended. */
    static ghost predicate Ended(init: seq<Endpoint>, policy: Policy, world: World, log: seq<Entry>,
            rounds: seq<Round>, ok: bool) {
      && Outcome(init, policy, log, rounds, ok) && PickedInTurn(init, policy, world.draw, log, rounds)
      && log == CallLog(world, init, rounds, ok) && AllResultsFrom(world, rounds)
    }

    /** After probing: the endpoint at `place` is the pick, and was not tried. */
    static ghost predicate Chosen(init: seq<Endpoint>, policy: Policy, world: World, probed: seq<Entry>,
            rounds: seq<Round>, place: nat) {
      && InProgress(init, policy, world.draw, probed, rounds)
      && place < |init| && init[place].spec.name !in Names(init, rounds)
      && var pick := Pick(Replay(init, policy, probed), policy.strategy, Names(init, rounds), world.draw(|rounds|));
         pick.Some? && pick.value.place == place
    }

    /** What an endpoint list has become. */
    ghost predicate At(init: seq<Endpoint>, log: seq<Entry>)
      reads this, endpoints
    {
      Values(endpoints) == Replay(init, policy, log)
    }

    /** Probing all endpoints and picking one; without a pick the call has ended. */
    method ProbeAndPick(world: World, ghost init: seq<Endpoint>, tried: set<string>, rounds: seq<Round>,
            log: seq<Entry>, tick: nat, ghost calls: nat)
      returns (pick: Option<nat>, probed: seq<Entry>)
      requires Valid() && |init| == |endpoints| && At(init, log)
      requires Underway(init, policy, world, log, rounds, tick, calls) && tried == Names(init, rounds)
        && |tried| < |init|
      modifies endpoints
      ensures At(init, probed) && probed == log + ProbeLog(Readings(world.clock, tick, |init|))
      ensures if pick.None? then Ended(init, policy, world, probed, rounds, false)
        else Chosen(init, policy, world, probed, rounds, pick.value)
    {
      var nows := Readings(world.clock, tick, |endpoints|);
      pick := PickEndpoint(tried, nows, world.draw(|rounds|));
      probed := log + ProbeLog(nows);
      ReplayAppend(init, policy, log, ProbeLog(nows));
      AfterProbing(init, policy, world, log, rounds, tick, calls);
    }

    static lemma {:induction false} AfterProbing(init: seq<Endpoint>, policy: Policy, world: World, log: seq<Entry>,
            rounds: seq<Round>, tick: nat, calls: nat)
      requires Underway(init, policy, world, log, rounds, tick, calls) && |Names(init, rounds)| < |init|
      ensures var probed := log + ProbeLog(Readings(world.clock, tick, |init|));
        var pick := Pick(Replay(init, policy, probed), policy.strategy, Names(init, rounds), world.draw(|rounds|));
        if pick.None? then Ended(init, policy, world, probed, rounds, false)
          else Chosen(init, policy, world, probed, rounds, pick.value.place)
    {
      var nows := Readings(world.clock, tick, |init|);
      Probing(init, policy, world.draw, log, nows, rounds);
      Picking(init, policy, world.draw, log + ProbeLog(nows), rounds);
    }

    /** Trying the pick adds one round, and ends the call if it succeeds. */
    method TryPick(world: World, ghost init: seq<Endpoint>, rounds: seq<Round>, ghost log: seq<Entry>,
            probed: seq<Entry>, place: nat, tick: nat, calls: nat)
      returns (ok: bool, round: Round, more: seq<Entry>, tick': nat)
      requires Valid() && |init| == |endpoints| && At(init, probed)
        && Chosen(init, policy, world, probed, rounds, place)
      requires Traced(world, |init|, log, rounds, tick, calls)
        && probed == log + ProbeLog(Readings(world.clock, tick, |init|))
      modifies endpoints
      ensures At(init, probed + more) && round.place == place
      ensures if ok then Ended(init, policy, world, probed + more, rounds + [round], true)
              else Underway(init, policy, world, probed + more, rounds + [round], tick', calls + |round.results|)
      ensures Names(init, rounds + [round]) == Names(init, rounds) + {init[place].spec.name}
    {
      var from := tick + |endpoints|;
      ghost var before := Values(endpoints);
      var results;
      ok, results, tick' := TryEndpoint(world, place, from, calls);
      round := Round(place, |probed|, results);
      more := RoundLog(world, place, from, calls, results);
      ReplayAppend(init, policy, probed, more);
      assert Values(endpoints) == Replay(before, policy, more);
      AfterTrying(world, |init|, log, probed, more, rounds, round, tick, from, calls);
      RoundEnds(init, policy, world, probed, more, rounds, round, from + |results|, calls + |results|, ok);
    }

    static lemma {:induction false} AfterTrying(world: World, n: nat, log: seq<Entry>, probed: seq<Entry>,
            more: seq<Entry>, rounds: seq<Round>, round: Round, tick: nat, from: nat, calls: nat)
      requires Traced(world, n, log, rounds, tick, calls) && from == tick + n
      requires probed == log + ProbeLog(Readings(world.clock, tick, n))
        && more == RoundLog(world, round.place, from, calls, round.results)
      requires ResultsFrom(world, calls, round.results)
      ensures Recorded(more) == ResultsOf(round)
      ensures Traced(world, n, probed + more, rounds + [round], from + |round.results|, calls + |round.results|)
    {
      RoundRecords(world, round.place, round.at, from, calls, round.results);
      TracedNext(world, n, log, probed, more, rounds, tick, calls, round);
    }

    static lemma {:induction false} RoundEnds(init: seq<Endpoint>, policy: Policy, world: World, probed: seq<Entry>,
            more: seq<Entry>, rounds: seq<Round>, round: Round, tick: nat, calls: nat, ok: bool)
      requires Chosen(init, policy, world, probed, rounds, round.place) && round.at == |probed|
      requires Recorded(more) == ResultsOf(round)
      requires if ok then Succeeds(round, policy.maxRetries) else Exhausted(round, policy.maxRetries)
      requires Traced(world, |init|, probed + more, rounds + [round], tick, calls)
      ensures Names(init, rounds + [round]) == Names(init, rounds) + {init[round.place].spec.name}
      ensures if ok then Ended(init, policy, world, probed + more, rounds + [round], true)
              else Underway(init, policy, world, probed + more, rounds + [round], tick, calls)
    {
      NextRound(init, policy, world.draw, probed, more, rounds, round, ok);
    }

    /** `call`: pick, retry, fail over. */
    method Call(world: World) returns (ok: bool, rounds: seq<Round>, log: seq<Entry>)
      requires Valid()
      modifies endpoints
      ensures Values(endpoints) == Replay(old(Values(endpoints)), policy, log)
      ensures Ended(old(Values(endpoints)), policy, world, log, rounds, ok)
    {
      ghost var init := Values(endpoints);
      var tried: set<string> := {};
      rounds, log, ok := [], [], false;
      var tick: nat, calls: nat := 0, 0;
      while |tried| < |endpoints|
        invariant !ok && tried == Names(init, rounds)
        invariant At(init, log) && Underway(init, policy, world, log, rounds, tick, calls)
        decreases |endpoints| - |tried|
      {
        var pick, probed := ProbeAndPick(world, init, tried, rounds, log, tick, calls);
        if pick.None? {
          log := probed;
          return;
        }
        ghost var before := |tried|;
        tried := tried + {endpoints[pick.value].spec.name};
        SameSpec(init, probed, pick.value);
        var round, more;
        ok, round, more, tick := TryPick(world, init, rounds, log, probed, pick.value, tick, calls);
        rounds := rounds + [round];
        log := probed + more;
        calls := calls + |round.results|;
        if ok { return; }
      }
      AllTried(init, rounds);
    }

    lemma {:induction false} SameSpec(init: seq<Endpoint>, log: seq<Entry>, i: nat)
      requires |init| == |endpoints| && At(init, log) && i < |init|
      ensures endpoints[i].spec == init[i].spec
    {
      ReplayKeepsSpecs(init, policy, log);
      assert endpoints[i].spec == Values(endpoints)[i].spec;
    }

    static lemma {:induction false} Probing(init: seq<Endpoint>, policy: Policy, draw: nat -> real, log: seq<Entry>,
            nows: seq<int>, rounds: seq<Round>)
      requires InProgress(init, policy, draw, log, rounds)
      ensures Replay(init, policy, log + ProbeLog(nows)) == Replay(Replay(init, policy, log), policy, ProbeLog(nows))
      ensures InProgress(init, policy, draw, log + ProbeLog(nows), rounds)
    {
      ReplayAppend(init, policy, log, ProbeLog(nows));
      RecordedAppend(log, ProbeLog(nows));
      NothingRecorded(ProbeLog(nows));
      PickedInTurnExtends(init, policy, draw, log, ProbeLog(nows), rounds);
    }

    static lemma {:induction false} Picking(init: seq<Endpoint>, policy: Policy, draw: nat -> real, log: seq<Entry>,
            rounds: seq<Round>)
      requires InProgress(init, policy, draw, log, rounds)
      ensures var pick := Pick(Replay(init, policy, log), policy.strategy, Names(init, rounds), draw(|rounds|));
        if pick.None? then Outcome(init, policy, log, rounds, false)
        else pick.value.place < |init| && init[pick.value.place].spec.name !in Names(init, rounds)
    {
      ReplayKeepsSpecs(init, policy, log);
      PickMeaning(Replay(init, policy, log), policy.strategy, Names(init, rounds), draw(|rounds|));
    }

    static lemma {:induction false} NextRound(init: seq<Endpoint>, policy: Policy, draw: nat -> real, log: seq<Entry>,
            more: seq<Entry>, rounds: seq<Round>, round: Round, ok: bool)
      requires InProgress(init, policy, draw, log, rounds)
      requires round.place < |init| && round.at == |log| && init[round.place].spec.name !in Names(init, rounds)
      requires var pick := Pick(Replay(init, policy, log), policy.strategy, Names(init, rounds), draw(|rounds|));
        pick.Some? && pick.value.place == round.place
      requires Recorded(more) == ResultsOf(round)
      requires if ok then Succeeds(round, policy.maxRetries) else Exhausted(round, policy.maxRetries)
      ensures Names(init, rounds + [round]) == Names(init, rounds) + {init[round.place].spec.name}
      ensures Replay(init, policy, log + more) == Replay(Replay(init, policy, log), policy, more)
      ensures PickedInTurn(init, policy, draw, log + more, rounds + [round])
      ensures if ok then Outcome(init, policy, log + more, rounds + [round], true)
        else InProgress(init, policy, draw, log + more, rounds + [round])
    {
      assert PickedInTurn(init, policy, draw, log + more, rounds + [round]) by {
        assert log[..|log|] == log;
        PickedNext(init, policy, draw, log, rounds, round);
        PickedInTurnExtends(init, policy, draw, log, more, rounds + [round]);
      }
      NewPlace(init, rounds, round);
      NamesNext(init, rounds, round);
      ReplayAppend(init, policy, log, more);
      RoundRecorded(log, more, rounds, round);
      if ok { EndsWell(init, policy, log + more, rounds, round); }
    }

    static lemma {:induction false} RoundRecorded(log: seq<Entry>, more: seq<Entry>, rounds: seq<Round>, round: Round)
      requires Recorded(log) == Invoked(rounds) && Recorded(more) == ResultsOf(round)
      ensures Recorded(log + more) == Invoked(rounds + [round])
    {
      RecordedAppend(log, more);
      assert (rounds + [round])[..|rounds|] == rounds;
    }

    static lemma {:induction false} EndsWell(init: seq<Endpoint>, policy: Policy, log: seq<Entry>, rounds: seq<Round>,
            round: Round)
      requires DistinctPlaces(rounds + [round]) && Recorded(log) == Invoked(rounds + [round])
      requires (forall r :: 0 <= r < |rounds| ==> Exhausted(rounds[r], policy.maxRetries))
        && Succeeds(round, policy.maxRetries)
      ensures Outcome(init, policy, log, rounds + [round], true)
    {
    }
  }
}
