/** Which of the available endpoints a strategy picks. Costs and latencies are reals; an unknown one
 *  is infinite. */
module Routing {
  import opened Wrappers
  import opened StableSort
  import opened CircuitModel

  /** A sort key; None is Infinity, and Infinity - Infinity compares as equal. */
  predicate Less(a: Option<real>, b: Option<real>) {
    a.Some? && (b.None? || a.value < b.value)
  }

  function Sum(xs: seq<int>): int {
    if xs == [] then 0 else Sum(xs[..|xs| - 1]) + xs[|xs| - 1]
  }

  function Avg(xs: seq<int>): Option<real> {
    if xs == [] then None else Some(Sum(xs) as real / |xs| as real)
  }

  method ComputeAvg(xs: seq<int>) returns (avg: Option<real>)
    ensures avg == Avg(xs)
  {
    if |xs| == 0 { return None; }
    var sum := 0;
    for i := 0 to |xs|
      invariant sum == Sum(xs[..i])
    {
      assert xs[..i + 1][..i] == xs[..i];
      sum := sum + xs[i];
    }
    assert xs[..|xs|] == xs;
    return Some(sum as real / |xs| as real);
  }

  function PriorityKey(ep: Endpoint): Option<real> {
    Some(if ep.spec.priority.Some? then ep.spec.priority.value else 0.0)
  }

  function CostKey(ep: Endpoint): Option<real> {
    if ep.spec.cost.Some? then Some(ep.spec.cost.value.input + ep.spec.cost.value.output) else None
  }

  function LatencyKey(ep: Endpoint): Option<real> {
    Avg(ep.latencies)
  }

  function WeightOf(ep: Endpoint): real {
    if ep.spec.weight.Some? then ep.spec.weight.value else 1.0
  }

  function TotalWeight(eps: seq<Endpoint>): real {
    if eps == [] then 0.0 else TotalWeight(eps[..|eps| - 1]) + WeightOf(eps[|eps| - 1])
  }

  /** Candidates keep their place in the endpoint map. */
  datatype Candidate = Candidate(place: nat, endpoint: Endpoint)

  predicate ByPriority(a: Candidate, b: Candidate) { Less(PriorityKey(a.endpoint), PriorityKey(b.endpoint)) }

  predicate ByCost(a: Candidate, b: Candidate) { Less(CostKey(a.endpoint), CostKey(b.endpoint)) }

  predicate ByLatency(a: Candidate, b: Candidate) { Less(LatencyKey(a.endpoint), LatencyKey(b.endpoint)) }

  function Endpoints(candidates: seq<Candidate>): seq<Endpoint> {
    seq(|candidates|, i requires 0 <= i < |candidates| => candidates[i].endpoint)
  }

  /** Subtracts weights from `r` from place `i` on until it is used up. */
  function Draw(candidates: seq<Candidate>, i: nat, r: real): (k: nat)
    requires i < |candidates|
    ensures k < |candidates|
    decreases |candidates| - i
  {
    if r - WeightOf(candidates[i].endpoint) <= 0.0 || i == |candidates| - 1 then i
    else Draw(candidates, i + 1, r - WeightOf(candidates[i].endpoint))
  }

  /** `rng() * totalWeight`. */
  function Scale(draw: real, total: real): real {
    draw * total
  }

  function Route(strategy: Strategy, candidates: seq<Candidate>, draw: real): Candidate
    requires candidates != []
  {
    SortSizes(candidates);
    match strategy
    case Failover => Sort(candidates, ByPriority)[0]
    case Weighted => candidates[Draw(candidates, 0, Scale(draw, TotalWeight(Endpoints(candidates))))]
    case CostFirst => Sort(candidates, ByCost)[0]
    case LatencyFirst => Sort(candidates, ByLatency)[0]
  }

  function PickByStrategy(strategy: Strategy, candidates: seq<Candidate>, draw: real): Option<Candidate> {
    if candidates == [] then None else Some(Route(strategy, candidates, draw))
  }

  lemma {:induction false} SortSizes(candidates: seq<Candidate>)
    ensures |Sort(candidates, ByPriority)| == |Sort(candidates, ByCost)| == |Sort(candidates, ByLatency)| ==
      |candidates|
  {
    SortSorts(candidates, ByPriority);
    SortSorts(candidates, ByCost);
    SortSorts(candidates, ByLatency);
  }

  method RouteWeighted(candidates: seq<Candidate>, draw: real) returns (pick: Candidate)
    requires candidates != []
    ensures pick == Route(Weighted, candidates, draw)
  {
    var totalWeight := 0.0;
    for i := 0 to |candidates|
      invariant totalWeight == TotalWeight(Endpoints(candidates[..i]))
    {
      assert Endpoints(candidates[..i + 1])[..i] == Endpoints(candidates[..i]);
      totalWeight := totalWeight + WeightOf(candidates[i].endpoint);
    }
    assert candidates[..|candidates|] == candidates;
    assert totalWeight == TotalWeight(Endpoints(candidates));
    var r := Scale(draw, totalWeight);
    ghost var target := Draw(candidates, 0, r);
    assert Route(Weighted, candidates, draw) == candidates[target];
    for i := 0 to |candidates|
      invariant if i < |candidates| then Draw(candidates, i, r) == target else target == |candidates| - 1
    {
      r := r - WeightOf(candidates[i].endpoint);
      if r <= 0.0 { return candidates[i]; }
    }
    return candidates[|candidates| - 1];
  }

  /** The deterministic strategies pick the leftmost candidate of least priority, cost or latency. */
  lemma {:induction false} RouteIsLeftmostLeast(strategy: Strategy, candidates: seq<Candidate>, draw: real)
    requires candidates != []
    ensures var pick := Route(strategy, candidates, draw);
      match strategy
      case Failover => LeftmostLeast(candidates, pick, ByPriority)
      case CostFirst => LeftmostLeast(candidates, pick, ByCost)
      case LatencyFirst => LeftmostLeast(candidates, pick, ByLatency)
      case Weighted => pick in candidates
  {
    HeadIsLeftmostLeast(candidates, ByPriority);
    HeadIsLeftmostLeast(candidates, ByCost);
    HeadIsLeftmostLeast(candidates, ByLatency);
  }

  // ---- the strategies in the numbers of the specifications

  /** Failover picks the lowest priority, zero where none is given, and of equals the first declared. */
  lemma {:induction false} FailoverPicksLowest(candidates: seq<Candidate>, draw: real)
    requires candidates != []
    ensures exists k ::
      0 <= k < |candidates| && Route(Failover, candidates, draw) == candidates[k] && Lowest(candidates, k)
  {
    RouteIsLeftmostLeast(Failover, candidates, draw);
    var pick := Route(Failover, candidates, draw);
    var k :| 0 <= k < |candidates| && candidates[k] == pick
      && (forall j :: 0 <= j < |candidates| ==> !ByPriority(candidates[j], pick))
      && (forall j :: 0 <= j < k ==> ByPriority(pick, candidates[j]));
    assert Lowest(candidates, k);
  }

  function Priority(spec: Spec): real {
    match spec.priority
    case None => 0.0
    case Some(p) => p
  }

  predicate Lowest(candidates: seq<Candidate>, k: nat)
    requires k < |candidates|
  {
    var p := Priority(candidates[k].endpoint.spec);
    && (forall j :: 0 <= j < |candidates| ==> p <= Priority(candidates[j].endpoint.spec))
    && (forall j :: 0 <= j < k ==> p < Priority(candidates[j].endpoint.spec))
  }

  /** Cost-first picks the lowest sum of input and output price, and of equals the first declared; an
   *  endpoint whose price is unknown only if no price is known, and then the first. */
  lemma {:induction false} CostFirstPicksCheapest(candidates: seq<Candidate>, draw: real)
    requires candidates != []
    ensures exists k ::
      0 <= k < |candidates| && Route(CostFirst, candidates, draw) == candidates[k] && Cheapest(candidates, k)
  {
    RouteIsLeftmostLeast(CostFirst, candidates, draw);
    var pick := Route(CostFirst, candidates, draw);
    var k :| 0 <= k < |candidates| && candidates[k] == pick
      && (forall j :: 0 <= j < |candidates| ==> !ByCost(candidates[j], pick))
      && (forall j :: 0 <= j < k ==> ByCost(pick, candidates[j]));
    if pick.endpoint.spec.cost.None? {
      assert !ByCost(pick, candidates[0]);
      forall j | 0 <= j < |candidates| ensures candidates[j].endpoint.spec.cost.None? {
        assert !ByCost(candidates[j], pick);
      }
    }
    assert Cheapest(candidates, k);
  }

  predicate Cheapest(candidates: seq<Candidate>, k: nat)
    requires k < |candidates|
  {
    match candidates[k].endpoint.spec.cost
    case None => k == 0 && forall j :: 0 <= j < |candidates| ==> candidates[j].endpoint.spec.cost.None?
    case Some(cost) =>
      && (forall j :: 0 <= j < |candidates| ==> CostsAtLeast(candidates[j].endpoint.spec, cost.input + cost.output))
      && (forall j :: 0 <= j < k ==> CostsMore(candidates[j].endpoint.spec, cost.input + cost.output))
  }

  predicate CostsAtLeast(spec: Spec, price: real) {
    spec.cost.Some? ==> spec.cost.value.input + spec.cost.value.output >= price
  }

  predicate CostsMore(spec: Spec, price: real) {
    spec.cost.Some? ==> spec.cost.value.input + spec.cost.value.output > price
  }

  /** Latency-first picks the lowest mean of the latency window, compared without dividing, and of equals
   *  the first declared; an endpoint without latencies only if there are none at all, and then the
   *  first. */
  lemma {:induction false} LatencyFirstPicksFastest(candidates: seq<Candidate>, draw: real)
    requires candidates != []
    ensures exists k ::
      0 <= k < |candidates| && Route(LatencyFirst, candidates, draw) == candidates[k] && Fastest(candidates, k)
  {
    RouteIsLeftmostLeast(LatencyFirst, candidates, draw);
    var pick := Route(LatencyFirst, candidates, draw);
    var k :| 0 <= k < |candidates| && candidates[k] == pick
      && (forall j :: 0 <= j < |candidates| ==> !ByLatency(candidates[j], pick))
      && (forall j :: 0 <= j < k ==> ByLatency(pick, candidates[j]));
    forall j | 0 <= j < |candidates|
      ensures ByLatency(candidates[j], pick) <==> Faster(candidates[j].endpoint.latencies, pick.endpoint.latencies)
      ensures ByLatency(pick, candidates[j]) <==> Faster(pick.endpoint.latencies, candidates[j].endpoint.latencies)
    {
      LessIsFaster(candidates[j].endpoint.latencies, pick.endpoint.latencies);
      LessIsFaster(pick.endpoint.latencies, candidates[j].endpoint.latencies);
    }
    assert Fastest(candidates, k);
  }

  function Added(xs: seq<int>): int { if xs == [] then 0 else xs[0] + Added(xs[1..]) }

  /** The mean of `a` is below that of `b`; no latencies are slower than any. */
  predicate Faster(a: seq<int>, b: seq<int>) {
    a != [] && (b == [] || Added(a) * |b| < Added(b) * |a|)
  }

  predicate Fastest(candidates: seq<Candidate>, k: nat)
    requires k < |candidates|
  {
    var window := candidates[k].endpoint.latencies;
    && (forall j :: 0 <= j < |candidates| ==> !Faster(candidates[j].endpoint.latencies, window))
    && (forall j :: 0 <= j < k ==> Faster(window, candidates[j].endpoint.latencies))
  }

  lemma {:induction false} AddedIsSum(xs: seq<int>)
    ensures Added(xs) == Sum(xs)
  {
    if xs != [] {
      AddedIsSum(xs[1..]);
      SumFirst(xs);
    }
  }

  lemma {:induction false} SumFirst(xs: seq<int>)
    requires xs != []
    ensures Sum(xs) == xs[0] + Sum(xs[1..])
  {
    var n := |xs| - 1;
    if n > 0 {
      SumFirst(xs[..n]);
      assert xs[..n][1..] == xs[1..][..n - 1];
    }
  }

  /** The mean, without dividing. */
  lemma {:induction false} MeanIs(xs: seq<int>)
    ensures match Avg(xs)
      case None => xs == []
      case Some(mean) => xs != [] && mean * |xs| as real == Added(xs) as real
  {
    AddedIsSum(xs);
  }

  lemma {:induction false} LessIsFaster(a: seq<int>, b: seq<int>)
    ensures Less(Avg(a), Avg(b)) <==> Faster(a, b)
  {
    AddedIsSum(a);
    AddedIsSum(b);
    if a != [] && b != [] { CrossMultiply(Sum(a), |a|, Sum(b), |b|); }
  }

  lemma {:induction false} CrossMultiply(a: int, m: nat, b: int, n: nat)
    requires m > 0 && n > 0
    ensures a as real / m as real < b as real / n as real <==> a * n < b * m
  {
    var x, y := a as real / m as real, b as real / n as real;
    assert x * m as real == a as real && y * n as real == b as real;
    var p, q := m as real, n as real;
    assert x * p * q == a as real * q && y * q * p == b as real * p;
    Scaled(x, y, p * q);
    assert a as real * q == (a * n) as real && b as real * p == (b * m) as real;
    assert x * (p * q) == x * p * q && y * (p * q) == y * q * p;
  }

  lemma {:induction false} Scaled(x: real, y: real, c: real)
    requires c > 0.0
    ensures x < y <==> x * c < y * c
  {
    if x < y { assert (y - x) * c > 0.0; } else { assert (x - y) * c >= 0.0; }
  }

  lemma {:induction false} RoutePicksCandidate(strategy: Strategy, candidates: seq<Candidate>, draw: real)
    requires candidates != []
    ensures Route(strategy, candidates, draw) in candidates
  {
    RouteIsLeftmostLeast(strategy, candidates, draw);
  }

  lemma {:induction false} DrawMeaning(candidates: seq<Candidate>, i: nat, r: real, k: nat)
    requires i < |candidates| && 0.0 < r
    requires forall j :: 0 <= j < |candidates| ==> WeightOf(candidates[j].endpoint) >= 0.0
    requires r <= WeightFrom(candidates, i, |candidates|)
    requires i <= k < |candidates|
    ensures Draw(candidates, i, r) == k <==> WeightFrom(candidates, i, k) < r <= WeightFrom(candidates, i, k + 1)
    decreases |candidates| - i
  {
    var w := WeightOf(candidates[i].endpoint);
    WeightGrows(candidates, i, i, k);
    WeightGrows(candidates, i, i, i + 1);
    WeightFirst(candidates, i, |candidates|);
    if r <= w {
      if k > i { WeightGrows(candidates, i, i + 1, k); WeightFirst(candidates, i, k); }
    } else {
      assert i < |candidates| - 1;
      WeightFirst(candidates, i, k + 1);
      if k > i {
        WeightFirst(candidates, i, k);
        DrawMeaning(candidates, i + 1, r - w, k);
      } else {
        assert Draw(candidates, i, r) == Draw(candidates, i + 1, r - w);
        DrawAhead(candidates, i + 1, r - w);
      }
    }
  }

  lemma {:induction false} DrawAhead(candidates: seq<Candidate>, i: nat, r: real)
    requires i < |candidates|
    ensures Draw(candidates, i, r) >= i
    decreases |candidates| - i
  {
    if !(r - WeightOf(candidates[i].endpoint) <= 0.0 || i == |candidates| - 1) {
      DrawAhead(candidates, i + 1, r - WeightOf(candidates[i].endpoint));
    }
  }

  /** Total weight of places `i` up to, not including, `k`. */
  function WeightFrom(candidates: seq<Candidate>, i: nat, k: nat): real
    requires i <= k <= |candidates|
  {
    if k == i then 0.0 else WeightFrom(candidates, i, k - 1) + WeightOf(candidates[k - 1].endpoint)
  }

  lemma {:induction false} WeightGrows(candidates: seq<Candidate>, i: nat, j: nat, k: nat)
    requires i <= j <= k <= |candidates|
    requires forall j :: 0 <= j < |candidates| ==> WeightOf(candidates[j].endpoint) >= 0.0
    ensures WeightFrom(candidates, i, j) <= WeightFrom(candidates, i, k)
  {
    if j < k { WeightGrows(candidates, i, j, k - 1); }
  }

  lemma {:induction false} WeightFirst(candidates: seq<Candidate>, i: nat, k: nat)
    requires i < k <= |candidates|
    ensures WeightFrom(candidates, i, k) == WeightOf(candidates[i].endpoint) + WeightFrom(candidates, i + 1, k)
  {
    if i + 1 < k { WeightFirst(candidates, i, k - 1); }
  }

  lemma {:induction false} TotalIsWeightFrom(candidates: seq<Candidate>, k: nat)
    requires k <= |candidates|
    ensures TotalWeight(Endpoints(candidates[..k])) == WeightFrom(candidates, 0, k)
  {
    if k > 0 {
      TotalIsWeightFrom(candidates, k - 1);
      assert Endpoints(candidates[..k])[..k - 1] == Endpoints(candidates[..k - 1]);
    }
  }

  lemma {:induction false} ScaleBounds(draw: real, total: real)
    requires 0.0 <= draw <= 1.0 && total > 0.0
    ensures 0.0 <= Scale(draw, total) <= total && (Scale(draw, total) > 0.0 <==> draw > 0.0)
  {
    MulMonotone(0.0, draw, total);
    MulMonotone(draw, 1.0, total);
    if draw > 0.0 { MulPositive(draw, total); }
  }

  lemma {:induction false} MulMonotone(a: real, b: real, c: real)
    requires a <= b && c >= 0.0
    ensures a * c <= b * c
  {
  }

  lemma {:induction false} MulPositive(a: real, b: real)
    requires a > 0.0 && b > 0.0
    ensures a * b > 0.0
  {
  }

  /** Weighted choice, with weights that are not negative and some weight to draw. A draw above zero
   *  picks the candidate whose share of the total weight it falls in, and the draw zero the first one;
   *  so a candidate of weight zero is picked exactly when the draw is zero and it comes first. */
  lemma {:induction false} WeightedShares(candidates: seq<Candidate>, draw: real, k: nat)
    requires candidates != [] && k < |candidates| && 0.0 <= draw <= 1.0
    requires forall j :: 0 <= j < |candidates| ==> WeightOf(candidates[j].endpoint) >= 0.0
    requires WeightFrom(candidates, 0, |candidates|) > 0.0
    ensures var target := Scale(draw, WeightFrom(candidates, 0, |candidates|));
      && Route(Weighted, candidates, draw) == candidates[Draw(candidates, 0, target)]
      && (Draw(candidates, 0, target) == k <==>
        if draw > 0.0 then WeightFrom(candidates, 0, k) < target <= WeightFrom(candidates, 0, k + 1) else k == 0)
    ensures WeightOf(Route(Weighted, candidates, draw).endpoint) > 0.0 <==>
      draw > 0.0 || WeightOf(candidates[0].endpoint) > 0.0
  {
    var total := WeightFrom(candidates, 0, |candidates|);
    var target := Scale(draw, total);
    assert candidates[..|candidates|] == candidates;
    TotalIsWeightFrom(candidates, |candidates|);
    ScaleBounds(draw, total);
    if draw > 0.0 {
      SharesAt(candidates, target, k);
      SharesAt(candidates, target, Draw(candidates, 0, target));
    }
  }

  /** The weights of the first `k` candidates together, one where none is given. */
  function WeightsBefore(candidates: seq<Candidate>, k: nat): real
    requires k <= |candidates|
  {
    if k == 0 then 0.0
    else
      WeightsBefore(candidates, k - 1) +
        match candidates[k - 1].endpoint.spec.weight
        case None => 1.0
        case Some(w) => w
  }

  lemma {:induction false} WeightsBeforeIs(candidates: seq<Candidate>, k: nat)
    requires k <= |candidates|
    ensures WeightsBefore(candidates, k) == WeightFrom(candidates, 0, k)
  {
    if k > 0 { WeightsBeforeIs(candidates, k - 1); }
  }

  /** In the specifications' numbers: a draw above zero picks the candidate `k` for which the draw times
   *  the total weight lies behind the weights before it and not behind its own. */
  lemma {:induction false} WeightedPicksShare(candidates: seq<Candidate>, draw: real, k: nat)
    requires k < |candidates| && 0.0 < draw <= 1.0
    requires forall j :: 0 <= j < |candidates| ==> WeightsBefore(candidates, j) <= WeightsBefore(candidates, j + 1)
    requires WeightsBefore(candidates, |candidates|) > 0.0
    requires var target := draw * WeightsBefore(candidates, |candidates|);
      WeightsBefore(candidates, k) < target <= WeightsBefore(candidates, k + 1)
    ensures Route(Weighted, candidates, draw) == candidates[k]
  {
    forall j | 0 <= j < |candidates| ensures WeightOf(candidates[j].endpoint) >= 0.0 {
      assert WeightsBefore(candidates, j + 1) == WeightsBefore(candidates, j) + WeightOf(candidates[j].endpoint);
    }
    WeightsBeforeIs(candidates, k);
    WeightsBeforeIs(candidates, k + 1);
    WeightsBeforeIs(candidates, |candidates|);
    assert draw * WeightsBefore(candidates, |candidates|) == Scale(draw, WeightFrom(candidates, 0, |candidates|));
    WeightedShares(candidates, draw, k);
  }

  lemma {:induction false} SharesAt(candidates: seq<Candidate>, target: real, k: nat)
    requires k < |candidates| && 0.0 < target <= WeightFrom(candidates, 0, |candidates|)
    requires forall j :: 0 <= j < |candidates| ==> WeightOf(candidates[j].endpoint) >= 0.0
    ensures Draw(candidates, 0, target) == k <==>
      WeightFrom(candidates, 0, k) < target <= WeightFrom(candidates, 0, k + 1)
    ensures Draw(candidates, 0, target) == k ==> WeightOf(candidates[k].endpoint) > 0.0
  {
    DrawMeaning(candidates, 0, target, k);
  }
}
