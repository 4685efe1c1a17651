/** Scores and picks together: how many nodes and how many overlapping picks the production configuration
    allows before a weight can leave the int64 range. */
module WeightLimits {
  import opened Arithmetic
  import opened ChangingNodes
  import opened Scoring
  import opened SeqSums
  import C = ConcurrentPick
  import F = OverlapFairness
  import O = OverlapBounds
  import SmoothWrr

  /** The most that a node of the default configured weight is given for each unit of success ratio. */
  const MOST_WEIGHT := 100000

  ghost function Production(): (cfg: Config)
    ensures cfg.Ok() && cfg.cpuFloor == 10 && 2.0 * cfg.successFloor <= 1.0
  {
    Config(0, 0, 0, 0.0).WithDefaults()
  }

  /** A weight a node can carry: the one it was made with, or one that some pass stored. Every node has
      the default configured weight, and servers report success ratios of at most `best`. */
  ghost predicate Carried(e: int, best: nat, sqrt: real -> real) {
    || e == DEFAULT_WEIGHT
    || exists rs, ws, i ::
         && |rs| == |ws| && 0 <= i < |rs| && SampledCount(rs) > 0
         && ReadingsOk(rs, best as real) && ws[i] == DEFAULT_WEIGHT
         && e == NewWeight(rs, ws, i, Production(), sqrt)
  }

  lemma {:induction false} CarriedIsBounded(e: int, best: nat, sqrt: real -> real)
    requires IsSqrt(sqrt) && best >= 1 && Carried(e, best, sqrt)
    ensures 1 <= e <= MOST_WEIGHT * best
  {
    hide NewWeight, IsSqrt, MostWeight, FloorOfScaledRoot;
    if e != DEFAULT_WEIGHT {
      var rs, ws, i :|
        && |rs| == |ws| && 0 <= i < |rs| && SampledCount(rs) > 0
        && ReadingsOk(rs, best as real) && ws[i] == DEFAULT_WEIGHT
        && e == NewWeight(rs, ws, i, Production(), sqrt);
      WeightBound(rs, ws, i, Production(), best as real, sqrt);
      var most := MostWeightSquared(DEFAULT_WEIGHT, Production(), best as real, sqrt);
      HonestCeiling(Production(), best);
      SquareLimit(most, best);
    }
  }

  lemma {:induction false} HonestCeiling(cfg: Config, best: nat)
    requires cfg.Ok() && cfg.cpuFloor == 10 && 2.0 * cfg.successFloor <= 1.0 && best >= 1
    ensures Ceiling(cfg, best as real) * (DEFAULT_WEIGHT * DEFAULT_WEIGHT) as real
         == (MOST_WEIGHT * best * (MOST_WEIGHT * best)) as real
  {
    assert MaxReal(1.0, 2.0 * cfg.successFloor) == 1.0 && MaxReal(best as real, cfg.successFloor) == best as real;
    assert (best * best) as real == best as real * best as real;
  }

  lemma {:induction false} SquareLimit(e: int, best: nat)
    requires best >= 1
    requires exists x :: FloorOfScaledRoot(e, x, DEFAULT_WEIGHT)
                      && x * (DEFAULT_WEIGHT * DEFAULT_WEIGHT) as real
                      == (MOST_WEIGHT * best * (MOST_WEIGHT * best)) as real
    ensures e <= MOST_WEIGHT * best
  {
    if e > MOST_WEIGHT * best {
      LargerSquare(e, MOST_WEIGHT * best);
    }
  }

  lemma {:induction false} LargerSquare(a: int, b: int)
    requires a > b >= 0
    ensures a * a > b * b
  {
    assert a * a - b * b == (a - b) * (a + b);
  }

  ghost predicate AllCarried(w: seq<int>, best: nat, sqrt: real -> real) {
    forall j | 0 <= j < |w| :: Carried(w[j], best, sqrt)
  }

  /** The most that one pick over n nodes can add up. */
  function MostTotal(n: nat, best: nat): int {
    n * (MOST_WEIGHT * best)
  }

  // ---------------------------------------------------------------- picks one at a time, nodes coming and going

  /** A run of picks and rebuilds of at most n nodes, picks reading whatever is stored. */
  ghost predicate Runs(c: seq<int>, chs: seq<Change>, c': seq<int>, n: nat, best: nat, sqrt: real -> real)
    decreases |chs|
  {
    if chs == [] then c' == c
    else
      match chs[0]
      case Pick(w) =>
        0 < |c| == |w| && AllCarried(w, best, sqrt) && Runs(SmoothWrr.Next(w, c), chs[1..], c', n, best, sqrt)
      case Rebuild(from) =>
        Takeover(from, |c|) && |from| <= n && Runs(Rebuilt(c, from), chs[1..], c', n, best, sqrt)
  }

  lemma {:induction false} CarriedTotal(w: seq<int>, n: nat, best: nat, sqrt: real -> real)
    requires IsSqrt(sqrt) && best >= 1 && AllCarried(w, best, sqrt) && |w| <= n
    ensures AllAtLeast(w, 1) && Sum(w) <= MostTotal(n, best)
  {
    hide Carried, IsSqrt, Sum;
    forall j | 0 <= j < |w| ensures 1 <= w[j] <= MOST_WEIGHT * best {
      CarriedIsBounded(w[j], best, sqrt);
    }
    SumAtMost(w, MOST_WEIGHT * best);
    InOrder(MOST_WEIGHT * best, |w|, n);
  }

  lemma {:induction false} RunsAreAllowed(c: seq<int>, chs: seq<Change>, c': seq<int>, n: nat, best: nat,
                                          sqrt: real -> real)
    requires IsSqrt(sqrt) && best >= 1 && |c| <= n && Runs(c, chs, c', n, best, sqrt)
    ensures Reaches(c, chs, c', n, MostTotal(n, best))
    decreases |chs|
  {
    hide AllCarried, IsSqrt, SmoothWrr.Next, Sum, MostTotal;
    if chs != [] {
      match chs[0] {
        case Pick(w) =>
          CarriedTotal(w, n, best, sqrt);
          RunsAreAllowed(SmoothWrr.Next(w, c), chs[1..], c', n, best, sqrt);
        case Rebuild(from) =>
          RunsAreAllowed(Rebuilt(c, from), chs[1..], c', n, best, sqrt);
      }
    }
  }

  /** Through every run of picks that do not overlap, whatever the balancer measures, stores and rebuilds: if
      (n + 1) * n * 100000 * best fits, no addition of the next pick overflows an int64, neither a raised
      weight nor the running total nor the winner's subtraction. */
  lemma {:induction false} NoOverflowInProduction(chs: seq<Change>, c: seq<int>, w: seq<int>, i: nat, n: nat, best: nat,
                                                  sqrt: real -> real)
    requires IsSqrt(sqrt) && best >= 1 && (n + 1) * MostTotal(n, best) <= INT64_MAX
    requires Runs([], chs, c, n, best, sqrt) && i < |c| == |w| && AllCarried(w, best, sqrt)
    ensures -INT64_MAX <= c[i] <= INT64_MAX
    ensures -INT64_MAX <= c[i] + w[i] <= INT64_MAX
    ensures 1 <= Sum(w[..i + 1]) <= Sum(w) <= INT64_MAX
    ensures -INT64_MAX <= SmoothWrr.Next(w, c)[i] <= INT64_MAX
  {
    hide AllCarried, IsSqrt, SmoothWrr.Next, Sum, Runs, Reaches;
    RunsAreAllowed([], chs, c, n, best, sqrt);
    InOrder(MOST_WEIGHT * best, 0, n);
    hide MostTotal;
    ChangingNodesStayBounded(chs, c, n, MostTotal(n, best), i);
    CarriedTotal(w, n, best, sqrt);
    ChangingNodes.NoOverflow(chs, c, w, n, MostTotal(n, best), i);
  }

  // ---------------------------------------------------------------- overlapping picks

  /** A run of picks over n nodes that overlap in any way, at most `width` at a time, while passes store
      weights in between. */
  ghost predicate Overlaps(run: seq<C.State>, ls: seq<C.Label>, width: nat, n: nat, best: nat, sqrt: real -> real) {
    && |run| == |ls| + 1
    && run[0].threads == [] && run[0].cwt == Zeros(n) && AllCarried(run[0].ewt, best, sqrt)
    && (forall i | 0 <= i < |run| :: C.Ok(run[i]) && |run[i].threads| <= width)
    && forall i | 0 <= i < |ls| ::
         C.Enabled(run[i], ls[i]) && Honest(ls[i], n, best, sqrt) && run[i + 1] == C.Step(run[i], ls[i])
  }

  ghost predicate Honest(l: C.Label, n: nat, best: nat, sqrt: real -> real) {
    match l
    case Begin(_, nodes) => F.ListsAll(nodes, n)
    case Store(_, w) => Carried(w, best, sqrt)
    case NewNode(_) => false
    case _ => true
  }

  /** A scan's total is at most the greatest weight for each node it has loaded. */
  ghost predicate Light(th: C.Thread, n: nat, most: int) {
    O.Scanning(th) ==> |th.nodes| == n && F.Loaded(th) <= n && th.total <= F.Loaded(th) * most
  }

  ghost predicate AllLight(s: C.State, n: nat, most: int) {
    && |s.cwt| == n
    && (forall j | 0 <= j < |s.ewt| :: 1 <= s.ewt[j] <= most)
    && forall t | 0 <= t < |s.threads| :: Light(s.threads[t], n, most)
  }

  /** The step stores no weight above `most`, and begins only picks that go over n nodes. */
  predicate Modest(l: C.Label, n: nat, most: int) {
    && !l.NewNode?
    && (l.Store? ==> 1 <= l.w <= most)
    && (l.Begin? ==> |l.nodes| == n)
  }

  lemma {:induction false} HonestIsModest(l: C.Label, n: nat, best: nat, sqrt: real -> real)
    requires IsSqrt(sqrt) && best >= 1 && Honest(l, n, best, sqrt)
    ensures Modest(l, n, MOST_WEIGHT * best)
  {
    hide IsSqrt, Carried;
    if l.Store? {
      CarriedIsBounded(l.w, best, sqrt);
    }
  }

  lemma {:induction false} StepKeepsLight(s: C.State, l: C.Label, n: nat, most: int)
    requires C.Ok(s) && C.Enabled(s, l) && Modest(l, n, most) && AllLight(s, n, most)
    ensures AllLight(C.Step(s, l), n, most)
  {
    O.SameWidth(s, l);
    hide Light, C.ThreadOk;
    match l {
      case Load(t) => LoadKeepsLight(s, t, n, most);
      case Add(t) => AddKeepsLight(s, t, n, most);
      case Begin(t, nodes) => BeginsLight(C.Step(s, l).threads[t], n, most);
      case Subtract(t) => RestsLight(C.Step(s, l).threads[t], n, most);
      case Count(t) => RestsLight(C.Step(s, l).threads[t], n, most);
      case Spawn => RestsLight(C.RESTING, n, most);
      case _ =>
    }
  }

  lemma {:induction false} LoadKeepsLight(s: C.State, t: nat, n: nat, most: int)
    requires C.Ok(s) && C.Enabled(s, C.Load(t)) && AllLight(s, n, most)
    ensures Light(C.Step(s, C.Load(t)).threads[t], n, most)
  {
    var th := s.threads[t];
    assert Light(th, n, most) && C.ThreadOk(th, |s.cwt|);
    hide AllLight, C.Ok;
    Distribute(th.pc.i, 1, most);
  }

  lemma {:induction false} AddKeepsLight(s: C.State, t: nat, n: nat, most: int)
    requires C.Ok(s) && C.Enabled(s, C.Add(t)) && AllLight(s, n, most)
    ensures Light(C.Step(s, C.Add(t)).threads[t], n, most)
  {
    assert Light(s.threads[t], n, most);
    hide AllLight;
  }

  lemma {:induction false} BeginsLight(th: C.Thread, n: nat, most: int)
    requires th.pc == C.Loading(0) && |th.nodes| == n && th.total == 0
    ensures Light(th, n, most)
  {
    assert 0 * most == 0;
  }

  lemma {:induction false} RestsLight(th: C.Thread, n: nat, most: int)
    requires !O.Scanning(th)
    ensures Light(th, n, most)
  {}

  lemma {:induction false} OverlapsAt(run: seq<C.State>, ls: seq<C.Label>, width: nat, n: nat, best: nat,
                                      sqrt: real -> real, i: nat)
    requires Overlaps(run, ls, width, n, best, sqrt) && i < |ls|
    ensures |run| == |ls| + 1 && C.Ok(run[i]) && C.Enabled(run[i], ls[i]) && Honest(ls[i], n, best, sqrt)
    ensures run[i + 1] == C.Step(run[i], ls[i])
  {}

  lemma {:induction false} AlwaysLight(run: seq<C.State>, ls: seq<C.Label>, width: nat, n: nat, best: nat,
                                       sqrt: real -> real, i: nat)
    requires IsSqrt(sqrt) && best >= 1 && Overlaps(run, ls, width, n, best, sqrt) && i < |run|
    ensures AllLight(run[i], n, MOST_WEIGHT * best)
  {
    hide C.Step, C.Enabled, Honest, Carried, IsSqrt, Light;
    if i == 0 {
      forall j | 0 <= j < |run[0].ewt| ensures 1 <= run[0].ewt[j] <= MOST_WEIGHT * best {
        CarriedIsBounded(run[0].ewt[j], best, sqrt);
      }
    } else {
      AlwaysLight(run, ls, width, n, best, sqrt, i - 1);
      OverlapsAt(run, ls, width, n, best, sqrt, i - 1);
      hide Overlaps;
      HonestIsModest(ls[i - 1], n, best, sqrt);
      StepKeepsLight(run[i - 1], ls[i - 1], n, MOST_WEIGHT * best);
    }
  }

  lemma {:induction false} LightIsAllowed(s: C.State, l: C.Label, n: nat, most: int)
    requires C.Ok(s) && C.Enabled(s, l) && Modest(l, n, most) && AllLight(s, n, most)
    requires most >= 0 && (l.Begin? ==> F.ListsAll(l.nodes, n))
    ensures O.Allowed(s, l, n * most)
  {
    hide C.BestSoFar;
    if l.Load? {
      var th := s.threads[l.t];
      assert Light(th, n, most) && C.ThreadOk(th, |s.cwt|);
      hide AllLight, C.Ok;
      Distribute(th.pc.i, 1, most);
      InOrder(most, th.pc.i + 1, n);
    }
  }

  lemma {:induction false} HonestListsAll(l: C.Label, n: nat, best: nat, sqrt: real -> real)
    requires Honest(l, n, best, sqrt)
    ensures l.Begin? ==> F.ListsAll(l.nodes, n)
  {}

  lemma {:induction false} OverlapsIsRun(run: seq<C.State>, ls: seq<C.Label>, width: nat, n: nat, best: nat,
                                         sqrt: real -> real)
    requires IsSqrt(sqrt) && best >= 1 && Overlaps(run, ls, width, n, best, sqrt)
    ensures O.IsRun(run, ls, width, MostTotal(n, best)) && |run[0].cwt| == n
  {
    hide C.Ok, C.Step, C.Enabled, Honest, IsSqrt, O.Allowed, Light, AllCarried, Modest;
    forall i | 0 <= i < |ls| ensures O.Allowed(run[i], ls[i], MostTotal(n, best)) {
      AlwaysLight(run, ls, width, n, best, sqrt, i);
      HonestIsModest(ls[i], n, best, sqrt);
      HonestListsAll(ls[i], n, best, sqrt);
      LightIsAllowed(run[i], ls[i], n, MOST_WEIGHT * best);
    }
    AlwaysLight(run, ls, width, n, best, sqrt, 0);
    TotalNotNegative(n, best);
  }

  lemma {:induction false} TotalNotNegative(n: nat, best: nat)
    ensures MostTotal(n, best) >= 0
  {
    InOrder(MOST_WEIGHT * best, 0, n);
  }

  /** The condition under which T overlapping picks over n nodes cannot overflow, and its consequence for every
      weight and every running total at every moment. */
  ghost predicate Fits(width: nat, n: nat, best: nat) {
    width * MostTotal(n, best) + n * (O.Depth(width + 1) * MostTotal(n, best)) <= INT64_MAX
  }

  lemma {:induction false} NoOverflowWhenOverlapping(run: seq<C.State>, ls: seq<C.Label>, width: nat, n: nat, best: nat,
                                                     sqrt: real -> real, i: nat)
    requires IsSqrt(sqrt) && best >= 1 && Overlaps(run, ls, width, n, best, sqrt) && i < |run|
    requires Fits(width, n, best)
    ensures forall j | 0 <= j < |run[i].cwt| :: -INT64_MAX <= run[i].cwt[j] <= INT64_MAX
    ensures forall t | 0 <= t < |run[i].threads| :: 0 <= run[i].threads[t].total <= INT64_MAX
  {
    hide Overlaps, IsSqrt, MostTotal, O.Depth, O.IsRun;
    OverlapsIsRun(run, ls, width, n, best, sqrt);
    O.OverlappingPicksFit(run, ls, width, MostTotal(n, best), i);
  }

  /** In numbers, for honest ratios: nine million nodes without overlap, or a thousand nodes with ten thousand
      picks at a time. */
  lemma {:induction false} InNumbers()
    ensures 9000001 * MostTotal(9000000, 1) <= INT64_MAX
    ensures Fits(10000, 1000, 1)
  {
    hide O.Depth;
    O.DepthClosed(10000);
  }
}
