/** How `recompute` turns window sums into effective weights. Floats are modelled as reals. */
module Scoring {
  import opened Arithmetic

  const DEFAULT_WEIGHT := 10
  const SCALE := 1000000000.0

  datatype Config = Config(buckets: int, bucketWidth: int, cpuFloor: int, successFloor: real) {
    /** What every core runs with: zero and negative fields take their defaults. */
    function WithDefaults(): (c: Config)
      ensures c.Ok()
      ensures Ok() ==> c == this
    {
      Config(if buckets <= 0 then 10 else buckets,
             if bucketWidth <= 0 then 300000000 else bucketWidth,
             if cpuFloor <= 0 then 10 else cpuFloor,
             if successFloor <= 0.0 then 0.1 else successFloor)
    }

    predicate Ok() {
      buckets > 0 && bucketWidth > 0 && cpuFloor > 0 && successFloor > 0.0
    }
  }

  /** What `recompute` reads from one node: failures and requests, latency sum and count, and the
      success ratio and CPU share that the server last reported. */
  datatype Reading = Reading(errs: int, reqs: int, latSum: int, latCnt: int, ss: real, cpu: int)

  /** The failure and latency windows count calls. */
  ghost predicate ReadingOk(r: Reading) {
    0 <= r.errs <= r.reqs && 0 <= r.latCnt
  }

  predicate Sampled(r: Reading) {
    r.reqs != 0 && r.latCnt != 0
  }

  function ClampSuccess(cs: real, reqs: int, floor: real): real {
    if cs <= 0.0 then floor
    else if cs <= 2.0 * floor && reqs <= 5 then 2.0 * floor
    else cs
  }

  function ClampFloor(v: real, floor: real): real {
    if v < floor then floor else v
  }

  function MaxInt(a: int, b: int): int {
    if a > b then a else b
  }

  function MaxReal(a: real, b: real): real {
    if a > b then a else b
  }

  function SuccessRate(r: Reading): real
    requires r.reqs != 0
  {
    1.0 - (r.errs as real) / (r.reqs as real)
  }

  function ClientSuccess(r: Reading, cfg: Config): real
    requires r.reqs != 0
  {
    ClampSuccess(SuccessRate(r), r.reqs, cfg.successFloor)
  }

  function ServerSuccess(r: Reading, cfg: Config): real {
    ClampFloor(r.ss, cfg.successFloor)
  }

  function Lag(r: Reading): real
    requires r.latCnt != 0
  {
    MaxReal((r.latSum as real) / (r.latCnt as real), 1.0)
  }

  function Cpu(r: Reading, cfg: Config): real {
    MaxInt(r.cpu, cfg.cpuFloor) as real
  }

  /** cs * ss^2 * 1e9 / (lag * cpu) */
  function Quotient(cs: real, ss: real, lag: real, cpu: real): real
    requires lag * cpu != 0.0
  {
    cs * ss * ss * SCALE / (lag * cpu)
  }

  function Radicand(r: Reading, cfg: Config): real
    requires Sampled(r) && cfg.Ok()
  {
    ProductPositive(Lag(r), Cpu(r, cfg));
    Quotient(ClientSuccess(r, cfg), ServerSuccess(r, cfg), Lag(r), Cpu(r, cfg))
  }

  /** The library's square root. */
  ghost predicate IsSqrt(f: real -> real) {
    forall x: real :: x >= 0.0 ==> f(x) >= 0.0 && f(x) * f(x) == x
  }

  function Score(r: Reading, cfg: Config, sqrt: real -> real): real
    requires cfg.Ok()
  {
    if Sampled(r) then sqrt(Radicand(r, cfg)) else 0.0
  }

  /** Truncation toward zero of a score times a weight, and never below 1. */
  function Weigh(score: real, weight: int): (ewt: int)
    ensures ewt >= 1
  {
    MaxInt(1, Truncate(score * weight as real))
  }

  function Truncate(x: real): int {
    if x >= 0.0 then x.Floor else -((-x).Floor)
  }

  // ---------------------------------------------------------------- the whole pass

  function Scores(rs: seq<Reading>, cfg: Config, sqrt: real -> real): (s: seq<real>)
    requires cfg.Ok()
    ensures |s| == |rs| && forall i | 0 <= i < |rs| :: s[i] == Score(rs[i], cfg, sqrt)
  {
    seq(|rs|, i requires 0 <= i < |rs| => Score(rs[i], cfg, sqrt))
  }

  function SampledCount(rs: seq<Reading>): nat {
    if rs == [] then 0 else SampledCount(rs[..|rs|-1]) + if Sampled(rs[|rs|-1]) then 1 else 0
  }

  function TotalScore(rs: seq<Reading>, cfg: Config, sqrt: real -> real): real
    requires cfg.Ok()
  {
    if rs == [] then 0.0
    else TotalScore(rs[..|rs|-1], cfg, sqrt) + Score(rs[|rs|-1], cfg, sqrt)
  }

  function Average(rs: seq<Reading>, cfg: Config, sqrt: real -> real): real
    requires cfg.Ok() && SampledCount(rs) > 0
  {
    TotalScore(rs, cfg, sqrt) / (SampledCount(rs) as real)
  }

  /** The weights after a pass over nodes with readings `rs`, configured weights `ws` and old
      effective weights `es`. With no sample anywhere nothing changes. */
  function NewWeights(rs: seq<Reading>, ws: seq<int>, es: seq<int>, cfg: Config, sqrt: real -> real): (r: seq<int>)
    requires cfg.Ok() && |rs| == |ws| == |es|
    ensures |r| == |rs|
  {
    if SampledCount(rs) == 0 then es
    else seq(|rs|, i requires 0 <= i < |rs| => NewWeight(rs, ws, i, cfg, sqrt))
  }

  function NewWeight(rs: seq<Reading>, ws: seq<int>, i: nat, cfg: Config, sqrt: real -> real): (e: int)
    requires cfg.Ok() && |rs| == |ws| && i < |rs| && SampledCount(rs) > 0
    ensures e >= 1
  {
    var s := Score(rs[i], cfg, sqrt);
    Weigh(if s <= 0.0 then Average(rs, cfg, sqrt) else s, ws[i])
  }

  // ---------------------------------------------------------------- arithmetic of the formula

  lemma {:induction false} ProductInOrder(a: real, b: real, c: real, d: real)
    requires 0.0 <= a <= b && 0.0 <= c <= d
    ensures 0.0 <= a * c <= b * d
  {
    assert a * c <= b * c;
    assert b * c <= b * d;
  }

  lemma {:induction false} QuotientInOrder(a: real, b: real, c: real, d: real)
    requires 0.0 <= a <= b && c >= d > 0.0
    ensures 0.0 <= a / c <= b / d
  {
    DivisionFits(a, c);
    DivisionFits(b, d);
    NonNegativeQuotient(a, c);
    if a / c > b / d {
      ProductGrows(b / d, a / c, d, c);
    }
  }

  lemma {:induction false} DivisionFits(a: real, c: real)
    requires c > 0.0
    ensures (a / c) * c == a
  {}

  lemma {:induction false} NonNegativeQuotient(a: real, c: real)
    requires a >= 0.0 && c > 0.0
    ensures a / c >= 0.0
  {}

  lemma {:induction false} NegativeProduct(x: real, c: real)
    requires x < 0.0 && c > 0.0
    ensures x * c < 0.0
  {}

  lemma {:induction false} ProductGrows(x: real, y: real, d: real, c: real)
    requires x < y && 0.0 < d <= c && 0.0 <= x * d
    ensures x * d < y * c
  {
    assert x * d < y * d;
    assert y >= 0.0 by {
      if y < 0.0 { NegativeProduct(y, d); }
    }
    assert y * d <= y * c;
  }

  lemma {:induction false} SquaresInOrder(a: real, b: real)
    requires a >= 0.0 && b >= 0.0 && a * a <= b * b
    ensures a <= b
  {
    if a > b {
      ProductPositive(a - b, a + b);
    }
  }

  lemma {:induction false} TruncateInOrder(x: real, y: real)
    requires 0.0 <= x <= y
    ensures 0 <= Truncate(x) <= Truncate(y)
  {}

  /** Raising success, or lowering latency or CPU, does not lower the radicand. */
  lemma {:induction false} QuotientMonotone(cs: real, ss: real, lag: real, cpu: real,
                                            cs': real, ss': real, lag': real, cpu': real)
    requires 0.0 <= cs <= cs' && 0.0 <= ss <= ss' && lag >= lag' > 0.0 && cpu >= cpu' > 0.0
    ensures lag * cpu > 0.0 && lag' * cpu' > 0.0
    ensures 0.0 <= Quotient(cs, ss, lag, cpu) <= Quotient(cs', ss', lag', cpu')
  {
    ProductInOrder(cs, cs', ss, ss');
    ProductInOrder(cs * ss, cs' * ss', ss, ss');
    ProductInOrder(cs * ss * ss, cs' * ss' * ss', SCALE, SCALE);
    ProductPositive(lag, cpu);
    ProductPositive(lag', cpu');
    ProductInOrder(lag', lag, cpu', cpu);
    QuotientInOrder(cs * ss * ss * SCALE, cs' * ss' * ss' * SCALE, lag * cpu, lag' * cpu');
  }

  // ---------------------------------------------------------------- bounds

  lemma {:induction false} RatesAreRates(r: Reading)
    requires ReadingOk(r) && r.reqs != 0
    ensures 0.0 <= SuccessRate(r) <= 1.0
  {
    QuotientInOrder(0.0, r.errs as real, r.reqs as real, r.reqs as real);
    QuotientInOrder(r.errs as real, r.reqs as real, r.reqs as real, r.reqs as real);
  }

  /** All four factors of a sampled node are strictly positive. */
  lemma {:induction false} FactorsPositive(r: Reading, cfg: Config)
    requires cfg.Ok() && Sampled(r)
    ensures ClientSuccess(r, cfg) > 0.0 && ServerSuccess(r, cfg) > 0.0
    ensures Lag(r) >= 1.0 && Cpu(r, cfg) >= cfg.cpuFloor as real > 0.0
  {}

  /** The formula never divides by zero, and a node has a positive score exactly when it was sampled;
      so the test `s <= 0` gives the average to exactly the unsampled nodes. */
  lemma {:induction false} PositiveIffSampled(r: Reading, cfg: Config, sqrt: real -> real)
    requires cfg.Ok() && IsSqrt(sqrt)
    ensures Sampled(r) ==> Lag(r) * Cpu(r, cfg) > 0.0 && Radicand(r, cfg) > 0.0
    ensures Score(r, cfg, sqrt) > 0.0 <==> Sampled(r)
  {
    if Sampled(r) {
      hide ClientSuccess, ServerSuccess, Lag, Cpu;
      FactorsPositive(r, cfg);
      var cs, ss, lag, cpu := ClientSuccess(r, cfg), ServerSuccess(r, cfg), Lag(r), Cpu(r, cfg);
      ProductPositive(lag, cpu);
      ProductPositive(cs, ss);
      ProductPositive(cs * ss, ss);
      ProductPositive(cs * ss * ss, SCALE);
      PositiveQuotient(cs * ss * ss * SCALE, lag * cpu);
      assert sqrt(Radicand(r, cfg)) * sqrt(Radicand(r, cfg)) == Radicand(r, cfg);
    }
  }

  lemma {:induction false} PositiveQuotient(a: real, c: real)
    requires a > 0.0 && c > 0.0
    ensures a / c > 0.0
  {}

  /** The most the radicand can be when no server reports a success ratio above `best`. The cold-start rate
      2 * floor can exceed 1, and so can the floor under a server's ratio. */
  function Ceiling(cfg: Config, best: real): real
    requires cfg.Ok()
  {
    ProductPositive(1.0, cfg.cpuFloor as real);
    Quotient(MaxReal(1.0, 2.0 * cfg.successFloor), MaxReal(best, cfg.successFloor), 1.0, cfg.cpuFloor as real)
  }

  lemma {:induction false} RadicandBound(r: Reading, cfg: Config, best: real)
    requires cfg.Ok() && Sampled(r) && ReadingOk(r) && r.ss <= best
    ensures 0.0 <= Radicand(r, cfg) <= Ceiling(cfg, best)
  {
    RatesAreRates(r);
    FactorsPositive(r, cfg);
    ProductPositive(1.0, cfg.cpuFloor as real);
    hide Quotient;
    QuotientMonotone(ClientSuccess(r, cfg), ServerSuccess(r, cfg), Lag(r), Cpu(r, cfg),
                     MaxReal(1.0, 2.0 * cfg.successFloor), MaxReal(best, cfg.successFloor), 1.0, cfg.cpuFloor as real);
  }

  lemma {:induction false} CeilingPositive(cfg: Config, best: real)
    requires cfg.Ok()
    ensures Ceiling(cfg, best) > 0.0
  {
    ProductPositive(1.0, cfg.cpuFloor as real);
    QuotientPositive(MaxReal(1.0, 2.0 * cfg.successFloor), MaxReal(best, cfg.successFloor), cfg.cpuFloor as real);
  }

  lemma {:induction false} QuotientPositive(cs: real, ss: real, f: real)
    requires cs > 0.0 && ss > 0.0 && f > 0.0
    ensures 1.0 * f > 0.0 && Quotient(cs, ss, 1.0, f) > 0.0
  {
    ProductPositive(cs, ss);
    ProductPositive(cs * ss, ss);
    ProductPositive(cs * ss * ss, SCALE);
    PositiveQuotient(cs * ss * ss * SCALE, 1.0 * f);
  }

  /** With a floor of at most 1/2 and honest ratios that is 1e9 / CPUFloorMilli. */
  lemma {:induction false} PlainCeiling(cfg: Config)
    requires cfg.Ok() && 2.0 * cfg.successFloor <= 1.0
    ensures Ceiling(cfg, 1.0) == SCALE / (cfg.cpuFloor as real)
  {}

  lemma {:induction false} ScoreBound(r: Reading, cfg: Config, best: real, sqrt: real -> real)
    requires cfg.Ok() && IsSqrt(sqrt) && ReadingOk(r) && r.ss <= best
    ensures Ceiling(cfg, best) > 0.0
    ensures 0.0 <= Score(r, cfg, sqrt) <= sqrt(Ceiling(cfg, best))
  {
    hide Radicand, Ceiling;
    CeilingPositive(cfg, best);
    if Sampled(r) {
      RadicandBound(r, cfg, best);
      RootsInOrder(sqrt, Radicand(r, cfg), Ceiling(cfg, best));
    }
  }

  /** A single call that succeeded. */
  const ONE_CALL := Reading(0, 1, 1, 1, 1.0, 0)

  /** Exactly for floors of at most 1/2 no node with honest ratios scores above sqrt(1e9 / CPUFloorMilli);
      for any larger floor one successful call does. */
  lemma {:induction false} PlainBoundIff(cfg: Config, sqrt: real -> real)
    requires cfg.Ok() && IsSqrt(sqrt)
    ensures (forall r | ReadingOk(r) && r.ss <= 1.0 :: Score(r, cfg, sqrt) <= sqrt(SCALE / (cfg.cpuFloor as real)))
            <==> 2.0 * cfg.successFloor <= 1.0
  {
    hide Ceiling, Radicand, IsSqrt, Score;
    if 2.0 * cfg.successFloor <= 1.0 {
      forall r | ReadingOk(r) && r.ss <= 1.0 ensures Score(r, cfg, sqrt) <= sqrt(SCALE / (cfg.cpuFloor as real)) {
        PlainCeiling(cfg);
        ScoreBound(r, cfg, 1.0, sqrt);
      }
    } else {
      OneCallScoresAbove(cfg, sqrt);
    }
  }

  lemma {:induction false} OneCallScoresAbove(cfg: Config, sqrt: real -> real)
    requires cfg.Ok() && IsSqrt(sqrt) && 2.0 * cfg.successFloor > 1.0
    ensures Score(ONE_CALL, cfg, sqrt) > sqrt(SCALE / (cfg.cpuFloor as real)) && ReadingOk(ONE_CALL)
        && ONE_CALL.ss <= 1.0
  {
    var f := cfg.cpuFloor as real;
    PositiveQuotient(SCALE, f);
    OneCallRadicand(cfg);
    hide Radicand;
    RootsInOrderIff(sqrt, Radicand(ONE_CALL, cfg), SCALE / f);
  }

  lemma {:induction false} OneCallRadicand(cfg: Config)
    requires cfg.Ok() && 2.0 * cfg.successFloor > 1.0
    ensures Radicand(ONE_CALL, cfg) > SCALE / (cfg.cpuFloor as real) && Radicand(ONE_CALL, cfg) >= 0.0
  {
    hide Quotient;
    var f, cs, ss := cfg.cpuFloor as real, 2.0 * cfg.successFloor, MaxReal(1.0, cfg.successFloor);
    assert ClientSuccess(ONE_CALL, cfg) == cs && ServerSuccess(ONE_CALL, cfg) == ss;
    assert Lag(ONE_CALL) == 1.0 && Cpu(ONE_CALL, cfg) == f;
    ProductPositive(1.0, f);
    LargerQuotient(cs, ss, f);
    PositiveQuotient(SCALE, f);
  }

  lemma {:induction false} LargerQuotient(cs: real, ss: real, f: real)
    requires cs > 1.0 && ss >= 1.0 && f > 0.0
    ensures 1.0 * f > 0.0 && Quotient(cs, ss, 1.0, f) > SCALE / f
  {
    ProductInOrder(1.0, ss, 1.0, ss);
    ProductGrows(1.0, cs, 1.0, ss * ss);
    assert cs * ss * ss == cs * (ss * ss);
    LargerNumerator(cs * ss * ss * SCALE, SCALE, f);
  }

  lemma {:induction false} LargerNumerator(a: real, b: real, f: real)
    requires a > b && f > 0.0
    ensures a / f > b / f
  {
    assert a / f - b / f == (a - b) / f;
    PositiveQuotient(a - b, f);
  }

  lemma {:induction false} RootsInOrder(sqrt: real -> real, x: real, y: real)
    requires IsSqrt(sqrt) && 0.0 <= x <= y
    ensures 0.0 <= sqrt(x) <= sqrt(y)
  {
    assert sqrt(x) * sqrt(x) == x && sqrt(y) * sqrt(y) == y;
    SquaresInOrder(sqrt(x), sqrt(y));
  }

  /** Between bounds on the scores lies their average over the sampled nodes. */
  lemma {:induction false} TotalBetween(rs: seq<Reading>, cfg: Config, sqrt: real -> real, lo: real, hi: real)
    requires cfg.Ok()
    requires forall i | 0 <= i < |rs| && Sampled(rs[i]) :: lo <= Score(rs[i], cfg, sqrt) <= hi
    ensures lo * (SampledCount(rs) as real) <= TotalScore(rs, cfg, sqrt) <= hi * (SampledCount(rs) as real)
  {
    hide Score;
    if rs != [] {
      var init, r := rs[..|rs|-1], rs[|rs|-1];
      TotalBetween(init, cfg, sqrt, lo, hi);
      if Sampled(r) {
        OneMoreBetween(lo, hi, SampledCount(init), TotalScore(init, cfg, sqrt), Score(r, cfg, sqrt));
      } else {
        UnsampledScoresZero(r, cfg, sqrt);
      }
    }
  }

  lemma {:induction false} OneMoreBetween(lo: real, hi: real, n: nat, total: real, x: real)
    requires lo * (n as real) <= total <= hi * (n as real) && lo <= x <= hi
    ensures lo * ((n + 1) as real) <= total + x <= hi * ((n + 1) as real)
  {
    assert lo * ((n + 1) as real) == lo * (n as real) + lo;
    assert hi * ((n + 1) as real) == hi * (n as real) + hi;
  }

  lemma {:induction false} UnsampledScoresZero(r: Reading, cfg: Config, sqrt: real -> real)
    requires cfg.Ok() && !Sampled(r)
    ensures Score(r, cfg, sqrt) == 0.0
  {}

  lemma {:induction false} AverageBetween(rs: seq<Reading>, cfg: Config, sqrt: real -> real, lo: real, hi: real)
    requires cfg.Ok() && SampledCount(rs) > 0
    requires forall i | 0 <= i < |rs| && Sampled(rs[i]) :: lo <= Score(rs[i], cfg, sqrt) <= hi
    ensures lo <= Average(rs, cfg, sqrt) <= hi
  {
    hide Score, TotalScore, SampledCount;
    TotalBetween(rs, cfg, sqrt, lo, hi);
    BetweenQuotient(lo, TotalScore(rs, cfg, sqrt), hi, SampledCount(rs) as real);
  }

  lemma {:induction false} BetweenQuotient(lo: real, x: real, hi: real, n: real)
    requires n > 0.0 && lo * n <= x <= hi * n
    ensures lo <= x / n <= hi
  {}

  lemma {:induction false} WeighInOrder(s: real, t: real, weight: int)
    requires 0.0 <= s <= t && weight >= 0
    ensures Weigh(s, weight) <= Weigh(t, weight)
  {
    ProductInOrder(s, t, weight as real, weight as real);
    TruncateInOrder(s * weight as real, t * weight as real);
  }

  /** Counts are counts, and no server reports a success ratio above `best`. */
  ghost predicate ReadingsOk(rs: seq<Reading>, best: real) {
    forall i | 0 <= i < |rs| :: ReadingOk(rs[i]) && rs[i].ss <= best
  }

  /** The most any node of configured weight `weight` can be given. */
  ghost function MostWeight(weight: int, cfg: Config, best: real, sqrt: real -> real): int
    requires cfg.Ok()
  {
    Weigh(sqrt(Ceiling(cfg, best)), weight)
  }

  /** No new weight is below 1 or above max(1, sqrt(ceiling) * weight). */
  lemma {:induction false} WeightBound(rs: seq<Reading>, ws: seq<int>, i: nat, cfg: Config, best: real,
                                       sqrt: real -> real)
    requires cfg.Ok() && IsSqrt(sqrt) && ReadingsOk(rs, best)
    requires |rs| == |ws| && i < |rs| && ws[i] >= 0 && SampledCount(rs) > 0
    ensures 1 <= NewWeight(rs, ws, i, cfg, sqrt) <= MostWeight(ws[i], cfg, best, sqrt)
  {
    hide Score, Weigh, Average, Ceiling;
    var top := sqrt(Ceiling(cfg, best));
    forall j | 0 <= j < |rs| ensures 0.0 <= Score(rs[j], cfg, sqrt) <= top {
      ScoreBound(rs[j], cfg, best, sqrt);
    }
    AverageBetween(rs, cfg, sqrt, 0.0, top);
    var s := Score(rs[i], cfg, sqrt);
    WeighInOrder(if s <= 0.0 then Average(rs, cfg, sqrt) else s, top, ws[i]);
  }

  /** That greatest weight without a square root: before the minimum of 1 it is the integer e with
      e^2 <= ceiling * weight^2 < (e + 1)^2. */
  lemma {:induction false} MostWeightSquared(weight: int, cfg: Config, best: real, sqrt: real -> real) returns (e: int)
    requires cfg.Ok() && IsSqrt(sqrt) && weight >= 0
    ensures MostWeight(weight, cfg, best, sqrt) == MaxInt(1, e)
    ensures FloorOfScaledRoot(e, Ceiling(cfg, best), weight)
  {
    hide IsSqrt, Weigh, Ceiling, FloorOfScaledRoot;
    CeilingPositive(cfg, best);
    SquareOfRoot(sqrt, Ceiling(cfg, best));
    e := ScaledRoot(sqrt(Ceiling(cfg, best)), Ceiling(cfg, best), weight);
  }

  lemma {:induction false} TruncatedSquare(p: real)
    requires p >= 0.0
    ensures var e := Truncate(p);
            e >= 0 && (e * e) as real <= p * p < ((e + 1) * (e + 1)) as real
  {
    var e := Truncate(p);
    ProductInOrder(e as real, p, e as real, p);
    StrictSquares(p, (e + 1) as real);
  }

  /** `e` is the whole part of sqrt(x) * weight, said without a square root. */
  ghost predicate FloorOfScaledRoot(e: int, x: real, weight: int) {
    e >= 0 && (e * e) as real <= x * (weight * weight) as real < ((e + 1) * (e + 1)) as real
  }

  /** What a sampled node's weight is, without a square root: before the minimum of 1 it is the
      integer e with e^2 <= X * weight^2 < (e + 1)^2. */
  lemma {:induction false} WeightSquared(r: Reading, weight: int, cfg: Config, sqrt: real -> real) returns (e: int)
    requires cfg.Ok() && IsSqrt(sqrt) && Sampled(r) && weight >= 0
    ensures Weigh(Score(r, cfg, sqrt), weight) == MaxInt(1, e)
    ensures FloorOfScaledRoot(e, Radicand(r, cfg), weight)
  {
    hide Radicand, IsSqrt, FloorOfScaledRoot, Weigh;
    ScoreIsRoot(r, cfg, sqrt);
    SquareOfRoot(sqrt, Radicand(r, cfg));
    e := ScaledRoot(Score(r, cfg, sqrt), Radicand(r, cfg), weight);
  }

  lemma {:induction false} SquareOfRoot(sqrt: real -> real, x: real)
    requires IsSqrt(sqrt) && x >= 0.0
    ensures sqrt(x) >= 0.0 && sqrt(x) * sqrt(x) == x
  {}

  lemma {:induction false} ScaledRoot(s: real, x: real, weight: int) returns (e: int)
    requires s >= 0.0 && s * s == x && weight >= 0
    ensures Weigh(s, weight) == MaxInt(1, e) && FloorOfScaledRoot(e, x, weight)
  {
    hide FloorOfScaledRoot;
    ProductInOrder(0.0, s, 0.0, weight as real);
    SquareOfProduct(s, x, weight);
    e := WholePart(s * weight as real, x, weight);
  }

  lemma {:induction false} WholePart(p: real, x: real, weight: int) returns (e: int)
    requires p >= 0.0 && p * p == x * (weight * weight) as real
    ensures e == Truncate(p) && FloorOfScaledRoot(e, x, weight)
  {
    hide Truncate, FloorOfScaledRoot;
    e := Truncate(p);
    TruncatedSquare(p);
    InFactors(e, p, x, weight);
  }

  lemma {:induction false} InFactors(e: int, p: real, x: real, weight: int)
    requires e >= 0 && (e * e) as real <= p * p < ((e + 1) * (e + 1)) as real
    requires p * p == x * (weight * weight) as real
    ensures FloorOfScaledRoot(e, x, weight)
  {}

  lemma {:induction false} SquareOfProduct(s: real, x: real, weight: int)
    requires s * s == x
    ensures s * weight as real * (s * weight as real) == x * (weight * weight) as real
  {
    Regroup(s, weight as real);
    assert weight as real * weight as real == (weight * weight) as real;
  }

  lemma {:induction false} Regroup(s: real, w: real)
    ensures s * w * (s * w) == s * s * (w * w)
  {}

  lemma {:induction false} StrictSquares(a: real, b: real)
    requires 0.0 <= a < b
    ensures a * a < b * b
  {
    ProductPositive(b - a, b + a);
  }

  // ---------------------------------------------------------------- fairness

  /** Two sampled nodes with equal configured weights: the one that is no worse in client success,
      server success, latency and CPU never gets the smaller weight. */
  lemma {:induction false} BetterNodeWeighsMore(r: Reading, r': Reading, weight: int, cfg: Config, sqrt: real -> real)
    requires cfg.Ok() && IsSqrt(sqrt) && weight >= 0 && Sampled(r) && Sampled(r')
    requires ClientSuccess(r, cfg) <= ClientSuccess(r', cfg)
    requires r.ss <= r'.ss && r.cpu >= r'.cpu
    requires (r.latSum as real) / (r.latCnt as real) >= (r'.latSum as real) / (r'.latCnt as real)
    ensures Weigh(Score(r, cfg, sqrt), weight) <= Weigh(Score(r', cfg, sqrt), weight)
  {
    FactorsPositive(r, cfg);
    FactorsPositive(r', cfg);
    QuotientMonotone(ClientSuccess(r, cfg), ServerSuccess(r, cfg), Lag(r), Cpu(r, cfg),
                     ClientSuccess(r', cfg), ServerSuccess(r', cfg), Lag(r'), Cpu(r', cfg));
    hide ClientSuccess, ServerSuccess, Lag, Cpu, Quotient;
    RootsInOrder(sqrt, Radicand(r, cfg), Radicand(r', cfg));
    WeighInOrder(sqrt(Radicand(r, cfg)), sqrt(Radicand(r', cfg)), weight);
  }

  /** Exactly when a higher success rate, over equally many requests, can lower the clamped rate:
      with more than 5 requests, from a rate of 0 to a positive rate below the floor. */
  lemma {:induction false} ClampMonotoneIff(a: real, b: real, reqs: int, floor: real)
    requires floor > 0.0 && a <= b
    ensures ClampSuccess(a, reqs, floor) <= ClampSuccess(b, reqs, floor)
            <==> !(reqs > 5 && a <= 0.0 && 0.0 < b < floor)
  {}

  lemma {:induction false} QuotientLinear(cs: real, ss: real, lag: real, cpu: real)
    requires lag * cpu > 0.0
    ensures Quotient(cs, ss, lag, cpu) == cs * Quotient(1.0, ss, lag, cpu)
  {}

  lemma {:induction false} RootsInOrderIff(sqrt: real -> real, x: real, y: real)
    requires IsSqrt(sqrt) && 0.0 <= x && 0.0 <= y
    ensures sqrt(x) <= sqrt(y) <==> x <= y
  {
    assert sqrt(x) * sqrt(x) == x && sqrt(y) * sqrt(y) == y;
    if x <= y {
      RootsInOrder(sqrt, x, y);
    } else if sqrt(x) <= sqrt(y) {
      ProductInOrder(sqrt(x), sqrt(y), sqrt(x), sqrt(y));
    }
  }

  /** Fewer failures over the same calls score no lower, with exactly one exception: out of more than 5
      calls, going from all failed to some success that is still below the floor. */
  lemma {:induction false} FewerFailuresScoreHigherIff(r: Reading, errs: int, cfg: Config, sqrt: real -> real)
    requires cfg.Ok() && IsSqrt(sqrt) && Sampled(r) && ReadingOk(r) && 0 <= errs <= r.errs
    ensures Score(r, cfg, sqrt) <= Score(r.(errs := errs), cfg, sqrt)
            <==> !(r.reqs > 5 && errs < r.errs == r.reqs && SuccessRate(r.(errs := errs)) < cfg.successFloor)
  {
    hide ClientSuccess, SuccessRate, Score;
    ClampedRateIff(r, errs, cfg);
    ScoreFollowsSuccess(r, errs, cfg, sqrt);
  }

  lemma {:induction false} ClampedRateIff(r: Reading, errs: int, cfg: Config)
    requires cfg.Ok() && r.reqs != 0 && ReadingOk(r) && 0 <= errs <= r.errs
    ensures ClientSuccess(r, cfg) <= ClientSuccess(r.(errs := errs), cfg)
            <==> !(r.reqs > 5 && errs < r.errs == r.reqs && SuccessRate(r.(errs := errs)) < cfg.successFloor)
  {
    RateDifference(r, errs);
    ClampMonotoneIff(SuccessRate(r), SuccessRate(r.(errs := errs)), r.reqs, cfg.successFloor);
    hide ClampSuccess, SuccessRate;
  }

  lemma {:induction false} ScoreFollowsSuccess(r: Reading, errs: int, cfg: Config, sqrt: real -> real)
    requires cfg.Ok() && IsSqrt(sqrt) && Sampled(r)
    ensures Score(r, cfg, sqrt) <= Score(r.(errs := errs), cfg, sqrt)
            <==> ClientSuccess(r, cfg) <= ClientSuccess(r.(errs := errs), cfg)
  {
    var r' := r.(errs := errs);
    assert Sampled(r');
    hide ClientSuccess, Radicand, Unit, IsSqrt, Score, Sampled;
    ScoreIsRoot(r, cfg, sqrt);
    ScoreIsRoot(r', cfg, sqrt);
    RootsInOrderIff(sqrt, Radicand(r, cfg), Radicand(r', cfg));
    RadicandFollowsSuccess(r, errs, cfg);
  }

  lemma {:induction false} ScoreIsRoot(r: Reading, cfg: Config, sqrt: real -> real)
    requires cfg.Ok() && IsSqrt(sqrt) && Sampled(r)
    ensures Score(r, cfg, sqrt) == sqrt(Radicand(r, cfg)) && Radicand(r, cfg) > 0.0
  {
    hide Radicand, IsSqrt;
    PositiveIffSampled(r, cfg, sqrt);
  }

  lemma {:induction false} RadicandFollowsSuccess(r: Reading, errs: int, cfg: Config)
    requires cfg.Ok() && Sampled(r) && Sampled(r.(errs := errs)) && Radicand(r, cfg) > 0.0
    ensures Radicand(r, cfg) <= Radicand(r.(errs := errs), cfg)
            <==> ClientSuccess(r, cfg) <= ClientSuccess(r.(errs := errs), cfg)
  {
    hide ClientSuccess, Radicand, Unit, ServerSuccess, Lag, Cpu;
    SameUnit(r, errs, cfg);
    FactorsPositive(r, cfg);
    RadicandLinear(r, cfg);
    RadicandLinear(r.(errs := errs), cfg);
    ScaledInOrderIff(ClientSuccess(r, cfg), ClientSuccess(r.(errs := errs), cfg), Unit(r, cfg));
  }

  lemma {:induction false} SameUnit(r: Reading, errs: int, cfg: Config)
    requires cfg.Ok() && Sampled(r)
    ensures Unit(r, cfg) == Unit(r.(errs := errs), cfg)
  {
    hide Quotient;
  }

  /** The radicand of a node whose calls all succeed. */
  function Unit(r: Reading, cfg: Config): real
    requires cfg.Ok() && Sampled(r)
  {
    ProductPositive(Lag(r), Cpu(r, cfg));
    Quotient(1.0, ServerSuccess(r, cfg), Lag(r), Cpu(r, cfg))
  }

  lemma {:induction false} RadicandLinear(r: Reading, cfg: Config)
    requires cfg.Ok() && Sampled(r)
    ensures Radicand(r, cfg) == ClientSuccess(r, cfg) * Unit(r, cfg)
  {
    FactorsPositive(r, cfg);
    hide ClientSuccess, ServerSuccess, Lag, Cpu, Quotient;
    ProductPositive(Lag(r), Cpu(r, cfg));
    QuotientLinear(ClientSuccess(r, cfg), ServerSuccess(r, cfg), Lag(r), Cpu(r, cfg));
  }

  lemma {:induction false} RateDifference(r: Reading, errs: int)
    requires ReadingOk(r) && r.reqs != 0 && 0 <= errs <= r.errs
    ensures 0.0 <= SuccessRate(r) <= SuccessRate(r.(errs := errs))
    ensures SuccessRate(r) == 0.0 <==> r.errs == r.reqs
    ensures SuccessRate(r.(errs := errs)) > 0.0 <==> errs < r.reqs
  {
    RatesAreRates(r);
    QuotientInOrder(errs as real, r.errs as real, r.reqs as real, r.reqs as real);
    DivisionFits(r.errs as real, r.reqs as real);
    DivisionFits(errs as real, r.reqs as real);
    RatesAreRates(r.(errs := errs));
  }

  lemma {:induction false} ScaledInOrderIff(a: real, b: real, k: real)
    requires a > 0.0 && a * k > 0.0
    ensures a <= b <==> a * k <= b * k
  {
    assert k > 0.0 by {
      if k <= 0.0 { NonPositiveProduct(a, k); }
    }
  }

  lemma {:induction false} NonPositiveProduct(a: real, k: real)
    requires a > 0.0 && k <= 0.0
    ensures a * k <= 0.0
  {}

  /** A node that fails all of 200 calls outweighs one that fails 198 of them. */
  lemma {:induction false} TotalFailureOutweighsNearFailure(sqrt: real -> real)
    requires IsSqrt(sqrt)
    ensures var cfg := Config(10, 300, 10, 0.1);
            var dead, poor := Reading(200, 200, 200000, 200, 1.0, 10), Reading(198, 200, 200000, 200, 1.0, 10);
            Weigh(Score(dead, cfg, sqrt), 10) > Weigh(Score(poor, cfg, sqrt), 10)
  {
    var cfg := Config(10, 300, 10, 0.1);
    var dead, poor := Reading(200, 200, 200000, 200, 1.0, 10), Reading(198, 200, 200000, 200, 1.0, 10);
    assert Radicand(dead, cfg) == 10000.0;
    assert Radicand(poor, cfg) == 1000.0;
    RootBetween(sqrt, 10000.0, 100.0, 101.0);
    RootBetween(sqrt, 1000.0, 31.0, 32.0);
    hide Radicand;
  }

  lemma {:induction false} RootBetween(sqrt: real -> real, x: real, lo: real, hi: real)
    requires IsSqrt(sqrt) && 0.0 <= lo < hi && lo * lo <= x < hi * hi
    ensures lo <= sqrt(x) < hi
  {
    assert sqrt(x) >= 0.0 && sqrt(x) * sqrt(x) == x;
    SquaresInOrder(lo, sqrt(x));
    if sqrt(x) >= hi {
      ProductInOrder(hi, sqrt(x), hi, sqrt(x));
    }
  }

  function LeastSampled(rs: seq<Reading>, cfg: Config, sqrt: real -> real): (i: nat)
    requires cfg.Ok() && SampledCount(rs) > 0
    ensures i < |rs| && Sampled(rs[i])
    ensures forall j | 0 <= j < |rs| && Sampled(rs[j]) :: Score(rs[i], cfg, sqrt) <= Score(rs[j], cfg, sqrt)
  {
    var init, last := rs[..|rs|-1], |rs| - 1;
    if SampledCount(init) == 0 then
      NoneSampled(init);
      last
    else
      var i := LeastSampled(init, cfg, sqrt);
      if Sampled(rs[last]) && Score(rs[last], cfg, sqrt) < Score(rs[i], cfg, sqrt) then last else i
  }

  function GreatestSampled(rs: seq<Reading>, cfg: Config, sqrt: real -> real): (i: nat)
    requires cfg.Ok() && SampledCount(rs) > 0
    ensures i < |rs| && Sampled(rs[i])
    ensures forall j | 0 <= j < |rs| && Sampled(rs[j]) :: Score(rs[j], cfg, sqrt) <= Score(rs[i], cfg, sqrt)
  {
    var init, last := rs[..|rs|-1], |rs| - 1;
    if SampledCount(init) == 0 then
      NoneSampled(init);
      last
    else
      var i := GreatestSampled(init, cfg, sqrt);
      if Sampled(rs[last]) && Score(rs[last], cfg, sqrt) > Score(rs[i], cfg, sqrt) then last else i
  }

  lemma {:induction false} NoneSampled(rs: seq<Reading>)
    ensures SampledCount(rs) == 0 <==> forall i | 0 <= i < |rs| :: !Sampled(rs[i])
  {
    if rs != [] {
      NoneSampled(rs[..|rs|-1]);
    }
  }

  /** A node without samples is not pushed to the margin: with equal configured weights its new weight
      lies between those of two sampled nodes. */
  lemma {:induction false} UnsampledInBetween(rs: seq<Reading>, ws: seq<int>, i: nat, cfg: Config, sqrt: real -> real)
    returns (lo: nat, hi: nat)
    requires cfg.Ok() && IsSqrt(sqrt) && |rs| == |ws| && i < |rs| && SampledCount(rs) > 0
    requires !Sampled(rs[i]) && forall j | 0 <= j < |ws| :: ws[j] == ws[i] >= 0
    ensures lo < |rs| && hi < |rs| && Sampled(rs[lo]) && Sampled(rs[hi])
    ensures NewWeight(rs, ws, lo, cfg, sqrt) <= NewWeight(rs, ws, i, cfg, sqrt) <= NewWeight(rs, ws, hi, cfg, sqrt)
  {
    hide Score, Weigh, Average, SampledCount;
    lo, hi := LeastSampled(rs, cfg, sqrt), GreatestSampled(rs, cfg, sqrt);
    PositiveIffSampled(rs[i], cfg, sqrt);
    PositiveIffSampled(rs[lo], cfg, sqrt);
    PositiveIffSampled(rs[hi], cfg, sqrt);
    AverageBetween(rs, cfg, sqrt, Score(rs[lo], cfg, sqrt), Score(rs[hi], cfg, sqrt));
    WeighInOrder(Score(rs[lo], cfg, sqrt), Average(rs, cfg, sqrt), ws[i]);
    WeighInOrder(Average(rs, cfg, sqrt), Score(rs[hi], cfg, sqrt), ws[i]);
  }
}
