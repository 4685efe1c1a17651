/** What a pass of `recompute` gives each node, said on the numbers it read: the counts, the sums, the reported
    ratio and CPU share, without the functions that compute it step by step. */
module Formula {
  import opened Arithmetic
  import opened Scoring

  // ---------------------------------------------------------------- one node

  /** The share of calls that did not fail, except that a node that failed all of them counts with the floor,
      and up to 5 calls count with at least twice the floor. */
  ghost predicate IsClientRate(cs: real, errs: int, reqs: int, floor: real) {
    if errs == reqs then cs == floor
    else if reqs <= 5 && (reqs - errs) as real <= 2.0 * floor * reqs as real then cs == 2.0 * floor
    else cs * reqs as real == (reqs - errs) as real
  }

  /** The mean latency in microseconds, but not below 1. */
  ghost predicate IsLag(lag: real, latSum: int, latCnt: int) {
    if latSum <= latCnt then lag == 1.0 else lag * latCnt as real == latSum as real
  }

  /** `x` times latency times CPU is the client's rate times the server's ratio squared times 1e9; ratio and CPU
      count with their floors if they lie below. */
  ghost predicate SolvesFormula(x: real, r: Reading, cfg: Config) {
    exists cs: real, lag: real ::
      && IsClientRate(cs, r.errs, r.reqs, cfg.successFloor) && IsLag(lag, r.latSum, r.latCnt)
      && var ss := if cfg.successFloor <= r.ss then r.ss else cfg.successFloor;
         var cpu := if cfg.cpuFloor <= r.cpu then r.cpu else cfg.cpuFloor;
         x * (lag * cpu as real) == cs * ss * ss * 1000000000.0
  }

  lemma {:induction false} RateOnFields(r: Reading, cfg: Config)
    requires cfg.Ok() && ReadingOk(r) && r.reqs > 0
    ensures IsClientRate(ClientSuccess(r, cfg), r.errs, r.reqs, cfg.successFloor)
  {
    var rate, n := SuccessRate(r), r.reqs as real;
    DivisionFits(r.errs as real, n);
    assert rate * n == (r.reqs - r.errs) as real by {
      Apart(1.0, (r.errs as real) / n, n);
    }
    hide SuccessRate;
    if rate <= 0.0 {
      ProductInOrder(0.0, -rate, 0.0, n);
    } else {
      ProductPositive(rate, n);
    }
    if rate <= 2.0 * cfg.successFloor {
      Scaled(rate, 2.0 * cfg.successFloor, n);
    } else {
      Scaled(2.0 * cfg.successFloor, rate, n);
    }
  }

  lemma {:induction false} Apart(a: real, b: real, n: real)
    ensures (a - b) * n == a * n - b * n
  {}

  lemma {:induction false} Scaled(a: real, b: real, n: real)
    requires n > 0.0
    ensures a <= b ==> a * n <= b * n
    ensures a < b ==> a * n < b * n
  {
    if a < b {
      ProductPositive(b - a, n);
    }
  }

  lemma {:induction false} LagOnFields(r: Reading)
    requires r.latCnt > 0
    ensures IsLag(Lag(r), r.latSum, r.latCnt)
  {
    var mean, n := (r.latSum as real) / (r.latCnt as real), r.latCnt as real;
    DivisionFits(r.latSum as real, n);
    Scaled(mean, 1.0, n);
    Scaled(1.0, mean, n);
  }

  /** The radicand is what the formula says, for every sampled node. */
  lemma {:induction false} RadicandOnFields(r: Reading, cfg: Config)
    requires cfg.Ok() && ReadingOk(r) && r.reqs > 0 && r.latCnt > 0
    ensures SolvesFormula(Radicand(r, cfg), r, cfg)
  {
    RateOnFields(r, cfg);
    LagOnFields(r);
    hide ClientSuccess, Lag, IsClientRate, IsLag, Radicand, ReadingOk;
    FormulaSolved(ClientSuccess(r, cfg), Lag(r), Radicand(r, cfg), r, cfg) by {
      hide ServerSuccess, Cpu;
      Solves(r, cfg);
    }
  }

  lemma {:induction false} FormulaSolved(cs: real, lag: real, x: real, r: Reading, cfg: Config)
    requires IsClientRate(cs, r.errs, r.reqs, cfg.successFloor) && IsLag(lag, r.latSum, r.latCnt)
    requires x * (lag * Cpu(r, cfg)) == cs * ServerSuccess(r, cfg) * ServerSuccess(r, cfg) * SCALE
    ensures SolvesFormula(x, r, cfg)
  {
    hide IsClientRate, IsLag;
  }

  lemma {:induction false} QuotientFits(cs: real, ss: real, lag: real, cpu: real)
    requires lag > 0.0 && cpu > 0.0
    ensures lag * cpu > 0.0 && Quotient(cs, ss, lag, cpu) * (lag * cpu) == cs * ss * ss * SCALE
  {
    ProductPositive(lag, cpu);
    DivisionFits(cs * ss * ss * SCALE, lag * cpu);
  }

  lemma {:induction false} RadicandIs(r: Reading, cfg: Config)
    requires cfg.Ok() && Sampled(r)
    ensures Lag(r) * Cpu(r, cfg) > 0.0
    ensures Radicand(r, cfg) == Quotient(ClientSuccess(r, cfg), ServerSuccess(r, cfg), Lag(r), Cpu(r, cfg))
  {
    FactorsPositive(r, cfg);
    hide ClientSuccess, ServerSuccess, Lag, Cpu, Quotient;
    ProductPositive(Lag(r), Cpu(r, cfg));
  }

  /** k times the CPU, from the floor up, is one k-th of the radicand. */
  lemma {:induction false} CpuDivides(r: Reading, k: nat, cfg: Config)
    requires cfg.Ok() && Sampled(r) && r.cpu >= cfg.cpuFloor && k >= 1
    ensures Radicand(r.(cpu := r.cpu * k), cfg) * k as real == Radicand(r, cfg)
  {
    hide Radicand, ClientSuccess, ServerSuccess, Lag, Cpu;
    var r' := r.(cpu := r.cpu * k);
    SameRates(r, r', cfg);
    CpuTimes(r, k, cfg);
    Solves(r, cfg);
    Solves(r', cfg);
    Reordered(Lag(r), Cpu(r, cfg), k as real);
    RadicandDivides(Numerator(r, cfg), Lag(r) * Cpu(r, cfg), Radicand(r, cfg), Radicand(r', cfg), k as real);
  }

  function Numerator(r: Reading, cfg: Config): real
    requires Sampled(r)
  {
    ClientSuccess(r, cfg) * ServerSuccess(r, cfg) * ServerSuccess(r, cfg) * SCALE
  }

  lemma {:induction false} Solves(r: Reading, cfg: Config)
    requires cfg.Ok() && Sampled(r)
    ensures Lag(r) * Cpu(r, cfg) > 0.0 && Radicand(r, cfg) * (Lag(r) * Cpu(r, cfg)) == Numerator(r, cfg)
  {
    FactorsPositive(r, cfg);
    RadicandIs(r, cfg);
    hide ClientSuccess, ServerSuccess, Lag, Cpu, Radicand;
    QuotientFits(ClientSuccess(r, cfg), ServerSuccess(r, cfg), Lag(r), Cpu(r, cfg));
  }

  lemma {:induction false} CpuTimes(r: Reading, k: nat, cfg: Config)
    requires cfg.Ok() && r.cpu >= cfg.cpuFloor && k >= 1
    ensures Cpu(r.(cpu := r.cpu * k), cfg) == Cpu(r, cfg) * k as real
  {
    InOrder(r.cpu, 1, k);
    assert r.cpu * k >= cfg.cpuFloor;
    assert (r.cpu * k) as real == r.cpu as real * k as real;
  }

  /** With x and y the radicands before and after, `d` the divisor before and `d * k` after. */
  lemma {:induction false} RadicandDivides(a: real, d: real, x: real, y: real, k: real)
    requires d > 0.0 && k > 0.0 && x * d == a && y * (d * k) == a
    ensures y * k == x
  {
    assert y * k * d == a;
    Unique(y * k, a, d);
    Unique(x, a, d);
  }

  lemma {:induction false} Reordered(a: real, b: real, k: real)
    ensures a * k * b == a * b * k && a * (b * k) == a * b * k
  {}

  lemma {:induction false} SameRates(r: Reading, r': Reading, cfg: Config)
    requires Sampled(r) && r' == r.(cpu := r'.cpu)
    ensures ClientSuccess(r', cfg) == ClientSuccess(r, cfg) && ServerSuccess(r', cfg) == ServerSuccess(r, cfg)
    ensures Lag(r') == Lag(r)
  {}

  lemma {:induction false} Unique(x: real, a: real, c: real)
    requires c > 0.0 && x * c == a
    ensures x == a / c
  {}

  /** k times the latency, from one microsecond up, is one k-th of the radicand, too. */
  lemma {:induction false} LatencyDivides(r: Reading, k: nat, cfg: Config)
    requires cfg.Ok() && Sampled(r) && r.latSum >= r.latCnt > 0 && k >= 1
    ensures Radicand(r.(latSum := r.latSum * k), cfg) * k as real == Radicand(r, cfg)
  {
    hide Radicand, ClientSuccess, ServerSuccess, Lag, Cpu;
    var r' := r.(latSum := r.latSum * k);
    SameOthers(r, r', cfg);
    LagTimes(r, k);
    Solves(r, cfg);
    Solves(r', cfg);
    Reordered(Lag(r), Cpu(r, cfg), k as real);
    RadicandDivides(Numerator(r, cfg), Lag(r) * Cpu(r, cfg), Radicand(r, cfg), Radicand(r', cfg), k as real);
  }

  lemma {:induction false} SameOthers(r: Reading, r': Reading, cfg: Config)
    requires Sampled(r) && r' == r.(latSum := r'.latSum)
    ensures ClientSuccess(r', cfg) == ClientSuccess(r, cfg) && ServerSuccess(r', cfg) == ServerSuccess(r, cfg)
    ensures Cpu(r', cfg) == Cpu(r, cfg)
  {}

  lemma {:induction false} LagTimes(r: Reading, k: nat)
    requires r.latSum >= r.latCnt > 0 && k >= 1
    ensures Lag(r.(latSum := r.latSum * k)) == Lag(r) * k as real
  {
    InOrder(r.latSum, 1, k);
    var n := r.latCnt as real;
    DivisionFits(r.latSum as real, n);
    DivisionFits((r.latSum * k) as real, n);
    AtLeastOne(r.latSum as real, n);
    AtLeastOne((r.latSum * k) as real, n);
    assert (r.latSum * k) as real == r.latSum as real * k as real;
    Swap((r.latSum as real) / n, n, k as real);
    Unique((r.latSum as real) / n * k as real, (r.latSum * k) as real, n);
  }

  lemma {:induction false} Swap(a: real, b: real, c: real)
    ensures a * c * b == a * b * c
  {}

  lemma {:induction false} AtLeastOne(a: real, n: real)
    requires a >= n > 0.0
    ensures a / n >= 1.0
  {
    DivisionFits(a, n);
    Scaled(a / n, 1.0, n);
  }

  // ---------------------------------------------------------------- the pass

  /** The sum of a list of scores. */
  ghost function ScoreSum(scores: seq<real>): real {
    if scores == [] then 0.0 else scores[0] + ScoreSum(scores[1..])
  }

  lemma {:induction false} ScoreSumLast(scores: seq<real>, x: real)
    ensures ScoreSum(scores + [x]) == ScoreSum(scores) + x
  {
    if scores == [] {
      assert [x][1..] == [];
    } else {
      ScoreSumLast(scores[1..], x);
      assert (scores + [x])[1..] == scores[1..] + [x];
    }
  }

  /** `score` is what the pass gives a node before the average steps in: nothing without a request or without a
      latency sample, else the root of what the formula says. */
  ghost predicate IsScore(score: real, r: Reading, cfg: Config) {
    if r.reqs == 0 || r.latCnt == 0 then score == 0.0
    else score >= 0.0 && SolvesFormula(score * score, r, cfg)
  }

  /** Nodes that have both requests and latency samples. */
  ghost function WithSamples(rs: seq<Reading>): set<int> {
    set i | 0 <= i < |rs| && rs[i].reqs != 0 && rs[i].latCnt != 0
  }

  lemma {:induction false} CountsSampled(rs: seq<Reading>)
    ensures SampledCount(rs) == |WithSamples(rs)|
  {
    if rs != [] {
      var k := |rs| - 1;
      CountsSampled(rs[..k]);
      assert WithSamples(rs) == WithSamples(rs[..k]) + if rs[k].reqs != 0 && rs[k].latCnt != 0 then {k} else {};
    }
  }

  lemma {:induction false} TotalsScores(rs: seq<Reading>, cfg: Config, sqrt: real -> real)
    requires cfg.Ok()
    ensures TotalScore(rs, cfg, sqrt) == ScoreSum(Scores(rs, cfg, sqrt))
  {
    hide Score;
    if rs != [] {
      var k := |rs| - 1;
      TotalsScores(rs[..k], cfg, sqrt);
      assert Scores(rs, cfg, sqrt) == Scores(rs[..k], cfg, sqrt) + [Score(rs[k], cfg, sqrt)];
      ScoreSumLast(Scores(rs[..k], cfg, sqrt), Score(rs[k], cfg, sqrt));
    }
  }

  lemma {:induction false} ScoreOnFields(r: Reading, cfg: Config, sqrt: real -> real)
    requires cfg.Ok() && IsSqrt(sqrt) && ReadingOk(r)
    ensures IsScore(Score(r, cfg, sqrt), r, cfg)
  {
    hide Radicand, SolvesFormula, IsSqrt, Score;
    if Sampled(r) {
      assert r.reqs > 0 && r.latCnt > 0;
      RadicandOnFields(r, cfg);
      ScoreIsRoot(r, cfg, sqrt);
      SquareOfRoot(sqrt, Radicand(r, cfg));
      RootScores(Score(r, cfg, sqrt), Radicand(r, cfg), r, cfg);
    } else {
      UnsampledScoresZero(r, cfg, sqrt);
    }
  }

  lemma {:induction false} RootScores(score: real, x: real, r: Reading, cfg: Config)
    requires score >= 0.0 && score * score == x && Sampled(r) && SolvesFormula(x, r, cfg)
    ensures IsScore(score, r, cfg)
  {
    hide SolvesFormula;
  }

  /** `ewt` is the whole part of score times weight, but not below 1. */
  ghost predicate IsWhole(ewt: int, score: real, weight: int) {
    if score * weight as real < 1.0 then ewt == 1
    else ewt as real <= score * weight as real < (ewt + 1) as real
  }

  lemma {:induction false} WeighIsWhole(score: real, weight: int)
    requires score >= 0.0 && weight >= 0
    ensures IsWhole(Weigh(score, weight), score, weight)
  {
    ProductInOrder(0.0, score, 0.0, weight as real);
    WholeOf(score * weight as real);
  }

  lemma {:induction false} WholeOf(x: real)
    requires x >= 0.0
    ensures var e := MaxInt(1, Truncate(x));
            if x < 1.0 then e == 1 else e as real <= x < (e + 1) as real
  {}

  /** The whole pass on the numbers read. Without a sampled node no weight moves. Otherwise there is one average,
      which times the number of sampled nodes is the sum of all scores, and every node weighs the whole part of
      its score times its configured weight, the average standing in where there is no score. */
  lemma {:induction false} PassOnFields(rs: seq<Reading>, ws: seq<int>, es: seq<int>, cfg: Config, sqrt: real -> real)
    returns (scores: seq<real>, average: real)
    requires cfg.Ok() && IsSqrt(sqrt) && |rs| == |ws| == |es|
    requires forall i | 0 <= i < |rs| :: ReadingOk(rs[i]) && ws[i] >= 0
    ensures |scores| == |rs| && forall i | 0 <= i < |rs| :: IsScore(scores[i], rs[i], cfg)
    ensures average * |WithSamples(rs)| as real == ScoreSum(scores)
    ensures WithSamples(rs) == {} ==> NewWeights(rs, ws, es, cfg, sqrt) == es
    ensures WithSamples(rs) != {} ==>
              forall i | 0 <= i < |rs| ::
                IsWhole(NewWeights(rs, ws, es, cfg, sqrt)[i],
                        if i in WithSamples(rs) then scores[i] else average, ws[i])
  {
    hide Score, IsScore, IsWhole, Weigh;
    scores := Scores(rs, cfg, sqrt);
    CountsSampled(rs);
    TotalsScores(rs, cfg, sqrt);
    forall i | 0 <= i < |rs| ensures IsScore(scores[i], rs[i], cfg) {
      ScoreOnFields(rs[i], cfg, sqrt);
    }
    if SampledCount(rs) == 0 {
      average := 0.0;
      NoScores(rs, cfg, sqrt);
    } else {
      average := Average(rs, cfg, sqrt);
      DivisionFits(TotalScore(rs, cfg, sqrt), SampledCount(rs) as real);
      AverageNotNegative(rs, cfg, sqrt);
      forall i | 0 <= i < |rs|
        ensures IsWhole(NewWeights(rs, ws, es, cfg, sqrt)[i],
                        if i in WithSamples(rs) then scores[i] else average, ws[i])
      {
        PositiveIffSampled(rs[i], cfg, sqrt);
        WeighIsWhole(if scores[i] <= 0.0 then average else scores[i], ws[i]);
      }
    }
  }

  lemma {:induction false} NoScores(rs: seq<Reading>, cfg: Config, sqrt: real -> real)
    requires cfg.Ok() && SampledCount(rs) == 0
    ensures TotalScore(rs, cfg, sqrt) == 0.0
  {
    if rs != [] {
      NoScores(rs[..|rs|-1], cfg, sqrt);
    }
  }

  lemma {:induction false} AverageNotNegative(rs: seq<Reading>, cfg: Config, sqrt: real -> real)
    requires cfg.Ok() && IsSqrt(sqrt) && SampledCount(rs) > 0
    ensures Average(rs, cfg, sqrt) >= 0.0
  {
    hide Score, TotalScore, SampledCount;
    forall i | 0 <= i < |rs| ensures Score(rs[i], cfg, sqrt) >= 0.0 {
      PositiveIffSampled(rs[i], cfg, sqrt);
      if !Sampled(rs[i]) {
        UnsampledScoresZero(rs[i], cfg, sqrt);
      }
    }
    var top := GreatestSampled(rs, cfg, sqrt);
    AverageBetween(rs, cfg, sqrt, 0.0, Score(rs[top], cfg, sqrt));
  }

  /** Each field is filled in by itself: a positive one stays, whatever the others are; any other becomes the
      default, 10 buckets of 300 ms, a CPU floor of 10 thousandths, a success floor of one tenth. */
  lemma {:induction false} DefaultsPerField(c: Config)
    ensures var d := c.WithDefaults();
            && (if c.buckets > 0 then d.buckets == c.buckets else d.buckets == 10)
            && (if c.bucketWidth > 0 then d.bucketWidth == c.bucketWidth else d.bucketWidth == 300 * 1000 * 1000)
            && (if c.cpuFloor > 0 then d.cpuFloor == c.cpuFloor else d.cpuFloor == 10)
            && (if c.successFloor > 0.0 then d.successFloor == c.successFloor else d.successFloor == 0.1)
  {}

  /** The production defaults, two healthy nodes that differ in CPU only: 900 and 100 of 1000. */
  lemma {:induction false} LoadedNodeWeighsLess(sqrt: real -> real)
    requires IsSqrt(sqrt)
    ensures var cfg := Config(0, 0, 0, 0.0).WithDefaults();
            var busy, calm := Reading(0, 100, 100000, 100, 1.0, 900), Reading(0, 100, 100000, 100, 1.0, 100);
            NewWeights([busy, calm], [10, 10], [10, 10], cfg, sqrt) == [333, 1000]
  {
    var cfg := Config(0, 0, 0, 0.0).WithDefaults();
    var busy, calm := Reading(0, 100, 100000, 100, 1.0, 900), Reading(0, 100, 100000, 100, 1.0, 100);
    assert Radicand(busy, cfg) == 1000000000.0 / 900000.0;
    assert Radicand(calm, cfg) == 10000.0;
    hide Radicand;
    RootBetween(sqrt, 1000000000.0 / 900000.0, 33.3, 33.4);
    RootBetween(sqrt, 10000.0, 100.0, 100.1);
    assert SampledCount([busy, calm]) > 0 by {
      assert [busy, calm][..1] == [busy];
    }
  }
}
