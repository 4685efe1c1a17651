/** A pass of `recompute` while calls go on: between any two of its reads and stores, calls are recorded,
    reports arrive, and nodes are added. Every reading a pass uses is still a real one, and its stores are the
    only thing that moves a weight. */
module ConcurrentRecompute {
  import opened RollingWindow
  import opened Scoring
  import opened Wrappers
  import B = Balancer

  datatype Report<T> = Report(at: int, value: T)

  /** The logs are for specification: every sample of each window, every report that arrived. */
  datatype Node = Node(weight: int, ewt: int, errs: Ring, latency: Ring, ss: real, cpu: int,
                       errsLog: seq<Sample>, latencyLog: seq<Sample>, ssLog: seq<Report<real>>,
                       cpuLog: seq<Report<int>>)

  /** What the pass has read of the node it is at. */
  datatype Stage =
    | AtErrs
    | AtLatency(errs: Bucket)
    | AtSuccess(errs: Bucket, latency: Bucket)
    | AtCpu(errs: Bucket, latency: Bucket, ss: real)

  /** `list`: the nodes in the order the map was walked; `rs`: the readings so far; `was`: the weights, and
      `since` the time, at the start; `i`: how many weights are stored. */
  datatype Pass =
    | NoPass
    | Reading(list: seq<nat>, since: int, was: seq<int>, rs: seq<Reading>, stage: Stage)
    | Storing(list: seq<nat>, since: int, was: seq<int>, rs: seq<Reading>, i: nat)
    | Over(list: seq<nat>, since: int, was: seq<int>, rs: seq<Reading>)

  datatype State = State(nodes: seq<Node>, pass: Pass, clock: int, count: nat, width: int)

  datatype Label =
    | Tick(dt: nat)
    | RecordErr(n: nat, failed: bool)
    | RecordLatency(n: nat, micros: int)
    | ReportCpu(n: nat, milli: int)
    | ReportSuccess(n: nat, ratio: real)
    | NewNode(weight: int)
    | StartPass(list: seq<nat>)
    | ReadErrs
    | ReadLatency
    | ReadSuccess
    | ReadCpu
    | EndReading
    | StoreNext

  predicate Distinct(list: seq<nat>) {
    forall i, j | 0 <= i < j < |list| :: list[i] != list[j]
  }

  predicate AtStage(s: State, l: Label) {
    && s.pass.Reading? && |s.pass.rs| < |s.pass.list| && s.pass.list[|s.pass.rs|] < |s.nodes|
    && match l
       case ReadErrs => s.pass.stage.AtErrs?
       case ReadLatency => s.pass.stage.AtLatency?
       case ReadSuccess => s.pass.stage.AtSuccess?
       case _ => s.pass.stage.AtCpu?
  }

  predicate Enabled(s: State, l: Label) {
    match l
    case Tick(_) => true
    case RecordErr(n, _) => n < |s.nodes|
    case RecordLatency(n, _) => n < |s.nodes|
    case ReportCpu(n, _) => n < |s.nodes|
    case ReportSuccess(n, _) => n < |s.nodes|
    case NewNode(weight) => weight >= 1
    case StartPass(list) =>
      (s.pass.NoPass? || s.pass.Over?) && Distinct(list) && forall i | 0 <= i < |list| :: list[i] < |s.nodes|
    case EndReading => s.pass.Reading? && |s.pass.rs| == |s.pass.list|
    case StoreNext => s.pass.Storing? && s.pass.i < |s.pass.list| && s.pass.list[s.pass.i] < |s.nodes|
    case _ => AtStage(s, l)
  }

  function WithNode(s: State, n: nat, node: Node): State
    requires n < |s.nodes|
  {
    s.(nodes := s.nodes[n := node])
  }

  function WithCpu(d: Node, milli: int, clock: int): Node {
    d.(cpu := milli, cpuLog := d.cpuLog + [Report(clock, milli)])
  }

  function WithSuccess(d: Node, ratio: real, clock: int): Node {
    d.(ss := ratio, ssLog := d.ssLog + [Report(clock, ratio)])
  }

  function Weights(nodes: seq<Node>): (ws: seq<int>)
    ensures |ws| == |nodes| && forall n | 0 <= n < |nodes| :: ws[n] == nodes[n].ewt
  {
    seq(|nodes|, n requires 0 <= n < |nodes| => nodes[n].ewt)
  }

  /** The configured weights of the listed nodes. */
  function Configured(nodes: seq<Node>, list: seq<nat>): (ws: seq<int>)
    requires forall i | 0 <= i < |list| :: list[i] < |nodes|
    ensures |ws| == |list| && forall i | 0 <= i < |list| :: ws[i] == nodes[list[i]].weight
  {
    seq(|list|, i requires 0 <= i < |list| => nodes[list[i]].weight)
  }

  /** A finished reading. An unsampled node's reports are not looked at. */
  function Finished(p: Pass, errs: Bucket, latency: Bucket, ss: real, cpu: int): Pass
    requires p.Reading?
  {
    p.(rs := p.rs + [Scoring.Reading(errs.sum, errs.count, latency.sum, latency.count, ss, cpu)], stage := AtErrs)
  }

  // ---------------------------------------------------------------- the invariant

  /** Up to some time `at` of the pass, everything recorded by then, since an instant that lies N-1 to N
      widths back: that is what the sum `b` is over. */
  ghost predicate RealSum(b: Bucket, log: seq<Sample>, since: int, clock: int, count: nat, width: int) {
    exists at, k, cut :: RealSumAt(b, log, since, clock, count, width, at, k, cut)
  }

  ghost predicate RealSumAt(b: Bucket, log: seq<Sample>, since: int, clock: int, count: nat, width: int, at: int,
                            k: int, cut: int) {
    && since <= at <= clock && 0 <= k <= |log|
    && at - count * width < cut <= at - (count - 1) * width
    && b == Since(log[..k], cut)
    && (forall i | 0 <= i < k :: log[i].at <= at)
    && (forall i | k <= i < |log| :: log[i].at >= at)
  }

  /** At some time `at` of the pass, `v` was the last report that had arrived. */
  ghost predicate Reported<T>(v: T, log: seq<Report<T>>, since: int, clock: int) {
    exists at, k :: ReportedAt(v, log, since, clock, at, k)
  }

  ghost predicate ReportedAt<T>(v: T, log: seq<Report<T>>, since: int, clock: int, at: int, k: int) {
    && since <= at <= clock && 0 <= k < |log| && v == log[k].value
    && (forall i | 0 <= i <= k :: log[i].at <= at)
    && (forall i | k < i < |log| :: log[i].at >= at)
  }

  /** `v` is the last report. */
  ghost predicate LastReport<T>(v: T, log: seq<Report<T>>, clock: int) {
    log != [] && log[|log|-1].value == v && forall i | 0 <= i < |log| :: log[i].at <= clock
  }

  ghost predicate RealReading(r: Reading, d: Node, since: int, clock: int, count: nat, width: int) {
    && RealSum(Bucket(r.errs, r.reqs), d.errsLog, since, clock, count, width)
    && RealSum(Bucket(r.latSum, r.latCnt), d.latencyLog, since, clock, count, width)
    && (Sampled(r) ==> Reported(r.ss, d.ssLog, since, clock) && Reported(r.cpu, d.cpuLog, since, clock))
  }

  ghost predicate WindowOk(r: Ring, log: seq<Sample>, clock: int, count: nat, width: int) {
    && RingOk(r) && |r.buckets| == count && Represents(r, width, log) && r.lastStart <= clock
    && forall i | 0 <= i < |log| :: log[i].at <= clock
  }

  ghost predicate NodeOk(d: Node, clock: int, count: nat, width: int) {
    && WindowOk(d.errs, d.errsLog, clock, count, width) && WindowOk(d.latency, d.latencyLog, clock, count, width)
    && B.Bits(d.errsLog) && d.weight >= 1 && d.ewt >= 1
    && LastReport(d.ss, d.ssLog, clock) && LastReport(d.cpu, d.cpuLog, clock)
  }

  ghost predicate StageOk(stage: Stage, d: Node, since: int, clock: int, count: nat, width: int) {
    && (!stage.AtErrs? ==> RealSum(stage.errs, d.errsLog, since, clock, count, width))
    && (stage.AtSuccess? || stage.AtCpu? ==> RealSum(stage.latency, d.latencyLog, since, clock, count, width))
    && (stage.AtCpu? ==> Reported(stage.ss, d.ssLog, since, clock))
  }

  predicate Listed(s: State) {
    !s.pass.NoPass? ==>
    && Distinct(s.pass.list) && |s.pass.was| <= |s.nodes| && s.pass.since <= s.clock && |s.pass.rs| <= |s.pass.list|
    && forall i | 0 <= i < |s.pass.list| :: s.pass.list[i] < |s.pass.was|
  }

  ghost predicate ReadingsReal(s: State)
    requires Listed(s)
  {
    !s.pass.NoPass? ==>
      forall i | 0 <= i < |s.pass.rs| ::
        RealReading(s.pass.rs[i], s.nodes[s.pass.list[i]], s.pass.since, s.clock, s.count, s.width)
  }

  /** Nodes that the pass has not stored to weigh what they did at its start. */
  ghost predicate OthersKeep(s: State, stored: nat)
    requires Listed(s) && !s.pass.NoPass? && stored <= |s.pass.list|
  {
    forall n | 0 <= n < |s.pass.was| && n !in s.pass.list[..stored] :: s.nodes[n].ewt == s.pass.was[n]
  }

  ghost predicate StoredRight(s: State, stored: nat, cfg: Config, sqrt: real -> real)
    requires cfg.Ok() && Listed(s) && !s.pass.NoPass? && stored <= |s.pass.list| == |s.pass.rs|
    requires SampledCount(s.pass.rs) > 0
  {
    forall i | 0 <= i < stored ::
      s.nodes[s.pass.list[i]].ewt == NewWeight(s.pass.rs, Configured(s.nodes, s.pass.list), i, cfg, sqrt)
  }

  ghost predicate PassOk(s: State, cfg: Config, sqrt: real -> real)
    requires cfg.Ok()
  {
    && Listed(s) && ReadingsReal(s)
    && match s.pass
       case NoPass => true
       case Reading(list, since, _, rs, stage) =>
         && OthersKeep(s, 0)
         && (if |rs| == |list| then stage.AtErrs?
             else StageOk(stage, s.nodes[list[|rs|]], since, s.clock, s.count, s.width))
       case Storing(list, _, _, rs, i) =>
         i < |list| == |rs| && SampledCount(rs) > 0 && OthersKeep(s, i) && StoredRight(s, i, cfg, sqrt)
       case Over(list, _, _, rs) =>
         && |list| == |rs|
         && if SampledCount(rs) == 0 then OthersKeep(s, 0)
            else OthersKeep(s, |list|) && StoredRight(s, |list|, cfg, sqrt)
  }

  ghost predicate NodesOk(s: State) {
    s.width > 0 && s.count > 0 && forall n | 0 <= n < |s.nodes| :: NodeOk(s.nodes[n], s.clock, s.count, s.width)
  }

  ghost predicate Ok(s: State, cfg: Config, sqrt: real -> real)
    requires cfg.Ok()
  {
    NodesOk(s) && PassOk(s, cfg, sqrt)
  }

  // ---------------------------------------------------------------- the steps

  ghost function Step(s: State, l: Label, cfg: Config, sqrt: real -> real): State
    requires Enabled(s, l) && cfg.Ok() && Ok(s, cfg, sqrt)
  {
    match l
    case Tick(dt) => s.(clock := s.clock + dt)
    case RecordErr(n, failed) =>
      var d := s.nodes[n];
      WithNode(s, n, d.(errs := Put(Advance(d.errs, s.width, s.clock), if failed then 1 else 0),
                    errsLog := d.errsLog + [Sample(s.clock, if failed then 1 else 0)]))
    case RecordLatency(n, micros) =>
      var d := s.nodes[n];
      WithNode(s, n, d.(latency := Put(Advance(d.latency, s.width, s.clock), micros),
                    latencyLog := d.latencyLog + [Sample(s.clock, micros)]))
    case ReportCpu(n, milli) => WithNode(s, n, WithCpu(s.nodes[n], milli, s.clock))
    case ReportSuccess(n, ratio) => WithNode(s, n, WithSuccess(s.nodes[n], ratio, s.clock))
    case NewNode(weight) =>
      s.(nodes := s.nodes + [Node(weight, weight, Fresh(s.count, s.clock), Fresh(s.count, s.clock), 1.0, 0,
                                 [], [], [Report(s.clock, 1.0)], [Report(s.clock, 0)])])
    case StartPass(list) => s.(pass := Pass.Reading(list, s.clock, Weights(s.nodes), [], AtErrs))
    case ReadErrs =>
      var n := s.pass.list[|s.pass.rs|];
      var r := Advance(s.nodes[n].errs, s.width, s.clock);
      WithNode(s, n, s.nodes[n].(errs := r)).(pass := s.pass.(stage := AtLatency(Total(r.buckets))))
    case ReadLatency =>
      var n := s.pass.list[|s.pass.rs|];
      var r := Advance(s.nodes[n].latency, s.width, s.clock);
      var errs, latency := s.pass.stage.errs, Total(r.buckets);
      WithNode(s, n, s.nodes[n].(latency := r)).(
        pass := if errs.count == 0 || latency.count == 0 then Finished(s.pass, errs, latency, 0.0, 0)
                else s.pass.(stage := AtSuccess(errs, latency)))
    case ReadSuccess =>
      s.(pass := s.pass.(stage := AtCpu(s.pass.stage.errs, s.pass.stage.latency, s.nodes[s.pass.list[|s.pass.rs|]].ss)))
    case ReadCpu =>
      s.(pass := Finished(s.pass, s.pass.stage.errs, s.pass.stage.latency, s.pass.stage.ss,
                          s.nodes[s.pass.list[|s.pass.rs|]].cpu))
    case EndReading =>
      s.(pass := if SampledCount(s.pass.rs) == 0 then Over(s.pass.list, s.pass.since, s.pass.was, s.pass.rs)
                 else Storing(s.pass.list, s.pass.since, s.pass.was, s.pass.rs, 0))
    case StoreNext =>
      var p, n := s.pass, s.pass.list[s.pass.i];
      var e := NewWeight(p.rs, Configured(s.nodes, p.list), p.i, cfg, sqrt);
      WithNode(s, n, s.nodes[n].(ewt := e)).(
        pass := if p.i + 1 == |p.list| then Over(p.list, p.since, p.was, p.rs) else p.(i := p.i + 1))
  }

  // ---------------------------------------------------------------- windows and sums

  lemma {:induction false} WindowAdvances(r: Ring, log: seq<Sample>, clock: int, count: nat, width: int)
    requires width > 0 && WindowOk(r, log, clock, count, width)
    ensures WindowOk(Advance(r, width, clock), log, clock, count, width)
  {
    hide Advance, Represents;
    AdvanceRepresents(r, width, clock, log);
  }

  lemma {:induction false} WindowAdds(r: Ring, log: seq<Sample>, clock: int, count: nat, width: int, v: int)
    requires width > 0 && WindowOk(r, log, clock, count, width)
    ensures WindowOk(Put(Advance(r, width, clock), v), log + [Sample(clock, v)], clock, count, width)
  {
    hide Advance, Represents, Put;
    AdvanceRepresents(r, width, clock, log);
    PutRepresents(Advance(r, width, clock), width, log, Sample(clock, v));
    PutKeepsStart(Advance(r, width, clock), v);
  }

  lemma {:induction false} ReadIsReal(r: Ring, log: seq<Sample>, since: int, clock: int, count: nat, width: int)
    requires width > 0 && WindowOk(r, log, clock, count, width) && since <= clock
    ensures RealSum(Total(Advance(r, width, clock).buckets), log, since, clock, count, width)
  {
    hide Advance, Represents, Total, Since, Cut;
    ValueIsSuffixOfLog(r, width, log, clock);
    assert log[..|log|] == log;
    assert RealSumAt(Total(Advance(r, width, clock).buckets), log, since, clock, count, width, clock, |log|,
                     Cut(r, width, clock));
  }

  /** The log goes on, with samples no older than `clock`. */
  ghost predicate Grows(log: seq<Sample>, log': seq<Sample>, clock: int) {
    log <= log' && forall i | |log| <= i < |log'| :: log'[i].at >= clock
  }

  lemma {:induction false} SumStaysReal(b: Bucket, log: seq<Sample>, log': seq<Sample>, since: int, clock: int,
                                        clock': int,
                                        count: nat, width: int)
    requires RealSum(b, log, since, clock, count, width) && Grows(log, log', clock) && clock <= clock'
    ensures RealSum(b, log', since, clock', count, width)
  {
    hide Since;
    var at, k, cut :| RealSumAt(b, log, since, clock, count, width, at, k, cut);
    assert log'[..k] == log[..k];
    assert RealSumAt(b, log', since, clock', count, width, at, k, cut);
  }

  // ---------------------------------------------------------------- what happens around a pass

  ghost predicate MoreReports<T>(log: seq<Report<T>>, log': seq<Report<T>>, clock: int) {
    log <= log' && forall i | |log| <= i < |log'| :: log'[i].at >= clock
  }

  lemma {:induction false} StaysReported<T>(v: T, log: seq<Report<T>>, log': seq<Report<T>>, since: int, clock: int,
                                            clock': int)
    requires Reported(v, log, since, clock) && MoreReports(log, log', clock) && clock <= clock'
    ensures Reported(v, log', since, clock')
  {
    var at, k :| ReportedAt(v, log, since, clock, at, k);
    assert ReportedAt(v, log', since, clock', at, k);
  }

  lemma {:induction false} LastIsReported<T>(v: T, log: seq<Report<T>>, since: int, clock: int)
    requires LastReport(v, log, clock) && since <= clock
    ensures Reported(v, log, since, clock)
  {
    assert ReportedAt(v, log, since, clock, clock, |log| - 1);
  }

  lemma {:induction false} OneMoreReport<T>(v: T, log: seq<Report<T>>, w: T, clock: int)
    requires LastReport(v, log, clock)
    ensures LastReport(w, log + [Report(clock, w)], clock)
    ensures MoreReports(log, log + [Report(clock, w)], clock)
  {}

  ghost predicate Later(d: Node, d': Node, clock: int) {
    && d'.weight == d.weight && d'.ewt == d.ewt
    && MoreReports(d.ssLog, d'.ssLog, clock) && MoreReports(d.cpuLog, d'.cpuLog, clock)
    && Grows(d.errsLog, d'.errsLog, clock) && Grows(d.latencyLog, d'.latencyLog, clock)
  }

  ghost predicate LaterNodes(s: State, s': State) {
    && s.clock <= s'.clock && s'.count == s.count && s'.width == s.width && |s.nodes| <= |s'.nodes|
    && forall n | 0 <= n < |s.nodes| :: Later(s.nodes[n], s'.nodes[n], s.clock)
  }

  lemma {:induction false} ReadingsStayReal(s: State, s': State)
    requires Listed(s) && ReadingsReal(s) && LaterNodes(s, s') && s'.pass == s.pass
    ensures Listed(s') && ReadingsReal(s')
  {
    hide RealSum, Grows, Reported, MoreReports;
    if !s.pass.NoPass? {
      forall i | 0 <= i < |s.pass.rs|
        ensures RealReading(s.pass.rs[i], s'.nodes[s.pass.list[i]], s.pass.since, s'.clock, s.count, s.width)
      {
        var r, d, d' := s.pass.rs[i], s.nodes[s.pass.list[i]], s'.nodes[s.pass.list[i]];
        assert Later(d, d', s.clock);
        SumStaysReal(Bucket(r.errs, r.reqs), d.errsLog, d'.errsLog, s.pass.since, s.clock, s'.clock, s.count, s.width);
        SumStaysReal(Bucket(r.latSum, r.latCnt), d.latencyLog, d'.latencyLog, s.pass.since, s.clock, s'.clock, s.count,
                     s.width);
        if Sampled(r) {
          StaysReported(r.ss, d.ssLog, d'.ssLog, s.pass.since, s.clock, s'.clock);
          StaysReported(r.cpu, d.cpuLog, d'.cpuLog, s.pass.since, s.clock, s'.clock);
        }
      }
    }
  }

  lemma {:induction false} StageStaysOk(stage: Stage, d: Node, d': Node, since: int, clock: int, clock': int,
                                        count: nat, width: int)
    requires StageOk(stage, d, since, clock, count, width) && Later(d, d', clock) && clock <= clock'
    ensures StageOk(stage, d', since, clock', count, width)
  {
    hide RealSum, Grows, Reported, MoreReports;
    if stage.AtCpu? {
      StaysReported(stage.ss, d.ssLog, d'.ssLog, since, clock, clock');
    }
    if !stage.AtErrs? {
      SumStaysReal(stage.errs, d.errsLog, d'.errsLog, since, clock, clock', count, width);
    }
    if stage.AtSuccess? || stage.AtCpu? {
      SumStaysReal(stage.latency, d.latencyLog, d'.latencyLog, since, clock, clock', count, width);
    }
  }

  lemma {:induction false} SameConfigured(s: State, s': State)
    requires Listed(s) && !s.pass.NoPass? && LaterNodes(s, s')
    ensures Configured(s'.nodes, s.pass.list) == Configured(s.nodes, s.pass.list)
  {
    hide Grows;
  }

  /** Whatever happens outside the pass leaves its readings real and its stores in force. */
  lemma {:induction false} PassUndisturbed(s: State, s': State, cfg: Config, sqrt: real -> real)
    requires cfg.Ok() && PassOk(s, cfg, sqrt) && LaterNodes(s, s') && s'.pass == s.pass
    ensures PassOk(s', cfg, sqrt)
  {
    hide ReadingsReal, NewWeight, SampledCount, StageOk, Grows, RealReading;
    ReadingsStayReal(s, s');
    if !s.pass.NoPass? {
      SameConfigured(s, s');
    }
    if s.pass.Reading? && |s.pass.rs| < |s.pass.list| {
      var n := s.pass.list[|s.pass.rs|];
      StageStaysOk(s.pass.stage, s.nodes[n], s'.nodes[n], s.pass.since, s.clock, s'.clock, s.count, s.width);
    }
  }

  lemma {:induction false} NodeChanges(s: State, n: nat, d: Node, cfg: Config, sqrt: real -> real)
    requires cfg.Ok() && Ok(s, cfg, sqrt) && n < |s.nodes| && Later(s.nodes[n], d, s.clock)
    requires NodeOk(d, s.clock, s.count, s.width)
    ensures Ok(WithNode(s, n, d), cfg, sqrt)
  {
    hide PassOk, NodeOk, Grows;
    GrowsTrivially(s);
    PassUndisturbed(s, WithNode(s, n, d), cfg, sqrt);
  }

  lemma {:induction false} GrowsTrivially(s: State)
    ensures forall n | 0 <= n < |s.nodes| :: Later(s.nodes[n], s.nodes[n], s.clock)
  {}

  lemma {:induction false} TickKeepsOk(s: State, dt: nat, cfg: Config, sqrt: real -> real)
    requires cfg.Ok() && Ok(s, cfg, sqrt)
    ensures Ok(s.(clock := s.clock + dt), cfg, sqrt)
  {
    hide PassOk, Represents, Grows;
    GrowsTrivially(s);
    PassUndisturbed(s, s.(clock := s.clock + dt), cfg, sqrt);
  }

  lemma {:induction false} NewNodeKeepsOk(s: State, weight: int, cfg: Config, sqrt: real -> real)
    requires cfg.Ok() && Ok(s, cfg, sqrt) && weight >= 1
    ensures Ok(Step(s, NewNode(weight), cfg, sqrt), cfg, sqrt)
  {
    hide PassOk, Represents, Grows;
    FreshRepresents(s.count, s.width, s.clock);
    FreshStart(s.count, s.clock);
    GrowsTrivially(s);
    PassUndisturbed(s, Step(s, NewNode(weight), cfg, sqrt), cfg, sqrt);
  }

  lemma {:induction false} RecordErrKeepsOk(s: State, n: nat, failed: bool, cfg: Config, sqrt: real -> real)
    requires cfg.Ok() && Ok(s, cfg, sqrt) && n < |s.nodes|
    ensures Ok(Step(s, RecordErr(n, failed), cfg, sqrt), cfg, sqrt)
  {
    hide PassOk, WindowOk, Put, Advance, B.Bits, RingOk;
    var d := s.nodes[n];
    assert NodeOk(d, s.clock, s.count, s.width);
    WindowAdds(d.errs, d.errsLog, s.clock, s.count, s.width, if failed then 1 else 0);
    B.OneMoreSample(d.errsLog, s.clock, failed);
    RingIsOk(d.errs, d.errsLog, s.clock, s.count, s.width);
    NodeChanges(s, n, d.(errs := Put(Advance(d.errs, s.width, s.clock), if failed then 1 else 0),
                         errsLog := d.errsLog + [Sample(s.clock, if failed then 1 else 0)]), cfg, sqrt);
  }

  lemma {:induction false} RingIsOk(r: Ring, log: seq<Sample>, clock: int, count: nat, width: int)
    requires WindowOk(r, log, clock, count, width)
    ensures RingOk(r)
  {}

  lemma {:induction false} RecordLatencyKeepsOk(s: State, n: nat, micros: int, cfg: Config, sqrt: real -> real)
    requires cfg.Ok() && Ok(s, cfg, sqrt) && n < |s.nodes|
    ensures Ok(Step(s, RecordLatency(n, micros), cfg, sqrt), cfg, sqrt)
  {
    hide PassOk, WindowOk, Put, Advance, B.Bits, RingOk;
    var d := s.nodes[n];
    assert NodeOk(d, s.clock, s.count, s.width);
    WindowAdds(d.latency, d.latencyLog, s.clock, s.count, s.width, micros);
    RingIsOk(d.latency, d.latencyLog, s.clock, s.count, s.width);
    NodeChanges(s, n, d.(latency := Put(Advance(d.latency, s.width, s.clock), micros),
                         latencyLog := d.latencyLog + [Sample(s.clock, micros)]), cfg, sqrt);
  }

  lemma {:induction false} ReportsKeepOk(s: State, n: nat, milli: int, ratio: real, cfg: Config, sqrt: real -> real)
    requires cfg.Ok() && Ok(s, cfg, sqrt) && n < |s.nodes|
    ensures Ok(WithNode(s, n, WithCpu(s.nodes[n], milli, s.clock)), cfg, sqrt)
    ensures Ok(WithNode(s, n, WithSuccess(s.nodes[n], ratio, s.clock)), cfg, sqrt)
  {
    hide PassOk, WindowOk, LastReport, MoreReports;
    var d := s.nodes[n];
    assert NodeOk(d, s.clock, s.count, s.width);
    OneMoreReport(d.cpu, d.cpuLog, milli, s.clock);
    OneMoreReport(d.ss, d.ssLog, ratio, s.clock);
    GrowsTrivially(s);
    assert Later(d, d, s.clock);
    NodeChanges(s, n, WithCpu(d, milli, s.clock), cfg, sqrt);
    NodeChanges(s, n, WithSuccess(d, ratio, s.clock), cfg, sqrt);
  }

  // ---------------------------------------------------------------- the pass itself

  lemma {:induction false} StartKeepsOk(s: State, list: seq<nat>, cfg: Config, sqrt: real -> real)
    requires cfg.Ok() && Ok(s, cfg, sqrt) && Enabled(s, StartPass(list))
    ensures Ok(Step(s, StartPass(list), cfg, sqrt), cfg, sqrt)
  {
    hide NodeOk;
  }

  lemma {:induction false} ReadErrsKeepsOk(s: State, cfg: Config, sqrt: real -> real)
    requires cfg.Ok() && Ok(s, cfg, sqrt) && Enabled(s, ReadErrs)
    ensures Ok(Step(s, ReadErrs, cfg, sqrt), cfg, sqrt)
  {
    hide WindowOk, Advance, Total, RealSum, RealReading, B.Bits, RingOk;
    var n := s.pass.list[|s.pass.rs|];
    var d := s.nodes[n];
    assert NodeOk(d, s.clock, s.count, s.width);
    RingIsOk(d.errs, d.errsLog, s.clock, s.count, s.width);
    WindowAdvances(d.errs, d.errsLog, s.clock, s.count, s.width);
    ReadIsReal(d.errs, d.errsLog, s.pass.since, s.clock, s.count, s.width);
    var d' := d.(errs := Advance(d.errs, s.width, s.clock));
    NodeChanges(s, n, d', cfg, sqrt);
    StageMoves(WithNode(s, n, d'), AtLatency(Total(d'.errs.buckets)), cfg, sqrt);
  }

  /** The pass goes to a stage whose sums are real. */
  lemma {:induction false} StageMoves(s: State, stage: Stage, cfg: Config, sqrt: real -> real)
    requires cfg.Ok() && Ok(s, cfg, sqrt) && s.pass.Reading? && |s.pass.rs| < |s.pass.list|
    requires StageOk(stage, s.nodes[s.pass.list[|s.pass.rs|]], s.pass.since, s.clock, s.count, s.width)
    ensures Ok(s.(pass := s.pass.(stage := stage)), cfg, sqrt)
  {
    hide NodeOk, RealReading, StageOk;
  }

  /** The pass finishes a reading whose sums are real. */
  lemma {:induction false} ReadingFinishes(s: State, errs: Bucket, latency: Bucket, ss: real, cpu: int, cfg: Config,
                                           sqrt: real -> real)
    requires cfg.Ok() && Ok(s, cfg, sqrt) && s.pass.Reading? && |s.pass.rs| < |s.pass.list|
    requires StageOk(AtSuccess(errs, latency), s.nodes[s.pass.list[|s.pass.rs|]], s.pass.since, s.clock, s.count,
                     s.width)
    requires errs.count != 0 && latency.count != 0 ==>
               && Reported(ss, s.nodes[s.pass.list[|s.pass.rs|]].ssLog, s.pass.since, s.clock)
               && Reported(cpu, s.nodes[s.pass.list[|s.pass.rs|]].cpuLog, s.pass.since, s.clock)
    ensures Ok(s.(pass := Finished(s.pass, errs, latency, ss, cpu)), cfg, sqrt)
  {
    hide NodeOk, RealSum;
  }

  lemma {:induction false} ReadLatencyKeepsOk(s: State, cfg: Config, sqrt: real -> real)
    requires cfg.Ok() && Ok(s, cfg, sqrt) && Enabled(s, ReadLatency)
    ensures Ok(Step(s, ReadLatency, cfg, sqrt), cfg, sqrt)
  {
    hide WindowOk, Advance, Total, RealSum, RealReading, B.Bits, RingOk;
    var n := s.pass.list[|s.pass.rs|];
    var d := s.nodes[n];
    assert NodeOk(d, s.clock, s.count, s.width);
    RingIsOk(d.latency, d.latencyLog, s.clock, s.count, s.width);
    WindowAdvances(d.latency, d.latencyLog, s.clock, s.count, s.width);
    ReadIsReal(d.latency, d.latencyLog, s.pass.since, s.clock, s.count, s.width);
    var d' := d.(latency := Advance(d.latency, s.width, s.clock));
    var errs, latency := s.pass.stage.errs, Total(d'.latency.buckets);
    NodeChanges(s, n, d', cfg, sqrt);
    var s1 := WithNode(s, n, d');
    assert StageOk(AtSuccess(errs, latency), d', s.pass.since, s.clock, s.count, s.width);
    if errs.count == 0 || latency.count == 0 {
      ReadingFinishes(s1, errs, latency, 0.0, 0, cfg, sqrt);
    } else {
      StageMoves(s1, AtSuccess(errs, latency), cfg, sqrt);
    }
  }

  lemma {:induction false} ReportsReadKeepOk(s: State, l: Label, cfg: Config, sqrt: real -> real)
    requires cfg.Ok() && Ok(s, cfg, sqrt) && Enabled(s, l) && (l.ReadSuccess? || l.ReadCpu?)
    ensures Ok(Step(s, l, cfg, sqrt), cfg, sqrt)
  {
    hide WindowOk, RealSum, RealReading, Reported, LastReport;
    var d, stage := s.nodes[s.pass.list[|s.pass.rs|]], s.pass.stage;
    assert NodeOk(d, s.clock, s.count, s.width);
    LastIsReported(d.ss, d.ssLog, s.pass.since, s.clock);
    LastIsReported(d.cpu, d.cpuLog, s.pass.since, s.clock);
    if l.ReadSuccess? {
      StageMoves(s, AtCpu(stage.errs, stage.latency, d.ss), cfg, sqrt);
    } else {
      ReadingFinishes(s, stage.errs, stage.latency, stage.ss, d.cpu, cfg, sqrt);
    }
  }

  lemma {:induction false} EndKeepsOk(s: State, cfg: Config, sqrt: real -> real)
    requires cfg.Ok() && Ok(s, cfg, sqrt) && Enabled(s, EndReading)
    ensures Ok(Step(s, EndReading, cfg, sqrt), cfg, sqrt)
  {
    hide NodeOk, RealReading, StageOk, NewWeight;
  }

  lemma {:induction false} StoreKeepsOk(s: State, cfg: Config, sqrt: real -> real)
    requires cfg.Ok() && Ok(s, cfg, sqrt) && Enabled(s, StoreNext)
    ensures Ok(Step(s, StoreNext, cfg, sqrt), cfg, sqrt)
  {
    var s' := Step(s, StoreNext, cfg, sqrt);
    StoreChanges(s, cfg, sqrt);
    StoreKeepsNodes(s, s', s.pass.list[s.pass.i]);
    hide NodesOk, OthersKeep, StoredRight, ReadingsReal, NewWeight, SampledCount, Step;
    StorePassOk(s, s', cfg, sqrt);
  }

  lemma {:induction false} StorePassOk(s: State, s': State, cfg: Config, sqrt: real -> real)
    requires cfg.Ok() && PassOk(s, cfg, sqrt) && s.pass.Storing? && Listed(s') && |s'.nodes| == |s.nodes|
    requires var n := s.pass.list[s.pass.i];
             n < |s.nodes|
             && s'.nodes == s.nodes[n := s.nodes[n].(ewt := s'.nodes[n].ewt)]
             && s'.nodes[n].ewt == NewWeight(s.pass.rs, Configured(s.nodes, s.pass.list), s.pass.i, cfg, sqrt)
    requires s'.clock == s.clock && s'.count == s.count && s'.width == s.width
    requires s'.pass == if s.pass.i + 1 == |s.pass.list| then Over(s.pass.list, s.pass.since, s.pass.was, s.pass.rs)
                        else s.pass.(i := s.pass.i + 1)
    ensures PassOk(s', cfg, sqrt)
  {
    hide OthersKeep, StoredRight, ReadingsReal, NewWeight, SampledCount;
    SameReadings(s, s');
    StoreKeepsOthers(s, s', s.pass.i);
    StoresRight(s, s', s.pass.i, cfg, sqrt);
  }

  /** The store changes one effective weight and advances the pass. */
  lemma {:induction false} StoreChanges(s: State, cfg: Config, sqrt: real -> real)
    requires cfg.Ok() && Ok(s, cfg, sqrt) && Enabled(s, StoreNext)
    ensures var s', n := Step(s, StoreNext, cfg, sqrt), s.pass.list[s.pass.i];
            var e := NewWeight(s.pass.rs, Configured(s.nodes, s.pass.list), s.pass.i, cfg, sqrt);
            && e >= 1 && s'.nodes == s.nodes[n := s.nodes[n].(ewt := e)]
            && s'.clock == s.clock && s'.count == s.count && s'.width == s.width
            && s'.pass == if s.pass.i + 1 == |s.pass.list| then Over(s.pass.list, s.pass.since, s.pass.was, s.pass.rs)
                          else s.pass.(i := s.pass.i + 1)
    ensures Listed(Step(s, StoreNext, cfg, sqrt))
  {
    hide NodesOk, OthersKeep, StoredRight, ReadingsReal;
  }

  lemma {:induction false} StoreKeepsNodes(s: State, s': State, n: nat)
    requires NodesOk(s) && n < |s.nodes| == |s'.nodes| && s'.nodes[n].ewt >= 1
    requires s'.nodes == s.nodes[n := s.nodes[n].(ewt := s'.nodes[n].ewt)]
    requires s'.clock == s.clock && s'.count == s.count && s'.width == s.width
    ensures NodesOk(s')
  {
    hide WindowOk, B.Bits;
  }

  lemma {:induction false} StoreKeepsOthers(s: State, s': State, i: nat)
    requires Listed(s) && Listed(s') && !s.pass.NoPass? && !s'.pass.NoPass? && i < |s.pass.list|
    requires s'.pass.list == s.pass.list && s'.pass.was == s.pass.was && |s'.nodes| == |s.nodes|
    requires forall n | 0 <= n < |s.nodes| && n != s.pass.list[i] :: s'.nodes[n] == s.nodes[n]
    requires OthersKeep(s, i)
    ensures OthersKeep(s', i + 1)
  {
    var list := s.pass.list;
    assert list[..i + 1] == list[..i] + [list[i]];
  }

  lemma {:induction false} StoresRight(s: State, s': State, i: nat, cfg: Config, sqrt: real -> real)
    requires cfg.Ok() && Listed(s) && Listed(s') && !s.pass.NoPass? && !s'.pass.NoPass?
    requires i < |s.pass.list| == |s.pass.rs| && SampledCount(s.pass.rs) > 0
    requires s'.pass.list == s.pass.list && s'.pass.rs == s.pass.rs && |s'.nodes| == |s.nodes|
    requires forall n | 0 <= n < |s.nodes| :: s'.nodes[n].weight == s.nodes[n].weight
    requires forall n | 0 <= n < |s.nodes| && n != s.pass.list[i] :: s'.nodes[n] == s.nodes[n]
    requires s'.nodes[s.pass.list[i]].ewt == NewWeight(s.pass.rs, Configured(s.nodes, s.pass.list), i, cfg, sqrt)
    requires StoredRight(s, i, cfg, sqrt)
    ensures StoredRight(s', i + 1, cfg, sqrt)
  {
    hide NewWeight, SampledCount;
    assert Configured(s'.nodes, s.pass.list) == Configured(s.nodes, s.pass.list);
  }

  lemma {:induction false} SameReadings(s: State, s': State)
    requires Listed(s) && ReadingsReal(s) && Listed(s') && !s.pass.NoPass? && !s'.pass.NoPass?
    requires s'.clock == s.clock && s'.count == s.count && s'.width == s.width
    requires s'.pass.rs == s.pass.rs && s'.pass.list == s.pass.list && s'.pass.since == s.pass.since
    requires |s.nodes| == |s'.nodes|
    requires forall n | 0 <= n < |s.nodes| ::
               && s'.nodes[n].errsLog == s.nodes[n].errsLog && s'.nodes[n].latencyLog == s.nodes[n].latencyLog
               && s'.nodes[n].ssLog == s.nodes[n].ssLog && s'.nodes[n].cpuLog == s.nodes[n].cpuLog
    ensures ReadingsReal(s')
  {
    hide RealSum;
  }

  lemma {:induction false} StepKeepsOk(s: State, l: Label, cfg: Config, sqrt: real -> real)
    requires cfg.Ok() && Ok(s, cfg, sqrt) && Enabled(s, l)
    ensures Ok(Step(s, l, cfg, sqrt), cfg, sqrt)
  {
    hide NodesOk, PassOk, AtStage;
    match l {
      case Tick(dt) => TickKeepsOk(s, dt, cfg, sqrt);
      case RecordErr(n, failed) => RecordErrKeepsOk(s, n, failed, cfg, sqrt);
      case RecordLatency(n, micros) => RecordLatencyKeepsOk(s, n, micros, cfg, sqrt);
      case ReportCpu(n, milli) => ReportsKeepOk(s, n, milli, 0.0, cfg, sqrt);
      case ReportSuccess(n, ratio) => ReportsKeepOk(s, n, 0, ratio, cfg, sqrt);
      case NewNode(weight) => NewNodeKeepsOk(s, weight, cfg, sqrt);
      case StartPass(list) => StartKeepsOk(s, list, cfg, sqrt);
      case ReadErrs => ReadErrsKeepsOk(s, cfg, sqrt);
      case ReadLatency => ReadLatencyKeepsOk(s, cfg, sqrt);
      case EndReading => EndKeepsOk(s, cfg, sqrt);
      case StoreNext => StoreKeepsOk(s, cfg, sqrt);
      case _ => ReportsReadKeepOk(s, l, cfg, sqrt);
    }
  }

  // ---------------------------------------------------------------- runs

  function Start(clock: int, count: nat, width: int): State {
    State([], NoPass, clock, count, width)
  }

  ghost predicate Reaches(s: State, ls: seq<Label>, s': State, cfg: Config, sqrt: real -> real)
    requires cfg.Ok() && Ok(s, cfg, sqrt)
    decreases |ls|
  {
    if ls == [] then s' == s
    else
      && Enabled(s, ls[0])
      && (StepKeepsOk(s, ls[0], cfg, sqrt); Reaches(Step(s, ls[0], cfg, sqrt), ls[1..], s', cfg, sqrt))
  }

  lemma {:induction false} RunKeepsOk(s: State, ls: seq<Label>, s': State, cfg: Config, sqrt: real -> real)
    requires cfg.Ok() && Ok(s, cfg, sqrt) && Reaches(s, ls, s', cfg, sqrt)
    ensures Ok(s', cfg, sqrt)
    decreases |ls|
  {
    hide NodesOk, PassOk, Step, Enabled;
    if ls != [] {
      StepKeepsOk(s, ls[0], cfg, sqrt);
      RunKeepsOk(Step(s, ls[0], cfg, sqrt), ls[1..], s', cfg, sqrt);
    }
  }

  lemma {:induction false} StartOk(clock: int, count: nat, width: int, cfg: Config, sqrt: real -> real)
    requires cfg.Ok() && count > 0 && width > 0
    ensures Ok(Start(clock, count, width), cfg, sqrt)
  {}

  /** A real reading counts calls, with no more failures than requests. */
  lemma {:induction false} RealReadingIsOk(r: Reading, d: Node, since: int, clock: int, count: nat, width: int)
    requires RealReading(r, d, since, clock, count, width) && B.Bits(d.errsLog)
    ensures ReadingOk(r)
  {
    hide Since;
    var at, k, cut :| RealSumAt(Bucket(r.errs, r.reqs), d.errsLog, since, clock, count, width, at, k, cut);
    var at', k', cut' :| RealSumAt(Bucket(r.latSum, r.latCnt), d.latencyLog, since, clock, count, width, at', k', cut');
    B.FailuresWithinRequests(d.errsLog[..k], cut);
    B.CountsAreCounts(d.latencyLog[..k'], cut');
  }

  /** What a pass amounts to, however calls, reports and new nodes fell between its steps, and from when it is
      over until the next one starts: every reading is real, a sum over exactly what its window had recorded
      by some moment of the pass, back to N-1 to N widths; the listed nodes weigh what the formula makes of
      these readings, or, without any sample, what they did before; and no other node's weight has moved. */
  lemma {:induction false} PassOutcome(clock: int, count: nat, width: int, ls: seq<Label>, s: State, cfg: Config,
                                       sqrt: real -> real)
    requires cfg.Ok() && Ok(Start(clock, count, width), cfg, sqrt)
        && Reaches(Start(clock, count, width), ls, s, cfg, sqrt)
    requires s.pass.Over?
    ensures var list, rs, was := s.pass.list, s.pass.rs, s.pass.was;
            && |rs| == |list| && |was| <= |s.nodes| && Distinct(list)
            && (forall i | 0 <= i < |list| :: list[i] < |was|)
            && (forall i | 0 <= i < |list| ::
                  ReadingOk(rs[i]) && RealReading(rs[i], s.nodes[list[i]], s.pass.since, s.clock, count, width))
            && (forall n | 0 <= n < |was| && n !in list :: s.nodes[n].ewt == was[n])
            && forall i | 0 <= i < |list| ::
                 s.nodes[list[i]].ewt == if SampledCount(rs) == 0 then was[list[i]]
                                         else NewWeight(rs, Configured(s.nodes, list), i, cfg, sqrt)
  {
    hide Reaches, RealReading, NewWeight, SampledCount, WindowOk;
    RunKeepsOk(Start(clock, count, width), ls, s, cfg, sqrt);
    SameWindows(Start(clock, count, width), ls, s, cfg, sqrt);
    var list := s.pass.list;
    assert list[..|list|] == list && list[..0] == [];
    forall i | 0 <= i < |list| ensures ReadingOk(s.pass.rs[i]) {
      assert NodeOk(s.nodes[list[i]], s.clock, s.count, s.width);
      RealReadingIsOk(s.pass.rs[i], s.nodes[list[i]], s.pass.since, s.clock, s.count, s.width);
    }
  }

  lemma {:induction false} SameWindows(s: State, ls: seq<Label>, s': State, cfg: Config, sqrt: real -> real)
    requires cfg.Ok() && Ok(s, cfg, sqrt) && Reaches(s, ls, s', cfg, sqrt)
    ensures s'.count == s.count && s'.width == s.width
    decreases |ls|
  {
    hide NodesOk, PassOk, Enabled, NewWeight;
    if ls != [] {
      StepKeepsOk(s, ls[0], cfg, sqrt);
      SameWindows(Step(s, ls[0], cfg, sqrt), ls[1..], s', cfg, sqrt);
    }
  }

  // ---------------------------------------------------------------- what the logs and the pass refer to

  ghost function ErrsOf(s: State, n: nat): seq<Sample> { if n < |s.nodes| then s.nodes[n].errsLog else [] }
  ghost function LatencyOf(s: State, n: nat): seq<Sample> { if n < |s.nodes| then s.nodes[n].latencyLog else [] }

  /** The outcomes that the labels record for node `n`, from `clock` on: 1 for each failed call, 0 for any other. */
  ghost function Outcomes(clock: int, ls: seq<Label>, n: nat): seq<Sample>
    decreases |ls|
  {
    if ls == [] then []
    else
      var first := if ls[0].RecordErr? && ls[0].n == n then [Sample(clock, if ls[0].failed then 1 else 0)] else [];
      first + Outcomes(After(clock, ls[0]), ls[1..], n)
  }

  /** The latencies that the labels record for node `n`. */
  ghost function Latencies(clock: int, ls: seq<Label>, n: nat): seq<Sample>
    decreases |ls|
  {
    if ls == [] then []
    else
      var first := if ls[0].RecordLatency? && ls[0].n == n then [Sample(clock, ls[0].micros)] else [];
      first + Latencies(After(clock, ls[0]), ls[1..], n)
  }

  ghost function After(clock: int, l: Label): int {
    if l.Tick? then clock + l.dt else clock
  }

  /** What the labels report for node `n`: the values after those that a new node starts with. */
  ghost function Shares(clock: int, ls: seq<Label>, n: nat): seq<Report<int>>
    decreases |ls|
  {
    if ls == [] then []
    else
      var first := if ls[0].ReportCpu? && ls[0].n == n then [Report(clock, ls[0].milli)] else [];
      first + Shares(After(clock, ls[0]), ls[1..], n)
  }

  ghost function Ratios(clock: int, ls: seq<Label>, n: nat): seq<Report<real>>
    decreases |ls|
  {
    if ls == [] then []
    else
      var first := if ls[0].ReportSuccess? && ls[0].n == n then [Report(clock, ls[0].ratio)] else [];
      first + Ratios(After(clock, ls[0]), ls[1..], n)
  }

  /** The latest pass that was started: when, and over which nodes. */
  ghost function LatestPass(clock: int, ls: seq<Label>, before: Option<(int, seq<nat>)>): Option<(int, seq<nat>)>
    decreases |ls|
  {
    if ls == [] then before
    else LatestPass(After(clock, ls[0]), ls[1..], if ls[0].StartPass? then Some((clock, ls[0].list)) else before)
  }

  ghost function PassAt(s: State): Option<(int, seq<nat>)> {
    if s.pass.NoPass? then None else Some((s.pass.since, s.pass.list))
  }

  lemma {:induction false} StepLogs(s: State, l: Label, cfg: Config, sqrt: real -> real, n: nat)
    requires cfg.Ok() && Ok(s, cfg, sqrt) && Enabled(s, l)
    ensures var s' := Step(s, l, cfg, sqrt);
            && s'.clock == After(s.clock, l) && |s'.nodes| >= |s.nodes|
            && ErrsOf(s', n) == ErrsOf(s, n) + Outcomes(s.clock, [l], n)
            && LatencyOf(s', n) == LatencyOf(s, n) + Latencies(s.clock, [l], n)
            && PassAt(s') == LatestPass(s.clock, [l], PassAt(s))
  {
    hide Ok, Advance, Put, Total, NewWeight, SampledCount;
    assert [l][1..] == [];
  }

  lemma {:induction false} StepReports(s: State, l: Label, cfg: Config, sqrt: real -> real, n: nat)
    requires cfg.Ok() && Ok(s, cfg, sqrt) && Enabled(s, l) && n < |s.nodes|
    ensures var s' := Step(s, l, cfg, sqrt);
            && n < |s'.nodes|
            && s'.nodes[n].cpuLog == s.nodes[n].cpuLog + Shares(s.clock, [l], n)
            && s'.nodes[n].ssLog == s.nodes[n].ssLog + Ratios(s.clock, [l], n)
  {
    hide Ok, Advance, Put, Total, NewWeight, SampledCount;
    assert [l][1..] == [];
  }

  lemma {:induction false} FirstThenRest(clock: int, ls: seq<Label>, n: nat, before: Option<(int, seq<nat>)>)
    requires ls != []
    ensures var l, rest := ls[0], ls[1..];
            && Outcomes(clock, ls, n) == Outcomes(clock, [l], n) + Outcomes(After(clock, l), rest, n)
            && Latencies(clock, ls, n) == Latencies(clock, [l], n) + Latencies(After(clock, l), rest, n)
            && Shares(clock, ls, n) == Shares(clock, [l], n) + Shares(After(clock, l), rest, n)
            && Ratios(clock, ls, n) == Ratios(clock, [l], n) + Ratios(After(clock, l), rest, n)
            && LatestPass(clock, ls, before) == LatestPass(After(clock, l), rest, LatestPass(clock, [l], before))
  {
    assert [ls[0]][1..] == [];
  }

  /** A node starts with its weight as effective weight, assumed healthy and idle; only a store of a pass moves its
      effective weight, and nothing its weight. */
  lemma {:induction false} OnlyStoresMoveWeights(s: State, l: Label, cfg: Config, sqrt: real -> real)
    requires cfg.Ok() && Ok(s, cfg, sqrt) && Enabled(s, l)
    ensures var s' := Step(s, l, cfg, sqrt);
            && |s'.nodes| == |s.nodes| + (if l.NewNode? then 1 else 0)
            && (l.NewNode? ==>
                  var d := s'.nodes[|s.nodes|];
                  d.weight == d.ewt == l.weight && d.ss == 1.0 && d.cpu == 0 && d.errsLog == d.latencyLog == [])
            && (forall n | 0 <= n < |s.nodes| :: s'.nodes[n].weight == s.nodes[n].weight)
            && (forall n | 0 <= n < |s.nodes| ::
                  s'.nodes[n].ewt == s.nodes[n].ewt || (l.StoreNext? && s.pass.list[s.pass.i] == n))
  {
    hide Ok, Advance, Put, Total, NewWeight, SampledCount;
  }

  /** Whatever a pass is doing, time can go on, calls can finish, reports arrive and nodes join, and none of these
      moves the pass. */
  lemma {:induction false} AnythingMeanwhile(s: State, n: nat, dt: nat, failed: bool, v: int, ratio: real, weight: int,
                                             cfg: Config, sqrt: real -> real)
    requires cfg.Ok() && Ok(s, cfg, sqrt) && n < |s.nodes| && weight >= 1
    ensures forall l | l in {Tick(dt), RecordErr(n, failed), RecordLatency(n, v), ReportCpu(n, v),
                             ReportSuccess(n, ratio), NewNode(weight)} ::
              Enabled(s, l) && Step(s, l, cfg, sqrt).pass == s.pass
  {
    hide Ok, Advance, Put;
  }

  /** The windows' logs are the calls of the run and nothing else, in order: the readings of a pass, which sum over
      them, count the calls that really failed and their real latencies. And a pass refers to the time and the
      nodes with which it was started. */
  lemma {:induction false} LogsAreCalls(s: State, ls: seq<Label>, s': State, cfg: Config, sqrt: real -> real, n: nat)
    requires cfg.Ok() && Ok(s, cfg, sqrt) && Reaches(s, ls, s', cfg, sqrt)
    ensures ErrsOf(s', n) == ErrsOf(s, n) + Outcomes(s.clock, ls, n)
    ensures LatencyOf(s', n) == LatencyOf(s, n) + Latencies(s.clock, ls, n)
    ensures PassAt(s') == LatestPass(s.clock, ls, PassAt(s))
    decreases |ls|
  {
    hide NodesOk, PassOk, Step, Enabled, ErrsOf, LatencyOf, PassAt;
    if ls == [] {
      assert ErrsOf(s, n) + [] == ErrsOf(s, n) && LatencyOf(s, n) + [] == LatencyOf(s, n);
    } else {
      StepKeepsOk(s, ls[0], cfg, sqrt);
      StepLogs(s, ls[0], cfg, sqrt, n);
      FirstThenRest(s.clock, ls, n, PassAt(s));
      LogsAreCalls(Step(s, ls[0], cfg, sqrt), ls[1..], s', cfg, sqrt, n);
      hide Outcomes, Latencies, LatestPass;
    }
  }

  /** So are the reports of a node from any time on. */
  lemma {:induction false} ReportsAreCalls(s: State, ls: seq<Label>, s': State, cfg: Config, sqrt: real -> real, n: nat)
    requires cfg.Ok() && Ok(s, cfg, sqrt) && Reaches(s, ls, s', cfg, sqrt) && n < |s.nodes|
    ensures n < |s'.nodes|
    ensures s'.nodes[n].cpuLog == s.nodes[n].cpuLog + Shares(s.clock, ls, n)
    ensures s'.nodes[n].ssLog == s.nodes[n].ssLog + Ratios(s.clock, ls, n)
    decreases |ls|
  {
    hide NodesOk, PassOk, Step, Enabled;
    if ls != [] {
      StepKeepsOk(s, ls[0], cfg, sqrt);
      StepLogs(s, ls[0], cfg, sqrt, n);
      StepReports(s, ls[0], cfg, sqrt, n);
      FirstThenRest(s.clock, ls, n, None);
      ReportsAreCalls(Step(s, ls[0], cfg, sqrt), ls[1..], s', cfg, sqrt, n);
      hide Shares, Ratios;
    }
  }

  // ---------------------------------------------------------------- a pass that nobody interrupts

  lemma {:induction false} OneMoreStep(s: State, ls: seq<Label>, mid: State, l: Label, cfg: Config, sqrt: real -> real)
    requires cfg.Ok() && Ok(s, cfg, sqrt) && Reaches(s, ls, mid, cfg, sqrt)
    requires Ok(mid, cfg, sqrt) && Enabled(mid, l)
    ensures Ok(Step(mid, l, cfg, sqrt), cfg, sqrt)
    ensures Reaches(s, ls + [l], Step(mid, l, cfg, sqrt), cfg, sqrt)
    decreases |ls|
  {
    hide NodesOk, PassOk, Step, Enabled;
    StepKeepsOk(mid, l, cfg, sqrt);
    if ls == [] {
      assert [l][1..] == [] && [] + [l] == [l];
      assert Reaches(Step(mid, l, cfg, sqrt), [], Step(mid, l, cfg, sqrt), cfg, sqrt);
    } else {
      StepKeepsOk(s, ls[0], cfg, sqrt);
      OneMoreStep(Step(s, ls[0], cfg, sqrt), ls[1..], mid, l, cfg, sqrt);
      assert (ls + [l])[1..] == ls[1..] + [l];
    }
  }

  /** What a reading of the node is now. */
  function ReadNow(d: Node, clock: int, width: int): Reading
    requires RingOk(d.errs) && RingOk(d.latency) && width > 0
  {
    var e, l := Total(Advance(d.errs, width, clock).buckets), Total(Advance(d.latency, width, clock).buckets);
    if e.count == 0 || l.count == 0 then Scoring.Reading(e.sum, e.count, l.sum, l.count, 0.0, 0)
    else Scoring.Reading(e.sum, e.count, l.sum, l.count, d.ss, d.cpu)
  }

  lemma {:induction false} RingsOk(s: State, n: nat)
    requires NodesOk(s) && n < |s.nodes|
    ensures RingOk(s.nodes[n].errs) && RingOk(s.nodes[n].latency) && s.width > 0
  {
    assert NodeOk(s.nodes[n], s.clock, s.count, s.width);
  }

  /** A reading pass with readings `rs`, at `stage`. */
  function Now(s: State, rs: seq<Reading>, stage: Stage): Pass
    requires s.pass.Reading?
  {
    Pass.Reading(s.pass.list, s.pass.since, s.pass.was, rs, stage)
  }

  ghost predicate OnlyRead(s: State, s': State, n: nat) {
    && n < |s.nodes| == |s'.nodes| && s'.clock == s.clock && s'.width == s.width
    && (forall m | 0 <= m < |s.nodes| && m != n :: s'.nodes[m] == s.nodes[m])
    && s'.nodes[n].ss == s.nodes[n].ss && s'.nodes[n].cpu == s.nodes[n].cpu
  }

  lemma {:induction false} ReadSums(s: State, cfg: Config, sqrt: real -> real, n: nat, s0: State, ls0: seq<Label>)
    returns (ls: seq<Label>, s': State)
    requires cfg.Ok() && Ok(s, cfg, sqrt) && s.pass.Reading? && s.pass.stage.AtErrs? && |s.pass.rs| < |s.pass.list|
    requires n == s.pass.list[|s.pass.rs|]
    requires Ok(s0, cfg, sqrt) && Reaches(s0, ls0, s, cfg, sqrt)
    ensures Ok(s', cfg, sqrt) && Reaches(s0, ls, s', cfg, sqrt) && OnlyRead(s, s', n)
    ensures RingOk(s.nodes[n].errs) && RingOk(s.nodes[n].latency) && s.width > 0
    ensures var e := Total(Advance(s.nodes[n].errs, s.width, s.clock).buckets);
            var l := Total(Advance(s.nodes[n].latency, s.width, s.clock).buckets);
            s'.pass == if e.count == 0 || l.count == 0
                       then Now(s, s.pass.rs + [ReadNow(s.nodes[n], s.clock, s.width)], AtErrs)
                       else Now(s, s.pass.rs, AtSuccess(e, l))
  {
    ListedNode(s, cfg, sqrt);
    RingsOk(s, n);
    hide Ok, Reaches, Advance, Total, NodesOk, NewWeight, SampledCount, RingOk;
    OneMoreStep(s0, ls0, s, ReadErrs, cfg, sqrt);
    var s1 := Step(s, ReadErrs, cfg, sqrt);
    ListedNode(s1, cfg, sqrt);
    OneMoreStep(s0, ls0 + [ReadErrs], s1, ReadLatency, cfg, sqrt);
    ls, s' := ls0 + [ReadErrs] + [ReadLatency], Step(s1, ReadLatency, cfg, sqrt);
  }

  lemma {:induction false} ReadReports(s: State, cfg: Config, sqrt: real -> real, n: nat, s0: State, ls0: seq<Label>)
    returns (ls: seq<Label>, s': State)
    requires cfg.Ok() && Ok(s, cfg, sqrt) && s.pass.Reading? && s.pass.stage.AtSuccess? && |s.pass.rs| < |s.pass.list|
    requires n == s.pass.list[|s.pass.rs|]
    requires Ok(s0, cfg, sqrt) && Reaches(s0, ls0, s, cfg, sqrt)
    ensures Ok(s', cfg, sqrt) && Reaches(s0, ls, s', cfg, sqrt) && n < |s.nodes|
    ensures var e, l := s.pass.stage.errs, s.pass.stage.latency;
            var r := Scoring.Reading(e.sum, e.count, l.sum, l.count, s.nodes[n].ss, s.nodes[n].cpu);
            s' == s.(pass := Now(s, s.pass.rs + [r], AtErrs))
  {
    ListedNode(s, cfg, sqrt);
    hide Ok, Reaches, Advance, Total, NodesOk, NewWeight, SampledCount, RingOk;
    OneMoreStep(s0, ls0, s, ReadSuccess, cfg, sqrt);
    var s1 := Step(s, ReadSuccess, cfg, sqrt);
    ListedNode(s1, cfg, sqrt);
    OneMoreStep(s0, ls0 + [ReadSuccess], s1, ReadCpu, cfg, sqrt);
    ls, s' := ls0 + [ReadSuccess] + [ReadCpu], Step(s1, ReadCpu, cfg, sqrt);
  }

  /** One node's reading: its sums, and, with samples of both, its two reports. */
  lemma {:induction false} ReadOne(s: State, cfg: Config, sqrt: real -> real, n: nat, s0: State, ls0: seq<Label>)
    returns (ls: seq<Label>, s': State)
    requires cfg.Ok() && Ok(s, cfg, sqrt) && s.pass.Reading? && s.pass.stage.AtErrs? && |s.pass.rs| < |s.pass.list|
    requires n == s.pass.list[|s.pass.rs|]
    requires Ok(s0, cfg, sqrt) && Reaches(s0, ls0, s, cfg, sqrt)
    ensures Ok(s', cfg, sqrt) && Reaches(s0, ls, s', cfg, sqrt) && OnlyRead(s, s', n)
    ensures RingOk(s.nodes[n].errs) && RingOk(s.nodes[n].latency) && s.width > 0
    ensures s'.pass == Now(s, s.pass.rs + [ReadNow(s.nodes[n], s.clock, s.width)], AtErrs)
  {
    hide Ok, Reaches, Advance, Total, RingOk;
    ls, s' := ReadSums(s, cfg, sqrt, n, s0, ls0);
    if !s'.pass.stage.AtErrs? {
      ls, s' := ReadReports(s', cfg, sqrt, n, s0, ls);
    }
  }

  ghost predicate RingsInOrder(s: State) {
    s.width > 0 && forall n | 0 <= n < |s.nodes| :: RingOk(s.nodes[n].errs) && RingOk(s.nodes[n].latency)
  }

  lemma {:induction false} RingsAreInOrder(s: State)
    requires NodesOk(s)
    ensures RingsInOrder(s)
  {
    hide NodesOk, RingOk;
    forall n | 0 <= n < |s.nodes| ensures RingOk(s.nodes[n].errs) && RingOk(s.nodes[n].latency) {
      RingsOk(s, n);
    }
    assert s.width > 0 by { WidthPositive(s); }
  }

  lemma {:induction false} WidthPositive(s: State)
    requires NodesOk(s)
    ensures s.width > 0
  {}

  /** The readings from place `k` on are what the nodes show in state `s`. */
  ghost predicate ReadingsOf(rs: seq<Reading>, k: nat, s: State, list: seq<nat>)
    requires RingsInOrder(s) && |rs| == |list| && forall i | 0 <= i < |list| :: list[i] < |s.nodes|
  {
    forall i | k <= i < |rs| :: rs[i] == ReadNow(s.nodes[list[i]], s.clock, s.width)
  }

  lemma {:induction false} OneMoreReading(rs: seq<Reading>, k: nat, s: State, s1: State, list: seq<nat>)
    requires RingsInOrder(s) && RingsInOrder(s1) && Distinct(list) && k < |list| == |rs|
    requires forall i | 0 <= i < |list| :: list[i] < |s.nodes|
    requires OnlyRead(s, s1, list[k]) && ReadingsOf(rs, k + 1, s1, list)
    requires rs[k] == ReadNow(s.nodes[list[k]], s.clock, s.width)
    ensures ReadingsOf(rs, k, s, list)
  {
    hide ReadNow, RingOk;
  }

  /** All the readings that are left. */
  lemma {:induction false} ReadRest(s: State, cfg: Config, sqrt: real -> real, s0: State, ls0: seq<Label>)
    returns (ls: seq<Label>, s': State)
    requires cfg.Ok() && Ok(s, cfg, sqrt) && s.pass.Reading? && s.pass.stage.AtErrs? && |s.pass.rs| <= |s.pass.list|
    requires Ok(s0, cfg, sqrt) && Reaches(s0, ls0, s, cfg, sqrt) && RingsInOrder(s) && Distinct(s.pass.list)
    requires forall i | 0 <= i < |s.pass.list| :: s.pass.list[i] < |s.nodes|
    ensures Ok(s', cfg, sqrt) && Reaches(s0, ls, s', cfg, sqrt)
    ensures s'.pass.Reading? && s'.pass.list == s.pass.list && |s'.pass.rs| == |s.pass.list| && s.pass.rs <= s'.pass.rs
    ensures ReadingsOf(s'.pass.rs, |s.pass.rs|, s, s.pass.list)
    decreases |s.pass.list| - |s.pass.rs|
  {
    hide Ok, Reaches, ReadNow, RingsInOrder, Distinct, ReadingsOf, NodesOk;
    ls, s' := ls0, s;
    var k, list := |s.pass.rs|, s.pass.list;
    if k < |list| {
      var ls1, s1 := ReadOne(s, cfg, sqrt, list[k], s0, ls0);
      OkNodes(s1, cfg, sqrt);
      RingsAreInOrder(s1);
      ls, s' := ReadRest(s1, cfg, sqrt, s0, ls1);
      assert s'.pass.rs[k] == s1.pass.rs[k];
      OneMoreReading(s'.pass.rs, k, s, s1, list);
    } else {
      NoMoreReadings(s.pass.rs, s, list);
    }
  }

  lemma {:induction false} NoMoreReadings(rs: seq<Reading>, s: State, list: seq<nat>)
    requires RingsInOrder(s) && |rs| == |list| && forall i | 0 <= i < |list| :: list[i] < |s.nodes|
    ensures ReadingsOf(rs, |rs|, s, list)
  {}

  lemma {:induction false} OkNodes(s: State, cfg: Config, sqrt: real -> real)
    requires cfg.Ok() && Ok(s, cfg, sqrt)
    ensures NodesOk(s) && Listed(s)
  {}

  /** All the stores that are left. */
  lemma {:induction false} StoreRest(s: State, cfg: Config, sqrt: real -> real, s0: State, ls0: seq<Label>)
    returns (ls: seq<Label>, s': State)
    requires cfg.Ok() && Ok(s, cfg, sqrt) && s.pass.Storing?
    requires Ok(s0, cfg, sqrt) && Reaches(s0, ls0, s, cfg, sqrt)
    ensures Ok(s', cfg, sqrt) && Reaches(s0, ls, s', cfg, sqrt)
    ensures s'.pass == Over(s.pass.list, s.pass.since, s.pass.was, s.pass.rs)
    decreases |s.pass.list| - s.pass.i
  {
    StoringInRange(s, cfg, sqrt);
    hide Ok, Reaches, NewWeight, SampledCount;
    OneMoreStep(s0, ls0, s, StoreNext, cfg, sqrt);
    ls, s' := ls0 + [StoreNext], Step(s, StoreNext, cfg, sqrt);
    if s'.pass.Storing? {
      ls, s' := StoreRest(s', cfg, sqrt, s0, ls);
    }
  }

  lemma {:induction false} StoringInRange(s: State, cfg: Config, sqrt: real -> real)
    requires cfg.Ok() && Ok(s, cfg, sqrt) && s.pass.Storing?
    ensures Enabled(s, StoreNext)
  {
    hide NodeOk, ReadingsReal, OthersKeep, StoredRight;
  }

  /** A pass can run at any time and over any nodes, and one that nobody interrupts reads what every node shows at
      its start; so, with `PassOutcome`, its weights are those that the sequential pass gives. */
  lemma {:induction false} PassAlone(clock: int, count: nat, width: int, pre: seq<Label>, s: State, list: seq<nat>,
                                     cfg: Config, sqrt: real -> real)
    returns (ls: seq<Label>, s': State)
    requires cfg.Ok() && Ok(Start(clock, count, width), cfg, sqrt)
    requires Reaches(Start(clock, count, width), pre, s, cfg, sqrt)
    requires s.pass.NoPass? || s.pass.Over?
    requires forall i | 0 <= i < |list| :: list[i] < |s.nodes| && forall j | i < j < |list| :: list[i] != list[j]
    ensures Ok(s', cfg, sqrt) && Reaches(Start(clock, count, width), ls, s', cfg, sqrt)
    ensures s'.pass.Over? && s'.pass.list == list && |s'.pass.rs| == |list|
    ensures RingsInOrder(s) && ReadingsOf(s'.pass.rs, 0, s, list)
  {
    var s0 := Start(clock, count, width);
    RunKeepsOk(s0, pre, s, cfg, sqrt);
    assert Distinct(list);
    hide Ok, Reaches, RingsInOrder, ReadNow, Distinct, ReadingsOf;
    var s1 := BeginPass(s, list, cfg, sqrt, s0, pre);
    var ls2, s2 := ReadRest(s1, cfg, sqrt, s0, pre + [StartPass(list)]);
    ls, s' := FinishPass(s2, cfg, sqrt, s0, ls2);
    SameReadingsOf(s'.pass.rs, s, s1, list);
  }

  lemma {:induction false} BeginPass(s: State, list: seq<nat>, cfg: Config, sqrt: real -> real, s0: State,
                                     ls0: seq<Label>)
    returns (s': State)
    requires cfg.Ok() && Ok(s, cfg, sqrt) && (s.pass.NoPass? || s.pass.Over?) && Distinct(list)
    requires forall i | 0 <= i < |list| :: list[i] < |s.nodes|
    requires Ok(s0, cfg, sqrt) && Reaches(s0, ls0, s, cfg, sqrt)
    ensures Ok(s', cfg, sqrt) && Reaches(s0, ls0 + [StartPass(list)], s', cfg, sqrt)
    ensures s' == s.(pass := Pass.Reading(list, s.clock, Weights(s.nodes), [], AtErrs))
    ensures RingsInOrder(s) && RingsInOrder(s')
  {
    OkNodes(s, cfg, sqrt);
    RingsAreInOrder(s);
    hide Ok, Reaches, NewWeight, SampledCount, NodesOk, RingsInOrder;
    OneMoreStep(s0, ls0, s, StartPass(list), cfg, sqrt);
    s' := Step(s, StartPass(list), cfg, sqrt);
    SameRings(s, s');
  }

  lemma {:induction false} FinishPass(s: State, cfg: Config, sqrt: real -> real, s0: State, ls0: seq<Label>)
    returns (ls: seq<Label>, s': State)
    requires cfg.Ok() && Ok(s, cfg, sqrt) && s.pass.Reading? && |s.pass.rs| == |s.pass.list|
    requires Ok(s0, cfg, sqrt) && Reaches(s0, ls0, s, cfg, sqrt)
    ensures Ok(s', cfg, sqrt) && Reaches(s0, ls, s', cfg, sqrt)
    ensures s'.pass == Over(s.pass.list, s.pass.since, s.pass.was, s.pass.rs)
  {
    hide Ok, Reaches, NewWeight, SampledCount;
    OneMoreStep(s0, ls0, s, EndReading, cfg, sqrt);
    ls, s' := ls0 + [EndReading], Step(s, EndReading, cfg, sqrt);
    if s'.pass.Storing? {
      ls, s' := StoreRest(s', cfg, sqrt, s0, ls);
    }
  }

  lemma {:induction false} SameRings(s: State, s1: State)
    requires RingsInOrder(s) && s1.nodes == s.nodes && s1.width == s.width
    ensures RingsInOrder(s1)
  {}

  lemma {:induction false} SameReadingsOf(rs: seq<Reading>, s: State, s1: State, list: seq<nat>)
    requires RingsInOrder(s) && RingsInOrder(s1) && s1.nodes == s.nodes && s1.width == s.width && s1.clock == s.clock
    requires |rs| == |list| && (forall i | 0 <= i < |list| :: list[i] < |s.nodes|) && ReadingsOf(rs, 0, s1, list)
    ensures ReadingsOf(rs, 0, s, list)
  {}

  lemma {:induction false} ListedNode(s: State, cfg: Config, sqrt: real -> real)
    requires cfg.Ok() && Ok(s, cfg, sqrt) && s.pass.Reading? && |s.pass.rs| < |s.pass.list|
    ensures s.pass.list[|s.pass.rs|] < |s.nodes| && NodesOk(s)
  {
    hide NodeOk, ReadingsReal, OthersKeep, StageOk;
  }
}
