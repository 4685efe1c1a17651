/** Guard's count of heartbeats over runs, and what it makes the evaluations decide. */
module GuardAccounting {
  import opened Arithmetic
  import opened RegistryState
  import opened RegistrySystem

  /** A register or renew call that succeeds when it is made in `s`. */
  ghost predicate Beat(s: Sys, l: Label) {
    || (l.RegisterCall? && Complete(l.ins))
    || (l.RenewCall? && Has(s.reg, l.name, l.id))
  }

  /** The instance that a heartbeat is for. */
  ghost function Key(l: Label): (string, string) {
    match l
    case RegisterCall(ins, _) => (ins.service, ins.id)
    case RenewCall(name, id) => (name, id)
    case _ => ("", "")
  }

  ghost const EVERYONE: iset<(string, string)> := iset k: (string, string) | true

  ghost function Tally(s: Sys, l: Label, who: iset<(string, string)>, n: nat): nat {
    if l.EvaluateLock? || l.Restart? then 0
    else if Beat(s, l) && Key(l) in who then n + 1
    else n
  }

  /** Successful heartbeats for the instances `who` since the last evaluation on the run, on top of `n`. */
  ghost function Heard(s: Sys, ls: seq<Label>, s': Sys, cfg: Config, who: iset<(string, string)>, n: nat): nat
    requires Inv(s) && cfg.Ok() && Reaches(s, ls, s', cfg)
    decreases |ls|
  {
    if ls == [] then n
    else
      StepKeepsInv(s, ls[0], cfg);
      Heard(Step(s, ls[0], cfg), ls[1..], s', cfg, who, Tally(s, ls[0], who, n))
  }

  lemma {:induction false} StepCounts(s: Sys, l: Label, cfg: Config)
    requires Inv(s) && cfg.Ok() && Enabled(s, l) && s.reg.renews >= 0
    ensures Step(s, l, cfg).reg.renews == Tally(s, l, EVERYONE, s.reg.renews)
  {
    hide Ok, PollersOk, RenewedBy, Swept, Hollow;
  }

  /** The counter is exact: at every point of every run `renews` is the number of successful register and
      renew calls since the previous evaluation. */
  lemma {:induction false} RenewsAreHeartbeats(s: Sys, ls: seq<Label>, s': Sys, cfg: Config)
    requires Inv(s) && cfg.Ok() && Reaches(s, ls, s', cfg) && s.reg.renews >= 0
    ensures s'.reg.renews == Heard(s, ls, s', cfg, EVERYONE, s.reg.renews)
    decreases |ls|
  {
    hide Step, Enabled, Ok, PollersOk, RenewedBy, LoopOk, Tally;
    if ls != [] {
      StepKeepsInv(s, ls[0], cfg);
      StepCounts(s, ls[0], cfg);
      RenewsAreHeartbeats(Step(s, ls[0], cfg), ls[1..], s', cfg);
    }
  }

  lemma {:induction false} HeardAddsUp(s: Sys, ls: seq<Label>, s': Sys, cfg: Config,
                                       who: iset<(string, string)>, k: (string, string), a: nat, b: nat)
    requires Inv(s) && cfg.Ok() && Reaches(s, ls, s', cfg) && k !in who
    ensures Heard(s, ls, s', cfg, who + iset{k}, a + b)
        == Heard(s, ls, s', cfg, who, a) + Heard(s, ls, s', cfg, iset{k}, b)
    decreases |ls|
  {
    hide Step, Enabled, Ok, PollersOk, RenewedBy, LoopOk, Beat, Key;
    if ls != [] {
      StepKeepsInv(s, ls[0], cfg);
      HeardAddsUp(Step(s, ls[0], cfg), ls[1..], s', cfg, who, k,
                  Tally(s, ls[0], who, a), Tally(s, ls[0], iset{k}, b));
    }
  }

  lemma {:induction false} HeardByAll(s: Sys, ls: seq<Label>, s': Sys, cfg: Config, who: iset<(string, string)>,
                                      a: nat, b: nat)
    requires Inv(s) && cfg.Ok() && Reaches(s, ls, s', cfg) && a <= b
    ensures Heard(s, ls, s', cfg, who, a) <= Heard(s, ls, s', cfg, EVERYONE, b)
    decreases |ls|
  {
    hide Step, Enabled, Ok, PollersOk, RenewedBy, LoopOk, Beat, Key;
    if ls != [] {
      StepKeepsInv(s, ls[0], cfg);
      HeardByAll(Step(s, ls[0], cfg), ls[1..], s', cfg, who,
                 Tally(s, ls[0], who, a), Tally(s, ls[0], EVERYONE, b));
    }
  }

  ghost function Infinite(who: set<(string, string)>): iset<(string, string)> {
    iset k | k in who
  }

  lemma {:induction false} EachAddsUp(s: Sys, ls: seq<Label>, s': Sys, cfg: Config, who: set<(string, string)>, h: nat)
    requires Inv(s) && cfg.Ok() && Reaches(s, ls, s', cfg)
    requires forall k | k in who :: Heard(s, ls, s', cfg, iset{k}, 0) >= h
    ensures Heard(s, ls, s', cfg, Infinite(who), 0) >= |who| * h
    decreases |who|
  {
    hide Heard, Reaches, Inv;
    if who != {} {
      var k :| k in who;
      EachAddsUp(s, ls, s', cfg, who - {k}, h);
      HeardAddsUp(s, ls, s', cfg, Infinite(who - {k}), k, 0, 0);
      assert Infinite(who - {k}) + iset{k} == Infinite(who);
      assert |who| * h == |who - {k}| * h + h;
    }
  }

  /** What an evaluation decides, in terms of the run: protected exactly when the heartbeats heard since
      the previous evaluation fall short of the threshold share of those expected from `n` instances. */
  lemma {:induction false} EvaluationVerdict(s: Sys, ls: seq<Label>, s': Sys, cfg: Config)
    requires Inv(s) && cfg.Ok() && Reaches(s, ls, s', cfg) && s.reg.renews == 0 && s'.loop.Counted?
    ensures var n, heard := s'.loop.count, Heard(s, ls, s', cfg, EVERYONE, 0);
            Evaluate(s'.reg, n, cfg).protected <==>
              cfg.guardThreshold > 0.0 && n > 0 && heard as real < n as real * cfg.PerInstance() * cfg.guardThreshold
  {
    hide Heard, Reaches;
    RunKeepsInv(s, ls, s', cfg);
    RenewsAreHeartbeats(s, ls, s', cfg);
    ExpectedPositive(s'.loop.count, cfg);
  }

  lemma {:induction false} ExpectedPositive(n: int, cfg: Config)
    requires cfg.Ok() && n >= 0
    ensures cfg.PerInstance() > 0.0
    ensures n as real * cfg.PerInstance() > 0.0 <==> n > 0
  {}

  /** Enough instances that each beat often enough keep Guard unprotected, whatever the others do. */
  lemma {:induction false} EnoughHeartbeatsStayOpen(s: Sys, ls: seq<Label>, s': Sys, cfg: Config,
                                                    who: set<(string, string)>, h: nat)
    requires Inv(s) && cfg.Ok() && Reaches(s, ls, s', cfg) && s.reg.renews == 0 && s'.loop.Counted?
    requires forall k | k in who :: Heard(s, ls, s', cfg, iset{k}, 0) >= h
    requires (|who| * h) as real >= s'.loop.count as real * cfg.PerInstance() * cfg.guardThreshold
    ensures !Evaluate(s'.reg, s'.loop.count, cfg).protected
  {
    hide Heard, Reaches, Inv, Evaluate;
    EvaluationVerdict(s, ls, s', cfg);
    EachAddsUp(s, ls, s', cfg, who, h);
    HeardByAll(s, ls, s', cfg, Infinite(who), 0, 0);
  }

  /** A silent window with any instance present protects, if Guard is enabled at all. */
  lemma {:induction false} SilenceProtects(s: Sys, ls: seq<Label>, s': Sys, cfg: Config)
    requires Inv(s) && cfg.Ok() && Reaches(s, ls, s', cfg) && s.reg.renews == 0 && s'.loop.Counted?
    requires Heard(s, ls, s', cfg, EVERYONE, 0) == 0 && s'.loop.count > 0
    ensures Evaluate(s'.reg, s'.loop.count, cfg).protected <==> cfg.guardThreshold > 0.0
  {
    hide Heard, Reaches, Inv, Evaluate;
    EvaluationVerdict(s, ls, s', cfg);
    ExpectedPositive(s'.loop.count, cfg);
    if cfg.guardThreshold > 0.0 {
      ProductPositive(s'.loop.count as real * cfg.PerInstance(), cfg.guardThreshold);
    }
  }
}
