/** The network partition when heartbeats are regular. An instance that keeps its interval cannot be heard often
    in a short time, so a window that has heard enough before the partition must have begun well before it,
    and the silent window after it ends that much earlier. */
module RegularBeats {
  import opened Arithmetic
  import opened GuardAccounting
  import opened Partition
  import opened RegistryState
  import opened RegistrySystem
  import L = Lifetimes

  /** Nobody leaves, nothing is evaluated, and no instance beats earlier than one interval after its last beat. */
  ghost predicate RegularStep(s: Sys, l: Label, cfg: Config)
    requires Inv(s) && cfg.Ok() && Enabled(s, l)
  {
    && !l.EvaluateLock? && !l.Restart?
    && (forall name, id | Has(s.reg, name, id) :: Has(Step(s, l, cfg).reg, name, id))
    && (Beat(s, l) && Has(s.reg, Key(l).0, Key(l).1) ==>
          s.clock - s.reg.services[Key(l).0].instances[Key(l).1].lastRenew >= cfg.heartbeatInterval)
  }

  /** The part of a window before the partition: from an evaluation at `s` to the partition at `s'`. */
  ghost predicate Regular(s: Sys, ls: seq<Label>, s': Sys, cfg: Config)
    requires Inv(s) && cfg.Ok()
    decreases |ls|
  {
    if ls == [] then s' == s
    else
      && Enabled(s, ls[0]) && RegularStep(s, ls[0], cfg)
      && (StepKeepsInv(s, ls[0], cfg); Regular(Step(s, ls[0], cfg), ls[1..], s', cfg))
  }

  lemma {:induction false} RegularReaches(s: Sys, ls: seq<Label>, s': Sys, cfg: Config)
    requires Inv(s) && cfg.Ok() && Regular(s, ls, s', cfg)
    ensures Reaches(s, ls, s', cfg) && s.clock <= s'.clock && Inv(s')
    ensures forall name, id | Has(s.reg, name, id) :: Has(s'.reg, name, id)
    decreases |ls|
  {
    hide Step, Enabled, Ok, PollersOk, RenewedBy, LoopOk, Has;
    if ls != [] {
      StepKeepsInv(s, ls[0], cfg);
      ClockGoesOn(s, ls[0], cfg);
      RegularReaches(Step(s, ls[0], cfg), ls[1..], s', cfg);
    }
  }

  // ---------------------------------------------------------------- how often one instance can beat

  /** What a step leaves of an instance that is there afterwards: renewed now by its own heartbeat, or as it was. */
  lemma {:induction false} EntryAfter(s: Sys, l: Label, cfg: Config, name: string, id: string)
    requires Inv(s) && cfg.Ok() && Enabled(s, l) && !l.Restart?
    ensures Beat(s, l) && Key(l) == (name, id) ==>
              Has(Step(s, l, cfg).reg, name, id)
              && Step(s, l, cfg).reg.services[name].instances[id].lastRenew == s.clock
    ensures !(Beat(s, l) && Key(l) == (name, id)) && Has(s.reg, name, id) && Has(Step(s, l, cfg).reg, name, id) ==>
              Step(s, l, cfg).reg.services[name].instances[id] == s.reg.services[name].instances[id]
  {
    hide Ok, PollersOk, RenewedBy, LoopOk, Register, Renew, Cancel, Sweep, Evaluate, Release, Touch, Wait;
    match l {
      case RegisterCall(ins, wall) => L.RegisterTouchesOne(s.reg, ins, s.clock, wall, name, id);
      case RenewCall(n, i) => L.RenewTouchesOne(s.reg, n, i, s.clock, name, id);
      case CancelCall(n, i, wall) => L.CancelTouchesOne(s.reg, n, i, wall, name, id);
      case PollLock(p) => L.PollTouchesNone(s.reg, s.pollers[p].name, name, id);
      case LeaveLock(p) => L.PollTouchesNone(s.reg, s.pollers[p].name, name, id);
      case SweepLock(walls) =>
        if Has(s.reg, name, id) {
          SweepRemoves(s.reg, cfg, s.loop.protected, s.loop.now, walls, name, id);
        }
      case EvaluateLock => L.EvaluateTouchesNone(s.reg, s.loop.count, cfg, name, id);
      case _ =>
    }
  }

  /** Between its n beats since `t0` there are n - 1 whole intervals. */
  ghost predicate Paid(s: Sys, k: (string, string), n: nat, t0: int, interval: int) {
    n >= 1 ==> Has(s.reg, k.0, k.1) && interval * (n - 1) <= s.reg.services[k.0].instances[k.1].lastRenew - t0
  }

  lemma {:induction false} StepPays(s: Sys, l: Label, cfg: Config, k: (string, string), n: nat, t0: int)
    requires Inv(s) && cfg.Ok() && Enabled(s, l) && RegularStep(s, l, cfg)
    requires t0 <= s.clock && Paid(s, k, n, t0, cfg.heartbeatInterval)
    ensures Paid(Step(s, l, cfg), k, Tally(s, l, iset{k}, n), t0, cfg.heartbeatInterval)
  {
    EntryAfter(s, l, cfg, k.0, k.1);
    Stays(s, l, cfg, k);
    if Beat(s, l) && Key(l) == k {
      Spaced(s, l, cfg);
      hide Inv, Step, Beat, Key, Enabled, RegularStep, Has, Paid;
      OneMorePaid(s, Step(s, l, cfg), k, n, t0, cfg.heartbeatInterval);
    } else {
      hide Inv, Step, Beat, Key, Enabled, RegularStep, Has, Paid;
      StillPaid(s, Step(s, l, cfg), k, n, t0, cfg.heartbeatInterval);
    }
  }

  lemma {:induction false} OneMorePaid(s: Sys, s': Sys, k: (string, string), n: nat, t0: int, interval: int)
    requires Paid(s, k, n, t0, interval) && t0 <= s.clock && Has(s'.reg, k.0, k.1)
    requires s'.reg.services[k.0].instances[k.1].lastRenew == s.clock
    requires Has(s.reg, k.0, k.1) ==> s.clock - s.reg.services[k.0].instances[k.1].lastRenew >= interval
    ensures Paid(s', k, n + 1, t0, interval)
  {
    if n > 0 {
      assert interval * n == interval * (n - 1) + interval;
    }
  }

  lemma {:induction false} StillPaid(s: Sys, s': Sys, k: (string, string), n: nat, t0: int, interval: int)
    requires Paid(s, k, n, t0, interval)
    requires Has(s.reg, k.0, k.1) ==> Has(s'.reg, k.0, k.1)
    requires Has(s.reg, k.0, k.1) ==>
               s'.reg.services[k.0].instances[k.1] == s.reg.services[k.0].instances[k.1]
    ensures Paid(s', k, n, t0, interval)
  {}

  lemma {:induction false} Stays(s: Sys, l: Label, cfg: Config, k: (string, string))
    requires Inv(s) && cfg.Ok() && Enabled(s, l) && RegularStep(s, l, cfg)
    ensures !l.EvaluateLock? && !l.Restart?
    ensures Has(s.reg, k.0, k.1) ==> Has(Step(s, l, cfg).reg, k.0, k.1)
  {
    hide Inv, Step, Beat, Key, Enabled, Has;
  }

  lemma {:induction false} Spaced(s: Sys, l: Label, cfg: Config)
    requires Inv(s) && cfg.Ok() && Enabled(s, l) && RegularStep(s, l, cfg) && Beat(s, l)
    ensures Has(s.reg, Key(l).0, Key(l).1) ==>
              s.clock - s.reg.services[Key(l).0].instances[Key(l).1].lastRenew >= cfg.heartbeatInterval
  {
    hide Inv, Step, Beat, Key, Enabled, Has;
  }

  lemma {:induction false} KeyPays(s: Sys, ls: seq<Label>, s': Sys, cfg: Config, k: (string, string), n: nat, t0: int)
    requires Inv(s) && cfg.Ok() && Regular(s, ls, s', cfg) && Reaches(s, ls, s', cfg)
    requires t0 <= s.clock && Paid(s, k, n, t0, cfg.heartbeatInterval)
    ensures Paid(s', k, Heard(s, ls, s', cfg, iset{k}, n), t0, cfg.heartbeatInterval)
    decreases |ls|
  {
    hide Step, Enabled, Ok, PollersOk, RenewedBy, LoopOk, Paid, Tally, RegularStep;
    if ls != [] {
      StepKeepsInv(s, ls[0], cfg);
      ClockGoesOn(s, ls[0], cfg);
      StepPays(s, ls[0], cfg, k, n, t0);
      KeyPays(Step(s, ls[0], cfg), ls[1..], s', cfg, k, Tally(s, ls[0], iset{k}, n), t0);
    }
  }

  /** In less than b intervals, at most b beats. */
  lemma {:induction false} KeyHeardAtMost(s: Sys, ls: seq<Label>, s': Sys, cfg: Config, k: (string, string), b: nat)
    requires Inv(s) && cfg.Ok() && Regular(s, ls, s', cfg) && Reaches(s, ls, s', cfg)
    requires s'.clock - s.clock < cfg.heartbeatInterval * b
    ensures Heard(s, ls, s', cfg, iset{k}, 0) <= b
  {
    hide Regular, Reaches, Heard;
    var n := Heard(s, ls, s', cfg, iset{k}, 0);
    KeyPays(s, ls, s', cfg, k, 0, s.clock);
    RunKeepsInv(s, ls, s', cfg);
    if n > b {
      LastBeatIsPast(s', k);
      InOrder(cfg.heartbeatInterval, b, n - 1);
    }
  }

  lemma {:induction false} LastBeatIsPast(s: Sys, k: (string, string))
    requires Inv(s) && Has(s.reg, k.0, k.1)
    ensures s.reg.services[k.0].instances[k.1].lastRenew <= s.clock
  {
    hide Ok, PollersOk, LoopOk;
  }

  // ---------------------------------------------------------------- how often all of them can

  lemma {:induction false} EachAtMost(s: Sys, ls: seq<Label>, s': Sys, cfg: Config, who: set<(string, string)>, h: nat)
    requires Inv(s) && cfg.Ok() && Reaches(s, ls, s', cfg)
    requires forall k | k in who :: Heard(s, ls, s', cfg, iset{k}, 0) <= h
    ensures Heard(s, ls, s', cfg, Infinite(who), 0) <= |who| * h
    decreases |who|
  {
    hide Heard, Reaches, Inv;
    if who == {} {
      NobodyHeard(s, ls, s', cfg);
      assert Infinite({}) == iset{};
    } else {
      var k :| k in who;
      EachAtMost(s, ls, s', cfg, who - {k}, h);
      HeardAddsUp(s, ls, s', cfg, Infinite(who - {k}), k, 0, 0);
      assert Infinite(who - {k}) + iset{k} == Infinite(who);
      Distribute(|who - {k}|, 1, h);
    }
  }

  lemma {:induction false} NobodyHeard(s: Sys, ls: seq<Label>, s': Sys, cfg: Config)
    requires Inv(s) && cfg.Ok() && Reaches(s, ls, s', cfg)
    ensures Heard(s, ls, s', cfg, iset{}, 0) == 0
    decreases |ls|
  {
    hide Step, Enabled, Ok, PollersOk, RenewedBy, LoopOk, Beat, Key;
    if ls != [] {
      StepKeepsInv(s, ls[0], cfg);
      NobodyHeard(Step(s, ls[0], cfg), ls[1..], s', cfg);
    }
  }

  /** Whoever beats on such a run is there at its end. */
  lemma {:induction false} OnlyThoseThere(s: Sys, ls: seq<Label>, s': Sys, cfg: Config, who: set<(string, string)>,
                                          n: nat)
    requires Inv(s) && cfg.Ok() && Regular(s, ls, s', cfg) && Reaches(s, ls, s', cfg)
    requires forall name, id | Has(s'.reg, name, id) :: (name, id) in who
    ensures Heard(s, ls, s', cfg, EVERYONE, n) == Heard(s, ls, s', cfg, Infinite(who), n)
    decreases |ls|
  {
    hide Step, Enabled, Ok, PollersOk, RenewedBy, LoopOk, Beat, Key, Has;
    if ls != [] {
      StepKeepsInv(s, ls[0], cfg);
      var mid := Step(s, ls[0], cfg);
      RegularReaches(mid, ls[1..], s', cfg);
      EntryAfter(s, ls[0], cfg, Key(ls[0]).0, Key(ls[0]).1);
      OnlyThoseThere(mid, ls[1..], s', cfg, who, Tally(s, ls[0], EVERYONE, n));
    }
  }

  lemma {:induction false} HeardAtMost(s: Sys, ls: seq<Label>, s': Sys, cfg: Config, b: nat)
    requires Inv(s) && cfg.Ok() && Regular(s, ls, s', cfg) && s.reg.renews == 0
    requires s'.clock - s.clock < cfg.heartbeatInterval * b
    ensures s'.reg.renews <= InstanceCount(s'.reg) * b
  {
    RegularReaches(s, ls, s', cfg);
    var who := Present(s'.reg.services);
    assert forall name, id | Has(s'.reg, name, id) :: (name, id) in who;
    hide Heard, Reaches, Regular, Inv, Present;
    forall k | k in who ensures Heard(s, ls, s', cfg, iset{k}, 0) <= b {
      KeyHeardAtMost(s, ls, s', cfg, k, b);
    }
    EachAtMost(s, ls, s', cfg, who, b);
    OnlyThoseThere(s, ls, s', cfg, who, 0);
    RenewsAreHeartbeats(s, ls, s', cfg);
  }

  // ---------------------------------------------------------------- the partition

  /** b beats of each instance are not enough for an evaluation to leave Guard open. */
  predicate NotEnough(b: nat, cfg: Config)
    requires cfg.Ok()
  {
    (b as real) < cfg.PerInstance() * cfg.guardThreshold
  }

  lemma {:induction false} FewBeatsAreTooFew(s: State, cfg: Config, b: nat)
    requires cfg.Ok() && cfg.guardThreshold > 0.0 && NotEnough(b, cfg) && s.renews <= InstanceCount(s) * b
    ensures TooFew(s, cfg)
  {
    CountIsInhabited(s);
    hide InstanceCount, Inhabited;
    if Inhabited(s) {
      MoreTimes(InstanceCount(s), b as real, cfg.PerInstance() * cfg.guardThreshold);
      SharePositive(InstanceCount(s) as real, cfg);
      SameShare(InstanceCount(s) as real, cfg.PerInstance(), cfg.guardThreshold);
    }
  }

  lemma {:induction false} MoreTimes(n: int, x: real, y: real)
    requires n > 0 && x < y
    ensures n as real * x < n as real * y
  {
    ProductPositive(n as real, y - x);
  }

  lemma {:induction false} SameShare(n: real, x: real, y: real)
    ensures n * (x * y) == n * x * y
  {}

  /** Suppose the window in which the partition begins started with an evaluation at `s0`, and every instance
      keeps its interval and stays up to the partition at `s`. If b beats of each are not enough, the window
      cannot have heard enough unless it began b intervals before the partition. So it is enough that one gap
      fits into the TTL, and two gaps less b intervals, each with the longest silence at the start. */
  lemma {:induction false} GuardOutlastsRegularBeats(s0: Sys, win: seq<Label>, s: Sys, ls: seq<Label>, s': Sys,
                                                     cfg: Config, quiet: int, gap: int, lastEval': int, b: nat)
    requires Inv(s0) && cfg.Ok() && cfg.guardThreshold > 0.0 && NotEnough(b, cfg)
    requires s0.reg.renews == 0 && Regular(s0, win, s, cfg) && Inv(s) && CountIsCurrent(s)
    requires RenewedSince(s, s.clock - quiet)
    requires AllQuiet(ls) && PacedRun(s, ls, s', cfg, s0.clock, gap, lastEval')
    requires || cfg.hardEvictAfter <= cfg.Ttl()
             || (gap + quiet <= cfg.Ttl() && 2 * gap + quiet - cfg.heartbeatInterval * b <= cfg.Ttl())
    ensures forall name, id | Has(s.reg, name, id) ::
              SameEntry(s.reg, s'.reg, name, id)
              || s'.clock - s.reg.services[name].instances[id].lastRenew > cfg.hardEvictAfter
  {
    RegularReaches(s0, win, s, cfg);
    hide Inv, Regular, Reaches, PacedRun, AllQuiet, RenewedSince, CountIsCurrent, TooFew, NotEnough, SameEntry, Has;
    if cfg.hardEvictAfter <= cfg.Ttl() || s.clock - s0.clock >= cfg.heartbeatInterval * b {
      GuardOutlastsPartition(s, ls, s', cfg, s0.clock, quiet, gap, lastEval', s0.clock + 2 * gap);
    } else {
      HeardAtMost(s0, win, s, cfg, b);
      FewBeatsAreTooFew(s.reg, cfg, b);
      GuardOutlastsPartition(s, ls, s', cfg, s0.clock, quiet, gap, lastEval', s0.clock + gap);
    }
  }

  /** With the defaults but four intervals to the TTL, regular beats make the difference. */
  lemma {:induction false} FourIntervals()
    ensures var cfg := Config(0, 4, 0, 0, 0.0).WithDefaults();
            && NotEnough(1, cfg) && cfg.guardWindow + cfg.heartbeatInterval <= cfg.Ttl() <= cfg.hardEvictAfter
            && 2 * cfg.guardWindow + cfg.heartbeatInterval - cfg.heartbeatInterval * 1 <= cfg.Ttl()
            && !Guaranteed(cfg, cfg.guardWindow, cfg.heartbeatInterval)
  {
    hide Guaranteed;
    var cfg := Config(0, 4, 0, 0, 0.0).WithDefaults();
    GuaranteedIffCovered(cfg, cfg.guardWindow, cfg.heartbeatInterval);
  }
}
