/** The network partition: from some moment on no call arrives. When does Guard keep the instances? */
module Partition {
  import opened Arithmetic
  import opened Snapshots
  import opened RegistryState
  import opened RegistrySystem

  /** Steps that can still happen when no register, renew or cancel gets through. */
  predicate IsQuiet(l: Label) {
    !l.RegisterCall? && !l.RenewCall? && !l.CancelCall? && !l.Restart?
  }

  /** When the ticker of the evaluations was last served: a new process starts a new one. */
  ghost function EvalTime(s: Sys, l: Label, lastEval: int): int {
    if l.EvaluateLock? || l.Restart? then s.clock else lastEval
  }

  /** A run on which guard evaluations complete at most `gap` apart: the last one before it at `lastEval`, the
      last one on it at `lastEval'`. */
  ghost predicate PacedRun(s: Sys, ls: seq<Label>, s': Sys, cfg: Config, lastEval: int, gap: int, lastEval': int)
    requires Inv(s) && cfg.Ok()
    decreases |ls|
  {
    && s.clock <= lastEval + gap
    && if ls == [] then s' == s && lastEval' == lastEval
       else
         && Enabled(s, ls[0])
         && (StepKeepsInv(s, ls[0], cfg);
             PacedRun(Step(s, ls[0], cfg), ls[1..], s', cfg, EvalTime(s, ls[0], lastEval), gap, lastEval'))
  }

  ghost predicate AllQuiet(ls: seq<Label>) {
    forall l | l in ls :: IsQuiet(l)
  }

  lemma {:induction false} EvaluationIsPast(s: Sys, ls: seq<Label>, s': Sys, cfg: Config, lastEval: int, gap: int,
                                            lastEval': int)
    requires Inv(s) && cfg.Ok() && PacedRun(s, ls, s', cfg, lastEval, gap, lastEval') && lastEval <= s.clock
    ensures lastEval' <= s'.clock
    decreases |ls|
  {
    hide Enabled, Ok, PollersOk, RenewedBy, LoopOk;
    if ls != [] {
      StepKeepsInv(s, ls[0], cfg);
      ClockGoesOn(s, ls[0], cfg);
      hide Step;
      EvaluationIsPast(Step(s, ls[0], cfg), ls[1..], s', cfg, EvalTime(s, ls[0], lastEval), gap, lastEval');
    }
  }

  lemma {:induction false} ClockGoesOn(s: Sys, l: Label, cfg: Config)
    requires Inv(s) && cfg.Ok() && Enabled(s, l)
    ensures s.clock <= Step(s, l, cfg).clock
  {
    hide Ok, PollersOk, RenewedBy, Register, Renew, Cancel, Sweep, Evaluate, Release, Touch, Wait;
  }

  /** One more step at the end of a paced run. */
  lemma {:induction false} PacedNext(s: Sys, ls: seq<Label>, mid: Sys, l: Label, cfg: Config, lastEval: int, gap: int,
                                     lastEval': int)
    requires Inv(s) && cfg.Ok() && PacedRun(s, ls, mid, cfg, lastEval, gap, lastEval') && Inv(mid) && Enabled(mid, l)
    requires Step(mid, l, cfg).clock <= EvalTime(mid, l, lastEval') + gap
    ensures Inv(Step(mid, l, cfg))
    ensures PacedRun(s, ls + [l], Step(mid, l, cfg), cfg, lastEval, gap, EvalTime(mid, l, lastEval'))
    decreases |ls|
  {
    hide Step, Enabled, Ok, PollersOk, RenewedBy, LoopOk, EvalTime;
    StepKeepsInv(mid, l, cfg);
    if ls == [] {
      assert ([l])[1..] == [] && ls + [l] == [l];
    } else {
      StepKeepsInv(s, ls[0], cfg);
      PacedNext(Step(s, ls[0], cfg), ls[1..], mid, l, cfg, EvalTime(s, ls[0], lastEval), gap, lastEval');
      assert (ls + [l])[1..] == ls[1..] + [l];
    }
  }

  ghost predicate RenewedSince(s: Sys, t: int) {
    forall name, id | Has(s.reg, name, id) :: s.reg.services[name].instances[id].lastRenew >= t
  }

  ghost predicate Inhabited(s: State) {
    exists name, id :: Has(s, name, id)
  }

  ghost predicate SameEntry(s: State, s': State, name: string, id: string)
    requires Has(s, name, id)
  {
    Has(s', name, id) && s'.services[name].instances[id] == s.services[name].instances[id]
  }

  /** An evaluation of the instances present would protect. */
  ghost predicate TooFew(s: State, cfg: Config)
    requires cfg.Ok()
  {
    Inhabited(s) ==> Suspicious(s.renews, InstanceCount(s), cfg)
  }

  /** No evaluation is under way with a number of instances that is not that of now. */
  ghost predicate CountIsCurrent(s: Sys) {
    s.loop.Counted? ==> s.loop.count == InstanceCount(s.reg)
  }

  /** Everybody was heard at `since` or later, and by `due` Guard is protected, with at most `left` more
      evaluations: two if the first one may have heard enough before the partition, one if it has not. */
  ghost predicate Phase(s: Sys, cfg: Config, left: nat, lastEval: int, since: int, due: int, gap: int)
    requires cfg.Ok()
  {
    && Inv(s) && RenewedSince(s, since) && lastEval <= s.clock && left <= 2
    && (left == 2 ==> lastEval + 2 * gap <= due)
    && (left == 1 ==> lastEval + gap <= due && TooFew(s.reg, cfg) && CountIsCurrent(s)
                      && (s.reg.renews == 0 || due - since <= cfg.Ttl() <= cfg.hardEvictAfter))
    && (left == 0 ==> s.reg.renews == 0 && CountIsCurrent(s) && (Inhabited(s.reg) ==> s.reg.protected))
  }

  // ---------------------------------------------------------------- one quiet step

  /** Only the sweep touches instances, and only an evaluation touches the guard. */
  lemma {:induction false} QuietStepFrame(s: Sys, l: Label, cfg: Config)
    requires Inv(s) && cfg.Ok() && Enabled(s, l) && IsQuiet(l)
    ensures !l.SweepLock? ==> forall name, id :: Has(Step(s, l, cfg).reg, name, id) <==> Has(s.reg, name, id)
    ensures !l.SweepLock? ==> forall name, id | Has(s.reg, name, id) :: SameEntry(s.reg, Step(s, l, cfg).reg, name, id)
    ensures !l.EvaluateLock? ==>
              Step(s, l, cfg).reg.renews == s.reg.renews && Step(s, l, cfg).reg.protected == s.reg.protected
    ensures Step(s, l, cfg).clock >= s.clock
  {
    hide Ok, PollersOk, RenewedBy, LoopOk, Swept, Hollow;
  }

  lemma {:induction false} SamePresent(s: State, s': State)
    requires forall name, id :: Has(s', name, id) <==> Has(s, name, id)
    ensures InstanceCount(s') == InstanceCount(s)
  {
    assert forall name, id :: Has(s, name, id) <==> (name, id) in Present(s.services);
    assert forall name, id :: Has(s', name, id) <==> (name, id) in Present(s'.services);
    assert Present(s'.services) == Present(s.services);
  }

  lemma {:induction false} CountIsInhabited(s: State)
    ensures InstanceCount(s) > 0 <==> Inhabited(s)
  {
    if Inhabited(s) {
      var name, id :| Has(s, name, id);
      assert (name, id) in Present(s.services);
    }
    if Present(s.services) != {} {
      var x :| x in Present(s.services);
      assert Has(s, x.0, x.1);
    }
  }

  /** With nobody heard, an evaluation that counts someone protects. */
  lemma {:induction false} SilenceIsTooFew(s: State, cfg: Config)
    requires cfg.Ok() && cfg.guardThreshold > 0.0 && s.renews == 0
    ensures TooFew(s, cfg)
  {
    CountIsInhabited(s);
    SharePositive(InstanceCount(s) as real, cfg);
  }

  lemma {:induction false} SharePositive(n: real, cfg: Config)
    requires cfg.Ok() && cfg.guardThreshold > 0.0
    ensures n > 0.0 ==> n * cfg.PerInstance() > 0.0 && n * cfg.PerInstance() * cfg.guardThreshold > 0.0
  {}

  function Fewer(left: nat): nat {
    if left == 0 then 0 else left - 1
  }

  lemma {:induction false} EvaluationAdvancesPhase(s: Sys, cfg: Config, left: nat, lastEval: int, since: int, due: int,
                                                   gap: int)
    requires cfg.Ok() && cfg.guardThreshold > 0.0 && Enabled(s, EvaluateLock)
    requires Phase(s, cfg, left, lastEval, since, due, gap) && s.clock <= lastEval + gap
    ensures Phase(Step(s, EvaluateLock, cfg), cfg, Fewer(left), s.clock, since, due, gap)
  {
    hide Phase, Inv, Step, InstanceCount, RenewedSince, Inhabited, Evaluate, TooFew, CountIsCurrent;
    PhaseParts(s, cfg, left, lastEval, since, due, gap);
    EvaluationStep(s, cfg);
    var s' := Step(s, EvaluateLock, cfg);
    SameServices(s, s', since);
    SilenceIsTooFew(s'.reg, cfg);
    if left == 0 {
      SilenceIsTooFew(s.reg, cfg);
    }
    if left <= 1 {
      TooFewProtects(s, s', cfg);
    }
    NextPhase(s, s', cfg, left, lastEval, since, due, gap);
  }

  lemma {:induction false} PhaseParts(s: Sys, cfg: Config, left: nat, lastEval: int, since: int, due: int, gap: int)
    requires cfg.Ok() && Phase(s, cfg, left, lastEval, since, due, gap)
    ensures Inv(s) && RenewedSince(s, since)
    ensures left == 1 ==> TooFew(s.reg, cfg) && CountIsCurrent(s)
    ensures left == 0 ==> s.reg.renews == 0 && CountIsCurrent(s)
  {}

  lemma {:induction false} TooFewProtects(s: Sys, s': Sys, cfg: Config)
    requires cfg.Ok() && s.loop.Counted? && TooFew(s.reg, cfg) && CountIsCurrent(s)
    requires s'.reg == Evaluate(s.reg, s.loop.count, cfg) && (Inhabited(s'.reg) <==> Inhabited(s.reg))
    ensures Inhabited(s'.reg) ==> s'.reg.protected
  {
    hide Inhabited, InstanceCount, Suspicious;
  }

  lemma {:induction false} NextPhase(s: Sys, s': Sys, cfg: Config, left: nat, lastEval: int, since: int, due: int,
                                     gap: int)
    requires cfg.Ok() && Phase(s, cfg, left, lastEval, since, due, gap) && s.clock <= lastEval + gap
    requires Inv(s') && s'.clock == s.clock && RenewedSince(s', since)
    requires s'.reg.renews == 0 && !s'.loop.Counted? && TooFew(s'.reg, cfg)
    requires left <= 1 ==> Inhabited(s'.reg) ==> s'.reg.protected
    ensures Phase(s', cfg, Fewer(left), s.clock, since, due, gap)
  {
    hide Inv, RenewedSince, Inhabited, InstanceCount, TooFew;
  }

  lemma {:induction false} EvaluationStep(s: Sys, cfg: Config)
    requires Inv(s) && cfg.Ok() && Enabled(s, EvaluateLock)
    ensures var s' := Step(s, EvaluateLock, cfg);
            && Inv(s') && s'.reg == Evaluate(s.reg, s.loop.count, cfg) && s'.clock == s.clock && s'.loop.Resting?
            && s'.reg.services == s.reg.services && s'.reg.renews == 0
  {
    hide Ok, PollersOk, RenewedBy, Suspicious;
    StepKeepsInv(s, EvaluateLock, cfg);
  }

  lemma {:induction false} SameServices(s: Sys, s': Sys, t: int)
    requires s'.reg.services == s.reg.services
    ensures RenewedSince(s, t) ==> RenewedSince(s', t)
    ensures (Inhabited(s'.reg) <==> Inhabited(s.reg)) && InstanceCount(s'.reg) == InstanceCount(s.reg)
  {
    assert forall name, id :: Has(s'.reg, name, id) <==> Has(s.reg, name, id);
  }

  lemma {:induction false} SameInhabited(s: State, s': State)
    requires forall name, id :: Has(s', name, id) ==> Has(s, name, id)
    ensures Inhabited(s') ==> Inhabited(s)
  {
    if Inhabited(s') {
      var name, id :| Has(s', name, id);
      assert Has(s, name, id);
    }
  }

  lemma {:induction false} OtherStepKeepsPhase(s: Sys, l: Label, cfg: Config, left: nat, lastEval: int, since: int,
                                               due: int, gap: int)
    requires cfg.Ok() && Phase(s, cfg, left, lastEval, since, due, gap)
    requires Enabled(s, l) && IsQuiet(l) && !l.SweepLock? && !l.EvaluateLock?
    ensures Phase(Step(s, l, cfg), cfg, left, lastEval, since, due, gap)
  {
    hide Phase, Step, Inv, InstanceCount, Inhabited, RenewedSince, TooFew, CountIsCurrent, SameEntry, Has;
    PhaseParts(s, cfg, left, lastEval, since, due, gap);
    StepKeepsInv(s, l, cfg);
    QuietStepFrame(s, l, cfg);
    var s' := Step(s, l, cfg);
    SameEntries(s, s', since);
    SameInhabited(s'.reg, s.reg);
    if left <= 1 {
      CountStaysCurrent(s, l, cfg);
    }
    if left == 1 {
      SameTooFew(s.reg, s'.reg, cfg);
    }
    SamePhase(s, s', cfg, left, lastEval, since, due, gap);
  }

  lemma {:induction false} SameEntries(s: Sys, s': Sys, t: int)
    requires forall name, id :: Has(s'.reg, name, id) <==> Has(s.reg, name, id)
    requires forall name, id | Has(s.reg, name, id) :: SameEntry(s.reg, s'.reg, name, id)
    ensures RenewedSince(s, t) ==> RenewedSince(s', t)
    ensures Inhabited(s'.reg) <==> Inhabited(s.reg)
  {
    SameInhabited(s.reg, s'.reg);
    SameInhabited(s'.reg, s.reg);
    hide Has;
    assert forall name, id | Has(s'.reg, name, id) :: SameEntry(s.reg, s'.reg, name, id);
  }

  lemma {:induction false} CountStaysCurrent(s: Sys, l: Label, cfg: Config)
    requires Inv(s) && cfg.Ok() && Enabled(s, l) && IsQuiet(l) && !l.SweepLock? && !l.EvaluateLock?
    requires CountIsCurrent(s)
    ensures CountIsCurrent(Step(s, l, cfg))
  {
    QuietStepFrame(s, l, cfg);
    LoopAfter(s, l, cfg);
    hide Step, Inv, InstanceCount;
    SamePresent(s.reg, Step(s, l, cfg).reg);
  }

  lemma {:induction false} SamePhase(s: Sys, s': Sys, cfg: Config, left: nat, lastEval: int, since: int, due: int,
                                     gap: int)
    requires cfg.Ok() && Phase(s, cfg, left, lastEval, since, due, gap) && Inv(s') && RenewedSince(s', since)
    requires s.clock <= s'.clock && s'.reg.renews == s.reg.renews && s'.reg.protected == s.reg.protected
    requires Inhabited(s'.reg) ==> Inhabited(s.reg)
    requires left == 1 ==> TooFew(s'.reg, cfg)
    requires left <= 1 ==> CountIsCurrent(s')
    ensures Phase(s', cfg, left, lastEval, since, due, gap)
  {
    hide Inv, RenewedSince, Inhabited, InstanceCount, TooFew, CountIsCurrent;
  }

  /** Counting is the only way to hold a count. */
  lemma {:induction false} LoopAfter(s: Sys, l: Label, cfg: Config)
    requires Inv(s) && cfg.Ok() && Enabled(s, l) && !l.EvaluateLock?
    ensures Step(s, l, cfg).loop.Counted? ==>
              if l.CountLock? then Step(s, l, cfg).loop.count == InstanceCount(s.reg)
              else s.loop == Step(s, l, cfg).loop && !l.SweepLock?
  {
    hide Ok, PollersOk, Register, Renew, Cancel, Sweep, Evaluate, Touch, Wait, Release;
  }

  lemma {:induction false} SweepKeepsPhase(s: Sys, walls: string -> int, cfg: Config, left: nat, lastEval: int,
                                           since: int, due: int, gap: int)
    requires cfg.Ok() && cfg.guardThreshold > 0.0 && Enabled(s, SweepLock(walls))
    requires Phase(s, cfg, left, lastEval, since, due, gap) && s.clock <= lastEval + gap
    ensures Phase(Step(s, SweepLock(walls), cfg), cfg, left, lastEval, since, due, gap)
  {
    SweepStep(s, walls, cfg);
    hide Inv, Step, InstanceCount, Inhabited, Sweep, Has, Suspicious, TooFew;
    var s' := Step(s, SweepLock(walls), cfg);
    SweepKeepsEntries(s.reg, cfg, s.loop.protected, s.loop.now, walls);
    FewerEntries(s, s', since);
    if left == 1 {
      if s.reg.renews == 0 {
        SilenceIsTooFew(s'.reg, cfg);
      } else {
        NoneExpires(s, walls, cfg, since);
        SameTooFew(s.reg, s'.reg, cfg);
      }
    }
  }

  lemma {:induction false} SameTooFew(s: State, s': State, cfg: Config)
    requires cfg.Ok() && TooFew(s, cfg) && s'.renews == s.renews
    requires forall name, id :: Has(s', name, id) <==> Has(s, name, id)
    ensures TooFew(s', cfg)
  {
    hide InstanceCount, Suspicious, Has, Inhabited;
    SamePresent(s, s');
    SameInhabited(s, s');
  }

  /** Nobody has been silent for long enough yet. */
  lemma {:induction false} NoneExpires(s: Sys, walls: string -> int, cfg: Config, since: int)
    requires Inv(s) && cfg.Ok() && s.loop.ClockRead? && RenewedSince(s, since)
    requires s.clock - since <= cfg.Ttl() <= cfg.hardEvictAfter
    ensures forall name, id ::
              Has(Sweep(s.reg, cfg, s.loop.protected, s.loop.now, walls), name, id) <==> Has(s.reg, name, id)
  {
    hide Sweep, Ok, PollersOk, RenewedBy;
    SweepKeepsEntries(s.reg, cfg, s.loop.protected, s.loop.now, walls);
    forall name, id | Has(s.reg, name, id)
      ensures Has(Sweep(s.reg, cfg, s.loop.protected, s.loop.now, walls), name, id)
    {
      SweepRemoves(s.reg, cfg, s.loop.protected, s.loop.now, walls, name, id);
    }
  }

  lemma {:induction false} SweepStep(s: Sys, walls: string -> int, cfg: Config)
    requires Inv(s) && cfg.Ok() && Enabled(s, SweepLock(walls))
    ensures s.loop.ClockRead?
    ensures var s' := Step(s, SweepLock(walls), cfg);
            && Inv(s') && s'.reg == Sweep(s.reg, cfg, s.loop.protected, s.loop.now, walls)
            && s'.clock == s.clock && s'.loop.Resting?
            && s'.reg.renews == s.reg.renews && s'.reg.protected == s.reg.protected
  {
    hide Ok, PollersOk, RenewedBy, Swept, Hollow, Shrinks;
    StepKeepsInv(s, SweepLock(walls), cfg);
  }

  lemma {:induction false} FewerEntries(s: Sys, s': Sys, t: int)
    requires forall name, id | Has(s'.reg, name, id) :: Has(s.reg, name, id) && SameEntry(s.reg, s'.reg, name, id)
    ensures RenewedSince(s, t) ==> RenewedSince(s', t)
    ensures Inhabited(s'.reg) ==> Inhabited(s.reg)
  {
    SameInhabited(s.reg, s'.reg);
  }

  lemma {:induction false} SweepKeepsEntries(s: State, cfg: Config, protected: bool, now: int, walls: string -> int)
    ensures forall name, id | Has(Sweep(s, cfg, protected, now, walls), name, id) ::
              Has(s, name, id) && SameEntry(s, Sweep(s, cfg, protected, now, walls), name, id)
  {
    hide Expired;
  }

  /** In every phase a sweep removes only what has been silent for longer than HardEvictAfter. */
  lemma {:induction false} SweepRemovesOnlyHard(s: Sys, walls: string -> int, cfg: Config, left: nat, lastEval: int,
                                                since: int, due: int, gap: int, name: string, id: string)
    requires cfg.Ok() && Phase(s, cfg, left, lastEval, since, due, gap) && s.clock <= lastEval + gap
    requires due - since <= cfg.Ttl() || cfg.hardEvictAfter <= cfg.Ttl()
    requires Enabled(s, SweepLock(walls)) && Has(s.reg, name, id)
    ensures || SameEntry(s.reg, Step(s, SweepLock(walls), cfg).reg, name, id)
            || s.clock - s.reg.services[name].instances[id].lastRenew > cfg.hardEvictAfter
  {
    SweepRemoves(s.reg, cfg, s.loop.protected, s.loop.now, walls, name, id);
    LateIsProtected(s, cfg, left, lastEval, since, due, gap, name, id);
    hide Sweep, Phase, Has;
  }

  /** By the time that anyone has outlived the TTL, Guard is protected, unless the TTL never decides alone. */
  lemma {:induction false} LateIsProtected(s: Sys, cfg: Config, left: nat, lastEval: int, since: int, due: int,
                                           gap: int, name: string, id: string)
    requires cfg.Ok() && Phase(s, cfg, left, lastEval, since, due, gap) && s.clock <= lastEval + gap
    requires s.loop.ClockRead? && Has(s.reg, name, id)
    ensures s.loop.now <= s.clock && s.loop.protected == s.reg.protected
    ensures s.clock - s.reg.services[name].instances[id].lastRenew > cfg.Ttl() ==>
              s.reg.protected || due - since > cfg.Ttl()
  {
    hide Ok, PollersOk, RenewedBy, InstanceCount, TooFew, CountIsCurrent;
    assert Inhabited(s.reg);
  }

  // ---------------------------------------------------------------- the whole partition

  /** When Guard has protected at the latest: the window in which the partition begins may have heard enough
      before it, so that only the one after it is silent; unless it has heard too few by then. */
  ghost predicate DueBy(s: Sys, cfg: Config, lastEval: int, quiet: int, gap: int, due: int)
    requires cfg.Ok()
  {
    || lastEval + 2 * gap <= due
    || (lastEval + gap <= due && TooFew(s.reg, cfg) && CountIsCurrent(s)
        && due - (s.clock - quiet) <= cfg.Ttl() <= cfg.hardEvictAfter)
  }

  /** Guard outlasts the partition. Suppose the partition begins at `s.clock`, everybody present has renewed
      within the last `quiet`, the last evaluation was at `lastEval`, evaluations stay at most `gap` apart, and
      whoever renewed longest ago does not outlive the TTL by `due`. Then at every later moment each instance
      is either still there, untouched, or silent for longer than HardEvictAfter; and whenever anyone present
      has outlived the TTL, Guard is protected. */
  lemma {:induction false} GuardOutlastsPartition(s: Sys, ls: seq<Label>, s': Sys, cfg: Config, lastEval: int,
                                                  quiet: int, gap: int, lastEval': int, due: int)
    requires Inv(s) && cfg.Ok() && cfg.guardThreshold > 0.0
    requires RenewedSince(s, s.clock - quiet) && lastEval <= s.clock && DueBy(s, cfg, lastEval, quiet, gap, due)
    requires due - (s.clock - quiet) <= cfg.Ttl() || cfg.hardEvictAfter <= cfg.Ttl()
    requires AllQuiet(ls) && PacedRun(s, ls, s', cfg, lastEval, gap, lastEval')
    ensures forall name, id | Has(s.reg, name, id) ::
              SameEntry(s.reg, s'.reg, name, id)
              || s'.clock - s.reg.services[name].instances[id].lastRenew > cfg.hardEvictAfter
    ensures due - (s.clock - quiet) <= cfg.Ttl() ==>
              forall name, id | Has(s'.reg, name, id) ::
                s'.clock - s'.reg.services[name].instances[id].lastRenew > cfg.Ttl() ==> s'.reg.protected
  {
    hide PacedRun, Inv, AllQuiet, TooFew, CountIsCurrent;
    var since := s.clock - quiet;
    var left := PhasesAdvance(s, ls, s', cfg, if lastEval + 2 * gap <= due then 2 else 1, lastEval, since, due, gap,
                              lastEval');
    forall name, id | Has(s'.reg, name, id) ensures Inhabited(s'.reg) {}
  }

  lemma {:induction false} PhasesAdvance(s: Sys, ls: seq<Label>, s': Sys, cfg: Config, left: nat, lastEval: int,
                                         since: int, due: int, gap: int, lastEval': int)
    returns (left': nat)
    requires Inv(s) && cfg.Ok() && cfg.guardThreshold > 0.0
    requires due - since <= cfg.Ttl() || cfg.hardEvictAfter <= cfg.Ttl()
    requires Phase(s, cfg, left, lastEval, since, due, gap)
    requires AllQuiet(ls) && PacedRun(s, ls, s', cfg, lastEval, gap, lastEval')
    ensures Phase(s', cfg, left', lastEval', since, due, gap) && s'.clock <= lastEval' + gap && s.clock <= s'.clock
    ensures forall name, id | Has(s.reg, name, id) ::
              SameEntry(s.reg, s'.reg, name, id)
              || s'.clock - s.reg.services[name].instances[id].lastRenew > cfg.hardEvictAfter
    decreases |ls|
  {
    hide Step, Enabled, Inv, Phase, EvalTime;
    if ls == [] {
      return left;
    }
    PacedFirst(s, ls, s', cfg, lastEval, gap, lastEval');
    assert IsQuiet(ls[0]);
    var mid, left1 := Step(s, ls[0], cfg), if ls[0].EvaluateLock? then Fewer(left) else left;
    QuietStep(s, ls[0], cfg, left, lastEval, since, due, gap);
    left' := PhasesAdvance(mid, ls[1..], s', cfg, left1, EvalTime(s, ls[0], lastEval), since, due, gap, lastEval');
  }

  lemma {:induction false} PacedFirst(s: Sys, ls: seq<Label>, s': Sys, cfg: Config, lastEval: int, gap: int,
                                      lastEval': int)
    requires Inv(s) && cfg.Ok() && PacedRun(s, ls, s', cfg, lastEval, gap, lastEval') && ls != []
    ensures s.clock <= lastEval + gap && Ok(s.reg) && Enabled(s, ls[0]) && Inv(Step(s, ls[0], cfg))
    ensures PacedRun(Step(s, ls[0], cfg), ls[1..], s', cfg, EvalTime(s, ls[0], lastEval), gap, lastEval')
  {
    hide Step, Enabled, Ok, PollersOk, RenewedBy, LoopOk;
    StepKeepsInv(s, ls[0], cfg);
  }

  lemma {:induction false} QuietStep(s: Sys, l: Label, cfg: Config, left: nat, lastEval: int, since: int, due: int,
                                     gap: int)
    requires Inv(s) && cfg.Ok() && cfg.guardThreshold > 0.0
    requires due - since <= cfg.Ttl() || cfg.hardEvictAfter <= cfg.Ttl()
    requires Phase(s, cfg, left, lastEval, since, due, gap) && s.clock <= lastEval + gap
    requires Enabled(s, l) && IsQuiet(l)
    ensures Phase(Step(s, l, cfg), cfg, if l.EvaluateLock? then Fewer(left) else left, EvalTime(s, l, lastEval),
                  since, due, gap)
    ensures s.clock <= Step(s, l, cfg).clock
    ensures forall name, id | Has(s.reg, name, id) ::
              SameEntry(s.reg, Step(s, l, cfg).reg, name, id)
              || Step(s, l, cfg).clock - s.reg.services[name].instances[id].lastRenew > cfg.hardEvictAfter
  {
    hide Step, Ok, PollersOk, RenewedBy, LoopOk, Phase;
    QuietStepFrame(s, l, cfg);
    if l.SweepLock? {
      SweepKeepsPhase(s, l.walls, cfg, left, lastEval, since, due, gap);
      forall name, id | Has(s.reg, name, id)
        ensures SameEntry(s.reg, Step(s, l, cfg).reg, name, id)
                || Step(s, l, cfg).clock - s.reg.services[name].instances[id].lastRenew > cfg.hardEvictAfter
      {
        SweepRemovesOnlyHard(s, l.walls, cfg, left, lastEval, since, due, gap, name, id);
      }
    } else if l.EvaluateLock? {
      EvaluationAdvancesPhase(s, cfg, left, lastEval, since, due, gap);
    } else {
      OtherStepKeepsPhase(s, l, cfg, left, lastEval, since, due, gap);
    }
  }

  // ---------------------------------------------------------------- the condition is exact

  /** Two gaps and the longest silence at the start fit into the TTL; or the TTL never decides alone. */
  predicate Covered(cfg: Config, gap: int, quiet: int) {
    2 * gap + quiet <= cfg.Ttl() || cfg.hardEvictAfter <= cfg.Ttl()
  }

  /** The guarantee, for registries that really ran, with evaluations at most `gap` apart from the start on:
      an instance present when the partition begins stays until it has been silent for longer than
      HardEvictAfter. */
  ghost predicate Guaranteed(cfg: Config, gap: int, quiet: int)
    requires cfg.Ok()
  {
    forall clock0, pre, s, lastEval, ls, s', lastEval', name, id |
      && Inv(Initial(clock0)) && PacedRun(Initial(clock0), pre, s, cfg, clock0, gap, lastEval)
      && Inv(s) && RenewedSince(s, s.clock - quiet)
      && AllQuiet(ls) && PacedRun(s, ls, s', cfg, lastEval, gap, lastEval') && Has(s.reg, name, id) ::
        || SameEntry(s.reg, s'.reg, name, id)
        || s'.clock - s.reg.services[name].instances[id].lastRenew > cfg.hardEvictAfter
  }

  lemma {:induction false} CoveredIsEnough(cfg: Config, gap: int, quiet: int)
    requires cfg.Ok() && cfg.guardThreshold > 0.0 && Covered(cfg, gap, quiet)
    ensures Guaranteed(cfg, gap, quiet)
  {
    hide Inv, PacedRun, SameEntry, RenewedSince, AllQuiet, TooFew, CountIsCurrent;
    forall clock0, pre, s, lastEval, ls, s', lastEval', name, id |
      && Inv(Initial(clock0)) && PacedRun(Initial(clock0), pre, s, cfg, clock0, gap, lastEval)
      && Inv(s) && RenewedSince(s, s.clock - quiet)
      && AllQuiet(ls) && PacedRun(s, ls, s', cfg, lastEval, gap, lastEval') && Has(s.reg, name, id)
      ensures || SameEntry(s.reg, s'.reg, name, id)
              || s'.clock - s.reg.services[name].instances[id].lastRenew > cfg.hardEvictAfter
    {
      EvaluationIsPast(Initial(clock0), pre, s, cfg, clock0, gap, lastEval);
      GuardOutlastsPartition(s, ls, s', cfg, lastEval, quiet, gap, lastEval', s.clock + 2 * gap);
    }
  }

  const LATE := Instance("s", "x", "1", map[])
  const LOUD := Instance("s", "y", "2", map[])

  /** Two instances: x last renewed at time 0, y at `heard`. */
  ghost predicate Pair(s: Sys, heard: int) {
    && Inv(s) && s.loop.Resting? && s.reg.renews >= 0 && s.reg.services.Keys == {"s"}
    && s.reg.services["s"].instances == map["x" := Entry(LATE, 0), "y" := Entry(LOUD, heard)]
  }

  lemma {:induction false} PairTicks(s: Sys, heard: int, cfg: Config, d: nat)
    requires cfg.Ok() && Pair(s, heard)
    ensures Step(s, Tick(d), cfg) == s.(clock := s.clock + d) && Pair(Step(s, Tick(d), cfg), heard)
  {
    hide Ok, PollersOk, RenewedBy;
    StepKeepsInv(s, Tick(d), cfg);
  }

  lemma {:induction false} PairBeats(s: Sys, heard: int, cfg: Config)
    requires cfg.Ok() && Pair(s, heard)
    ensures Pair(Step(s, RenewCall("s", "y"), cfg), s.clock)
    ensures var s' := Step(s, RenewCall("s", "y"), cfg);
            && s'.clock == s.clock && s'.reg.protected == s.reg.protected && s'.reg.renews == s.reg.renews + 1
  {
    hide Ok, PollersOk, RenewedBy;
    StepKeepsInv(s, RenewCall("s", "y"), cfg);
  }

  lemma {:induction false} TwoPresent(s: Sys, heard: int)
    requires Pair(s, heard)
    ensures InstanceCount(s.reg) == 2
  {
    hide Inv;
    assert Present(s.reg.services) == {("s", "x"), ("s", "y")};
  }

  lemma {:induction false} PairCounts(s: Sys, heard: int, cfg: Config)
    requires cfg.Ok() && Pair(s, heard)
    ensures Step(s, CountLock, cfg) == s.(loop := Counted(2)) && Inv(s.(loop := Counted(2)))
  {
    TwoPresent(s, heard);
    hide Ok, PollersOk, RenewedBy, InstanceCount;
    StepKeepsInv(s, CountLock, cfg);
  }

  lemma {:induction false} PairEvaluates(s: Sys, heard: int, cfg: Config)
    requires cfg.Ok() && Pair(s, heard) && Inv(s.(loop := Counted(2)))
    ensures Step(s.(loop := Counted(2)), EvaluateLock, cfg) == Evaluated(s, cfg) && Pair(Evaluated(s, cfg), heard)
  {
    hide Ok, PollersOk, RenewedBy, Suspicious;
    StepKeepsInv(s.(loop := Counted(2)), EvaluateLock, cfg);
  }

  ghost function Evaluated(s: Sys, cfg: Config): Sys
    requires cfg.Ok()
  {
    s.(reg := s.reg.(renews := 0, protected := Suspicious(s.reg.renews, 2, cfg)))
  }

  /** Both register at time 0. */
  lemma {:induction false} BothRegister(cfg: Config) returns (s1: Sys, s2: Sys)
    requires cfg.Ok() && Inv(Initial(0))
    ensures Inv(s1) && s1 == Step(Initial(0), RegisterCall(LATE, 1), cfg) && s1.clock == 0
    ensures s2 == Step(s1, RegisterCall(LOUD, 2), cfg) && Pair(s2, 0) && s2.clock == 0
  {
    s1 := Step(Initial(0), RegisterCall(LATE, 1), cfg);
    StepKeepsInv(Initial(0), RegisterCall(LATE, 1), cfg);
    assert s1.reg.services.Keys == {"s"} && s1.reg.services["s"].instances == map["x" := Entry(LATE, 0)];
    assert s1.reg.renews == 1 && s1.loop.Resting?;
    SecondRegisters(s1, cfg);
    s2 := Step(s1, RegisterCall(LOUD, 2), cfg);
  }

  lemma {:induction false} SecondRegisters(s: Sys, cfg: Config)
    requires cfg.Ok() && Inv(s) && s.loop.Resting? && s.reg.services.Keys == {"s"} && s.reg.renews == 1 && s.clock == 0
    requires s.reg.services["s"].instances == map["x" := Entry(LATE, 0)]
    ensures Pair(Step(s, RegisterCall(LOUD, 2), cfg), 0) && Step(s, RegisterCall(LOUD, 2), cfg).clock == 0
  {
    hide Ok, PollersOk, RenewedBy;
    StepKeepsInv(s, RegisterCall(LOUD, 2), cfg);
  }

  lemma {:induction false} EvaluateNow(s0: Sys, pre: seq<Label>, s: Sys, cfg: Config, start: int, gap: nat,
                                       lastEval: int, heard: int)
    returns (pre': seq<Label>)
    requires Inv(s0) && cfg.Ok() && PacedRun(s0, pre, s, cfg, start, gap, lastEval) && Pair(s, heard)
    requires s.clock <= lastEval + gap
    ensures PacedRun(s0, pre', Evaluated(s, cfg), cfg, start, gap, s.clock) && Pair(Evaluated(s, cfg), heard)
    ensures pre' == pre + [CountLock, EvaluateLock]
  {
    hide PacedRun, Ok, PollersOk, RenewedBy, LoopOk, Suspicious, Step;
    PairCounts(s, heard, cfg);
    PacedNext(s0, pre, s, CountLock, cfg, start, gap, lastEval);
    PairEvaluates(s, heard, cfg);
    PacedNext(s0, pre + [CountLock], s.(loop := Counted(2)), EvaluateLock, cfg, start, gap, lastEval);
    pre' := pre + [CountLock] + [EvaluateLock];
    assert pre' == pre + [CountLock, EvaluateLock];
  }

  /** Time goes by up to h: y beats, evaluations come in time, and x stays silent. */
  lemma {:induction false} Wear(cfg: Config, gap: nat, h: nat) returns (pre: seq<Label>, s: Sys)
    requires cfg.Ok() && Inv(Initial(0)) && gap > 0
    ensures PacedRun(Initial(0), pre, s, cfg, 0, gap, h) && Pair(s, h) && s.clock == h
    decreases h
  {
    hide PacedRun, Ok, PollersOk, RenewedBy, LoopOk, Step, Suspicious;
    if h == 0 {
      var s1, s2 := BothRegister(cfg);
      NothingDone(Initial(0), cfg, 0, gap);
      PacedNext(Initial(0), [], Initial(0), RegisterCall(LATE, 1), cfg, 0, gap, 0);
      PacedNext(Initial(0), [] + [RegisterCall(LATE, 1)], s1, RegisterCall(LOUD, 2), cfg, 0, gap, 0);
      return [] + [RegisterCall(LATE, 1)] + [RegisterCall(LOUD, 2)], s2;
    }
    var d := if gap < h then gap else h;
    var pre1, s1 := Wear(cfg, gap, h - d);
    PairTicks(s1, h - d, cfg, d);
    PacedNext(Initial(0), pre1, s1, Tick(d), cfg, 0, gap, h - d);
    var s2 := s1.(clock := h);
    PairBeats(s2, h - d, cfg);
    PacedNext(Initial(0), pre1 + [Tick(d)], s2, RenewCall("s", "y"), cfg, 0, gap, h - d);
    var s3 := Step(s2, RenewCall("s", "y"), cfg);
    pre := EvaluateNow(Initial(0), pre1 + [Tick(d)] + [RenewCall("s", "y")], s3, cfg, 0, gap, h - d, h);
    s := Evaluated(s3, cfg);
  }

  lemma {:induction false} NothingDone(s: Sys, cfg: Config, lastEval: int, gap: int)
    requires Inv(s) && cfg.Ok() && s.clock <= lastEval + gap
    ensures PacedRun(s, [], s, cfg, lastEval, gap, lastEval) && AllQuiet([])
  {}

  lemma {:induction false} RenewedLater(s: Sys, t: int, t': int)
    requires RenewedSince(s, t) && t' <= t
    ensures RenewedSince(s, t')
  {}

  /** y may beat as often as it likes at one instant: only the guard's counter moves. */
  lemma {:induction false} BeatOften(s0: Sys, pre: seq<Label>, s: Sys, cfg: Config, start: int, gap: nat, lastEval: int,
                                     r: nat)
    returns (pre': seq<Label>, s': Sys)
    requires Inv(s0) && cfg.Ok() && PacedRun(s0, pre, s, cfg, start, gap, lastEval) && Pair(s, s.clock)
    requires s.clock <= lastEval + gap
    ensures PacedRun(s0, pre', s', cfg, start, gap, lastEval) && Pair(s', s.clock)
    ensures s'.clock == s.clock && s'.reg.protected == s.reg.protected && s'.reg.renews == s.reg.renews + r
  {
    if r == 0 {
      return pre, s;
    }
    var pre1, s1 := BeatOften(s0, pre, s, cfg, start, gap, lastEval, r - 1);
    hide PacedRun, Ok, PollersOk, RenewedBy, LoopOk, Step;
    PairBeats(s1, s.clock, cfg);
    PacedNext(s0, pre1, s1, RenewCall("s", "y"), cfg, start, gap, lastEval);
    pre', s' := pre1 + [RenewCall("s", "y")], Step(s1, RenewCall("s", "y"), cfg);
  }

  /** Enough beats for two instances in one window. */
  predicate LoudEnough(r: int, cfg: Config)
    requires cfg.Ok()
  {
    r as real >= 2.0 * cfg.PerInstance() * cfg.guardThreshold
  }

  lemma {:induction false} LoudIsNotSuspicious(r: int, cfg: Config)
    requires cfg.Ok() && LoudEnough(r, cfg)
    ensures !Suspicious(r, 2, cfg)
  {}

  /** The state in which the partition finds the registry: x is late, y has just been loud, an evaluation
      has just been made, and Guard is open. */
  ghost predicate Poised(s: Sys, cfg: Config)
    requires cfg.Ok()
  {
    Pair(s, s.clock) && LoudEnough(s.reg.renews, cfg) && !s.reg.protected
  }

  lemma {:induction false} Poise(cfg: Config, gap: nat, h: nat) returns (pre: seq<Label>, s: Sys)
    requires cfg.Ok() && Inv(Initial(0)) && gap > 0
    ensures PacedRun(Initial(0), pre, s, cfg, 0, gap, h) && Poised(s, cfg) && s.clock == h
  {
    var r := ManyBeats(cfg);
    hide PacedRun, Inv, Step, Suspicious, LoudEnough;
    var pre1, s1 := Wear(cfg, gap, h);
    var pre2, s2 := BeatOften(Initial(0), pre1, s1, cfg, 0, gap, h, r);
    MoreIsLoud(r, s2.reg.renews, cfg);
    LoudIsNotSuspicious(s2.reg.renews, cfg);
    var pre3 := EvaluateNow(Initial(0), pre2, s2, cfg, 0, gap, h, h);
    pre, s := BeatOften(Initial(0), pre3, Evaluated(s2, cfg), cfg, 0, gap, h, r);
  }

  lemma {:induction false} ManyBeats(cfg: Config) returns (r: nat)
    requires cfg.Ok()
    ensures LoudEnough(r, cfg)
  {
    var x := 2.0 * cfg.PerInstance() * cfg.guardThreshold;
    r := if x.Floor + 1 >= 0 then x.Floor + 1 else 0;
  }

  lemma {:induction false} MoreIsLoud(r: int, r': int, cfg: Config)
    requires cfg.Ok() && LoudEnough(r, cfg) && r <= r'
    ensures LoudEnough(r', cfg)
  {}

  /** One more quiet step at the end of a quiet run that is no evaluation. */
  lemma {:induction false} QuietNext(s: Sys, ls: seq<Label>, mid: Sys, l: Label, cfg: Config, lastEval: int, gap: int,
                                     lastEval': int)
    requires Inv(s) && cfg.Ok() && AllQuiet(ls) && PacedRun(s, ls, mid, cfg, lastEval, gap, lastEval')
    requires Inv(mid) && Enabled(mid, l) && IsQuiet(l) && !l.EvaluateLock?
    requires Step(mid, l, cfg).clock <= lastEval' + gap
    ensures Inv(Step(mid, l, cfg)) && AllQuiet(ls + [l])
    ensures PacedRun(s, ls + [l], Step(mid, l, cfg), cfg, lastEval, gap, lastEval')
  {
    hide Step, Enabled, Ok, PollersOk, RenewedBy, LoopOk, PacedRun;
    PacedNext(s, ls, mid, l, cfg, lastEval, gap, lastEval');
  }

  /** With Guard open, a sweep made once x has outlived the TTL removes it. */
  lemma {:induction false} SweepTakesLate(s0: Sys, pre: seq<Label>, s: Sys, cfg: Config, start: int, gap: nat,
                                          lastEval: int, heard: int, d: nat)
    returns (ls: seq<Label>, s': Sys)
    requires Inv(s0) && cfg.Ok() && AllQuiet(pre) && PacedRun(s0, pre, s, cfg, start, gap, lastEval)
    requires Pair(s, heard) && !s.reg.protected
    requires s.clock + d <= lastEval + gap && s.clock + d > cfg.Ttl()
    ensures AllQuiet(ls) && PacedRun(s0, ls, s', cfg, start, gap, lastEval)
    ensures !Has(s'.reg, "s", "x") && s'.clock == s.clock + d
  {
    var walls: string -> int := _ => 0;
    var a1, a2, a3;
    PairHasLate(s, heard);
    hide Step, Inv, PacedRun, Pair, Has, AllQuiet, Enabled;
    a1, a2, a3, s' := SweepSteps(s, cfg, d, walls);
    QuietNext(s0, pre, s, Tick(d), cfg, start, gap, lastEval);
    QuietNext(s0, pre + [Tick(d)], a1, ReadFlag, cfg, start, gap, lastEval);
    QuietNext(s0, pre + [Tick(d)] + [ReadFlag], a2, ReadClock, cfg, start, gap, lastEval);
    QuietNext(s0, pre + [Tick(d)] + [ReadFlag] + [ReadClock], a3, SweepLock(walls), cfg, start, gap, lastEval);
    ls := pre + [Tick(d)] + [ReadFlag] + [ReadClock] + [SweepLock(walls)];
  }

  lemma {:induction false} PairHasLate(s: Sys, heard: int)
    requires Pair(s, heard)
    ensures Inv(s) && s.loop.Resting? && Has(s.reg, "s", "x") && s.reg.services["s"].instances["x"] == Entry(LATE, 0)
    ensures heard >= 0 ==> RenewedSince(s, 0)
  {
    hide Inv;
  }

  lemma {:induction false} SweepSteps(s: Sys, cfg: Config, d: nat, walls: string -> int)
    returns (a1: Sys, a2: Sys, a3: Sys, s': Sys)
    requires Inv(s) && cfg.Ok() && s.loop.Resting? && !s.reg.protected
    requires Has(s.reg, "s", "x") && s.reg.services["s"].instances["x"] == Entry(LATE, 0) && s.clock + d > cfg.Ttl()
    ensures Enabled(s, Tick(d)) && a1 == Step(s, Tick(d), cfg)
    ensures Inv(a1) && Enabled(a1, ReadFlag) && a1.clock == s.clock + d
    ensures a2 == Step(a1, ReadFlag, cfg) && Inv(a2) && Enabled(a2, ReadClock) && a2.clock == s.clock + d
    ensures a3 == Step(a2, ReadClock, cfg) && Inv(a3) && Enabled(a3, SweepLock(walls)) && a3.clock == s.clock + d
    ensures s' == Step(a3, SweepLock(walls), cfg) && Inv(s') && s'.clock == s.clock + d && !Has(s'.reg, "s", "x")
  {
    hide Sweep, Ok, PollersOk, RenewedBy;
    a1 := Step(s, Tick(d), cfg);
    StepKeepsInv(s, Tick(d), cfg);
    a2 := Step(a1, ReadFlag, cfg);
    StepKeepsInv(a1, ReadFlag, cfg);
    a3 := Step(a2, ReadClock, cfg);
    StepKeepsInv(a2, ReadClock, cfg);
    s' := Step(a3, SweepLock(walls), cfg);
    StepKeepsInv(a3, SweepLock(walls), cfg);
    SweepRemoves(a3.reg, cfg, false, s.clock + d, walls, "s", "x");
  }

  /** The same through one more evaluation, which y's beats from before the partition keep open. */
  lemma {:induction false} SweepTakesLateLater(s: Sys, cfg: Config, gap: nat, d: nat)
    returns (ls: seq<Label>, s': Sys, lastEval': int)
    requires cfg.Ok() && Poised(s, cfg) && gap < d <= 2 * gap && s.clock + d > cfg.Ttl()
    ensures AllQuiet(ls) && PacedRun(s, ls, s', cfg, s.clock, gap, lastEval')
    ensures !Has(s'.reg, "s", "x") && s'.clock == s.clock + d
  {
    hide Step, Inv, PacedRun, Suspicious, LoudEnough;
    PairTicks(s, s.clock, cfg, gap);
    NothingDone(s, cfg, s.clock, gap);
    PacedNext(s, [], s, Tick(gap), cfg, s.clock, gap, s.clock);
    var s1 := s.(clock := s.clock + gap);
    LoudIsNotSuspicious(s.reg.renews, cfg);
    var pre := EvaluateNow(s, [] + [Tick(gap)], s1, cfg, s.clock, gap, s.clock, s.clock);
    lastEval' := s.clock + gap;
    ls, s' := SweepTakesLate(s, pre, Evaluated(s1, cfg), cfg, s.clock, gap, lastEval', s.clock, d - gap);
  }

  /** One instance lost too early breaks the guarantee. */
  lemma {:induction false} LossBreaksGuarantee(cfg: Config, gap: nat, quiet: nat, pre: seq<Label>, s: Sys,
                                               lastEval: int, ls: seq<Label>, s': Sys, lastEval': int)
    requires cfg.Ok() && Inv(Initial(0)) && PacedRun(Initial(0), pre, s, cfg, 0, gap, lastEval)
    requires Inv(s) && RenewedSince(s, s.clock - quiet)
    requires AllQuiet(ls) && PacedRun(s, ls, s', cfg, lastEval, gap, lastEval')
    requires Has(s.reg, "s", "x") && s.reg.services["s"].instances["x"].lastRenew == 0
    requires !Has(s'.reg, "s", "x") && s'.clock <= cfg.hardEvictAfter
    ensures !Guaranteed(cfg, gap, quiet)
  {
    hide PacedRun, Inv, RenewedSince, AllQuiet, Has;
    assert !SameEntry(s.reg, s'.reg, "s", "x");
  }

  /** Outside the condition the guarantee fails: x is at most `quiet` old when the partition begins, every
      evaluation is on time, and yet a sweep takes x the moment it has outlived the TTL. */
  lemma {:induction false} UncoveredBreaksGuarantee(cfg: Config, gap: nat, quiet: nat)
    requires cfg.Ok() && !Covered(cfg, gap, quiet) && gap > 0
    ensures !Guaranteed(cfg, gap, quiet)
  {
    var ttl := cfg.Ttl();
    PositiveTtl(cfg);
    var h: nat := if quiet <= ttl then quiet else ttl + 1;
    var d: nat := ttl + 1 - h;
    InitialInv(0);
    hide PacedRun, Inv, LoudEnough, RenewedSince, AllQuiet, Has, Pair, Config.Ttl;
    var pre, s := Poise(cfg, gap, h);
    PairHasLate(s, h);
    RenewedLater(s, 0, s.clock - quiet);
    var ls, s';
    var lastEval' := h;
    if d <= gap {
      NothingDone(s, cfg, h, gap);
      ls, s' := SweepTakesLate(s, [], s, cfg, h, gap, h, h, d);
    } else {
      ls, s', lastEval' := SweepTakesLateLater(s, cfg, gap, d);
    }
    LossBreaksGuarantee(cfg, gap, quiet, pre, s, h, ls, s', lastEval');
  }

  /** However evaluations are spaced, as long as they are at most `gap` apart from the registry's start on:
      Guard outlasts every partition exactly when two evaluation gaps plus the longest silence at its start
      fit into the TTL (or the TTL is not the shorter limit anyway). A statistics window shorter than the
      TTL is not enough. */
  lemma {:induction false} GuaranteedIffCovered(cfg: Config, gap: nat, quiet: nat)
    requires cfg.Ok() && cfg.guardThreshold > 0.0 && gap > 0
    ensures Guaranteed(cfg, gap, quiet) <==> 2 * gap + quiet <= cfg.Ttl() || cfg.hardEvictAfter <= cfg.Ttl()
  {
    hide Guaranteed;
    if Covered(cfg, gap, quiet) {
      CoveredIsEnough(cfg, gap, quiet);
    } else {
      UncoveredBreaksGuarantee(cfg, gap, quiet);
    }
  }

  /** The production defaults (window 1 min < TTL 90 s, heartbeats every 30 s) do not meet the condition. */
  lemma {:induction false} DefaultsAreNotCovered()
    ensures var cfg := Config(0, 0, 0, 0, 0.0).WithDefaults();
            && cfg.guardWindow < cfg.Ttl()
            && !Guaranteed(cfg, cfg.guardWindow, cfg.heartbeatInterval)
  {
    hide Guaranteed;
    var cfg := Config(0, 0, 0, 0, 0.0).WithDefaults();
    GuaranteedIffCovered(cfg, cfg.guardWindow, cfg.heartbeatInterval);
  }
}
