/** An instance's time on the registry: what each call does to it and to the others, and who stays. */
module Lifetimes {
  import opened Snapshots
  import opened RegistryState
  import opened RegistrySystem

  /** Instance (name, id) is the same before and after: absent, or present with the same entry. */
  ghost predicate Untouched(s: State, s': State, name: string, id: string) {
    && (Has(s', name, id) <==> Has(s, name, id))
    && (Has(s, name, id) ==> s'.services[name].instances[id] == s.services[name].instances[id])
  }

  /** A registration puts in the given instance as renewed now, and touches no other. */
  lemma {:induction false} RegisterTouchesOne(s: State, ins: Instance, now: int, wall: int, name: string, id: string)
    ensures var s' := Register(s, ins, now, wall).0;
            if Complete(ins) && name == ins.service && id == ins.id
            then Has(s', name, id) && s'.services[name].instances[id] == Entry(ins, now)
            else Untouched(s, s', name, id)
  {}

  /** A renewal moves the renewal time of the instance, if present, and touches no other. */
  lemma {:induction false} RenewTouchesOne(s: State, name0: string, id0: string, now: int, name: string, id: string)
    ensures var s' := Renew(s, name0, id0, now).0;
            if Has(s, name, id) && name == name0 && id == id0
            then Has(s', name, id)
                && s'.services[name].instances[id] == s.services[name].instances[id].(lastRenew := now)
            else Untouched(s, s', name, id)
  {}

  /** A cancel takes the instance out and touches no other. */
  lemma {:induction false} CancelTouchesOne(s: State, name0: string, id0: string, wall: int, name: string, id: string)
    ensures var s' := Cancel(s, name0, id0, wall).0;
            if name == name0 && id == id0 then !Has(s', name, id) else Untouched(s, s', name, id)
  {}

  /** Polls touch none. */
  lemma {:induction false} PollTouchesNone(s: State, name0: string, name: string, id: string)
    ensures Untouched(s, Touch(s, name0), name, id)
    ensures Untouched(s, Wait(Touch(s, name0), name0), name, id)
    ensures Untouched(s, Release(s, name0), name, id)
  {}

  // ---------------------------------------------------------------- punctual instances

  ghost predicate BeatFor(l: Label, name: string, id: string) {
    || (l.RegisterCall? && Complete(l.ins) && l.ins.service == name && l.ins.id == id)
    || (l.RenewCall? && l.name == name && l.id == id)
  }

  ghost predicate Ends(l: Label, name: string, id: string) {
    l.Restart? || (l.CancelCall? && l.name == name && l.id == id)
  }

  ghost function LastBeat(s: Sys, l: Label, name: string, id: string, last: int): int {
    if BeatFor(l, name, id) then s.clock else last
  }

  /** A run on which (name, id), last heard at `last`, is never silent for longer than `bound`, is not
      cancelled, and the registry does not restart. Only calls and the clock are looked at. */
  ghost predicate Punctual(s: Sys, ls: seq<Label>, s': Sys, cfg: Config, name: string, id: string, last: int,
                           bound: int)
    requires Inv(s) && cfg.Ok()
    decreases |ls|
  {
    && s.clock <= last + bound
    && if ls == [] then s' == s
       else
         && Enabled(s, ls[0]) && !Ends(ls[0], name, id)
         && (StepKeepsInv(s, ls[0], cfg);
             Punctual(Step(s, ls[0], cfg), ls[1..], s', cfg, name, id, LastBeat(s, ls[0], name, id, last), bound))
  }

  /** One step: a punctual instance stays, with its last beat as the renewal time. */
  lemma {:induction false} PunctualStep(s: Sys, l: Label, cfg: Config, name: string, id: string, last: int)
    requires Inv(s) && cfg.Ok() && Enabled(s, l) && !Ends(l, name, id)
    requires Has(s.reg, name, id) && s.reg.services[name].instances[id].lastRenew == last
    requires s.clock - last <= cfg.Ttl() && s.clock - last <= cfg.hardEvictAfter
    ensures Has(Step(s, l, cfg).reg, name, id)
    ensures Step(s, l, cfg).reg.services[name].instances[id].lastRenew == LastBeat(s, l, name, id, last)
  {
    hide Ok, PollersOk, RenewedBy, LoopOk, Register, Renew, Cancel, Sweep, Evaluate, Release, Touch, Wait;
    if !Has(Step(s, l, cfg).reg, name, id) {
      EveryRemovalIsJustified(s, l, cfg, name, id);
    }
    match l {
      case RegisterCall(ins, wall) => RegisterTouchesOne(s.reg, ins, s.clock, wall, name, id);
      case RenewCall(n, i) => RenewTouchesOne(s.reg, n, i, s.clock, name, id);
      case CancelCall(n, i, wall) => CancelTouchesOne(s.reg, n, i, wall, name, id);
      case PollLock(p) => PollTouchesNone(s.reg, s.pollers[p].name, name, id);
      case LeaveLock(p) => PollTouchesNone(s.reg, s.pollers[p].name, name, id);
      case SweepLock(walls) => SweepRemoves(s.reg, cfg, s.loop.protected, s.loop.now, walls, name, id);
      case EvaluateLock => EvaluateTouchesNone(s.reg, s.loop.count, cfg, name, id);
      case _ =>
    }
  }

  lemma {:induction false} EvaluateTouchesNone(s: State, count: int, cfg: Config, name: string, id: string)
    requires cfg.Ok()
    ensures Untouched(s, Evaluate(s, count, cfg), name, id)
  {}

  /** An instance that beats at least once per TTL (and per HardEvictAfter) is never evicted, whatever
      anybody else does, however sweeps and evaluations fall, and whether or not Guard is protected. */
  lemma {:induction false} PunctualStaysRegistered(s: Sys, ls: seq<Label>, s': Sys, cfg: Config,
                                                   name: string, id: string, last: int, bound: int)
    requires Inv(s) && cfg.Ok() && bound <= cfg.Ttl() && bound <= cfg.hardEvictAfter
    requires Has(s.reg, name, id) && s.reg.services[name].instances[id].lastRenew == last
    requires Punctual(s, ls, s', cfg, name, id, last, bound)
    ensures Has(s'.reg, name, id) && s'.clock - s'.reg.services[name].instances[id].lastRenew <= bound
    decreases |ls|
  {
    hide Step, Enabled, Ok, PollersOk, RenewedBy, LoopOk, LastBeat;
    if ls != [] {
      StepKeepsInv(s, ls[0], cfg);
      PunctualStep(s, ls[0], cfg, name, id, last);
      PunctualStaysRegistered(Step(s, ls[0], cfg), ls[1..], s', cfg, name, id, LastBeat(s, ls[0], name, id, last),
                              bound);
    }
  }
}
