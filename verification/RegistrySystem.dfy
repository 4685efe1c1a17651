/** The running registry: callers, long polls and the one background loop, interleaved. A step is one
    critical section, one wait ending, or one read that the code makes without the lock. */
module RegistrySystem {
  import opened SeqSums
  import opened Snapshots
  import opened RegistryState

  /** Where a long poll stands. `woken` tells a closed channel from a timeout or a cancelled context. */
  datatype Poller =
    | AtTop(name: string, since: int)
    | Blocked(name: string, since: int, ch: Chan)
    | Leaving(name: string, since: int, woken: bool)
    | Answered(snap: seq<Instance>, version: int)
    | Unchanged(since: int)
    | Dropped

  /** The background goroutine: it runs sweeps and evaluations one after the other. */
  datatype Loop =
    | Resting
    | FlagRead(protected: bool)
    | ClockRead(protected: bool, now: int)
    | Counted(count: int)

  datatype Sys = Sys(reg: State, clock: int, pollers: seq<Poller>, loop: Loop)

  datatype Label =
    | Tick(dt: nat)
    | RegisterCall(ins: Instance, wall: int)
    | RenewCall(name: string, id: string)
    | CancelCall(name: string, id: string, wall: int)
    | NewPoll(name: string, since: int)
    | PollLock(p: nat)
    | Wake(p: nat)
    | GiveUp(p: nat)
    | LeaveLock(p: nat)
    | ReadFlag
    | ReadClock
    | SweepLock(walls: string -> int)
    | CountLock
    | EvaluateLock
    | Restart

  ghost function Initial(clock: int): Sys {
    Sys(EMPTY, clock, [], Resting)
  }

  ghost predicate Enabled(s: Sys, l: Label) {
    match l
    case PollLock(p) => p < |s.pollers| && s.pollers[p].AtTop?
    case Wake(p) => p < |s.pollers| && s.pollers[p].Blocked? && s.pollers[p].ch in s.reg.closed
    case GiveUp(p) => p < |s.pollers| && s.pollers[p].Blocked?
    case LeaveLock(p) => p < |s.pollers| && s.pollers[p].Leaving?
    case ReadFlag => s.loop.Resting?
    case ReadClock => s.loop.FlagRead?
    case SweepLock(_) => s.loop.ClockRead?
    case CountLock => s.loop.Resting?
    case EvaluateLock => s.loop.Counted?
    case _ => true
  }

  /** The locked part of one poll round. */
  ghost function Round(s: Sys, p: nat): Sys
    requires p < |s.pollers| && s.pollers[p].AtTop? && Ok(s.reg)
  {
    var w := s.pollers[p];
    var reg := Touch(s.reg, w.name);
    var svc := reg.services[w.name];
    PollKeepsOk(s.reg, w.name);
    if svc.version != w.since
    then s.(reg := reg, pollers := s.pollers[p := Answered(Snapshot(svc.instances), svc.version)])
    else s.(reg := Wait(reg, w.name), pollers := s.pollers[p := Blocked(w.name, w.since, svc.update)])
  }

  ghost function Step(s: Sys, l: Label, cfg: Config): Sys
    requires Enabled(s, l) && Ok(s.reg) && cfg.Ok()
  {
    match l
    case Tick(dt) => s.(clock := s.clock + dt)
    case RegisterCall(ins, wall) => s.(reg := Register(s.reg, ins, s.clock, wall).0)
    case RenewCall(name, id) => s.(reg := Renew(s.reg, name, id, s.clock).0)
    case CancelCall(name, id, wall) => s.(reg := Cancel(s.reg, name, id, wall).0)
    case NewPoll(name, since) => s.(pollers := s.pollers + [AtTop(name, since)])
    case PollLock(p) => Round(s, p)
    case Wake(p) => s.(pollers := s.pollers[p := Leaving(s.pollers[p].name, s.pollers[p].since, true)])
    case GiveUp(p) => s.(pollers := s.pollers[p := Leaving(s.pollers[p].name, s.pollers[p].since, false)])
    case LeaveLock(p) =>
      var w := s.pollers[p];
      s.(reg := Release(s.reg, w.name),
         pollers := s.pollers[p := if w.woken then AtTop(w.name, w.since) else Unchanged(w.since)])
    case ReadFlag => s.(loop := FlagRead(s.reg.protected))
    case ReadClock => s.(loop := ClockRead(s.loop.protected, s.clock))
    case SweepLock(walls) => s.(reg := Sweep(s.reg, cfg, s.loop.protected, s.loop.now, walls), loop := Resting)
    case CountLock => s.(loop := Counted(InstanceCount(s.reg)))
    case EvaluateLock => s.(reg := Evaluate(s.reg, s.loop.count, cfg), loop := Resting)
    case Restart =>
      Sys(EMPTY.(serial := s.reg.serial, closed := s.reg.closed), s.clock, seq(|s.pollers|, _ => Dropped), Resting)
  }

  // ---------------------------------------------------------------- the invariant

  function Waits(w: Poller, name: string): int {
    if (w.Blocked? || w.Leaving?) && w.name == name then 1 else 0
  }

  function Flags(ws: seq<Poller>, name: string): (r: seq<int>)
    ensures |r| == |ws| && forall p | 0 <= p < |ws| :: r[p] == Waits(ws[p], name)
  {
    seq(|ws|, p requires 0 <= p < |ws| => Waits(ws[p], name))
  }

  /** Polls between counting themselves in and counting themselves out. */
  function Waiting(ws: seq<Poller>, name: string): int {
    Sum(Flags(ws, name))
  }

  /** A blocked poll watches its entry's channel; that channel is closed exactly when the entry's version
      has left the one the poll came with, and while it is open it is the entry's current channel. */
  ghost predicate Watches(w: Poller, reg: State)
    requires w.Blocked?
  {
    && w.name in reg.services
    && var svc := reg.services[w.name];
      && svc.version >= w.since
      && w.ch.name == w.name && w.ch.serial < reg.serial
      && (w.ch in reg.closed <==> svc.version != w.since)
      && (w.ch !in reg.closed ==> w.ch == svc.update)
  }

  ghost predicate WaitersCounted(reg: State, ws: seq<Poller>) {
    forall name :: Waiting(ws, name) == if name in reg.services then reg.services[name].waiters else 0
  }

  ghost predicate PollersOk(reg: State, ws: seq<Poller>) {
    && WaitersCounted(reg, ws)
    && forall p | 0 <= p < |ws| && ws[p].Blocked? :: Watches(ws[p], reg)
  }

  ghost predicate RenewedBy(reg: State, clock: int) {
    forall name, id | Has(reg, name, id) :: reg.services[name].instances[id].lastRenew <= clock
  }

  /** Only the loop itself changes the flag, so what it read stays true until it acts. */
  ghost predicate LoopOk(s: Sys) {
    match s.loop
    case Resting => true
    case FlagRead(protected) => protected == s.reg.protected
    case ClockRead(protected, now) => protected == s.reg.protected && now <= s.clock
    case Counted(count) => count >= 0
  }

  ghost predicate Inv(s: Sys) {
    Ok(s.reg) && PollersOk(s.reg, s.pollers) && RenewedBy(s.reg, s.clock) && LoopOk(s)
  }

  // ---------------------------------------------------------------- preservation: the polls

  lemma {:induction false} PollerChanges(ws: seq<Poller>, p: nat, w: Poller, name: string)
    requires p < |ws|
    ensures Waiting(ws[p := w], name) == Waiting(ws, name) - Waits(ws[p], name) + Waits(w, name)
  {
    hide Waits, Sum;
    assert Flags(ws[p := w], name) == Flags(ws, name)[p := Waits(w, name)];
    SumUpdate(Flags(ws, name), p, Waits(w, name));
  }

  lemma {:induction false} PollerArrives(ws: seq<Poller>, w: Poller, name: string)
    ensures Waiting(ws + [w], name) == Waiting(ws, name) + Waits(w, name)
  {
    hide Waits, Sum;
    assert Flags(ws + [w], name) == Flags(ws, name) + [Waits(w, name)];
    SumAppend(Flags(ws, name), Waits(w, name));
  }

  /** Steps that leave waiter counts alone. */
  ghost predicate KeepsWaiters(s: State, s': State) {
    && (forall name | name in s.services && name in s'.services ::
          s'.services[name].waiters == s.services[name].waiters)
    && (forall name | name in s.services && name !in s'.services :: s.services[name].waiters == 0)
    && (forall name | name in s'.services && name !in s.services :: s'.services[name].waiters == 0)
  }

  lemma {:induction false} RegisterKeepsWaiters(s: State, ins: Instance, now: int, wall: int)
    ensures KeepsWaiters(s, Register(s, ins, now, wall).0)
  {
    hide NextVersion, Complete;
  }

  lemma {:induction false} RenewKeepsWaiters(s: State, name: string, id: string, now: int)
    ensures KeepsWaiters(s, Renew(s, name, id, now).0)
  {}

  lemma {:induction false} CancelKeepsWaiters(s: State, name: string, id: string, wall: int)
    ensures KeepsWaiters(s, Cancel(s, name, id, wall).0)
  {
    hide NextVersion;
  }

  lemma {:induction false} TouchKeepsWaiters(s: State, name: string)
    ensures KeepsWaiters(s, Touch(s, name))
  {}

  lemma {:induction false} SweepKeepsWaiters(s: State, cfg: Config, protected: bool, now: int, wall: string -> int)
    ensures KeepsWaiters(s, Sweep(s, cfg, protected, now, wall))
  {}

  /** A poll that is counted keeps its entry alive, and its channel stays right. */
  lemma {:induction false} EvolutionKeepsPollers(s: State, s': State, ws: seq<Poller>)
    requires Ok(s) && Ok(s') && Evolves(s, s') && KeepsWaiters(s, s') && PollersOk(s, ws)
    ensures PollersOk(s', ws)
  {
    forall p | 0 <= p < |ws| && ws[p].Blocked? ensures Watches(ws[p], s') {
      CountedPollHasEntry(s, ws, p);
      WatchSurvives(s, s', ws[p]);
    }
  }

  lemma {:induction false} CountedPollHasEntry(s: State, ws: seq<Poller>, p: nat)
    requires WaitersCounted(s, ws) && p < |ws| && (ws[p].Blocked? || ws[p].Leaving?)
    ensures ws[p].name in s.services && s.services[ws[p].name].waiters > 0
  {
    var name := ws[p].name;
    ElementAtMost(Flags(ws, name), 0, p);
    assert Waiting(ws, name) >= 1;
  }

  lemma {:induction false} WatchSurvives(s: State, s': State, w: Poller)
    requires Ok(s) && Ok(s') && Evolves(s, s') && w.Blocked? && Watches(w, s)
    requires s.services[w.name].waiters > 0
    ensures Watches(w, s')
  {
    assert w.name in s'.services;
    assert Tracks(s.services[w.name], s'.services[w.name], s'.closed);
    assert ServiceOk(s'.services[w.name], w.name, s');
    hide AddrMap;
  }

  lemma {:induction false} RoundKeepsPollers(s: Sys, p: nat)
    requires Ok(s.reg) && PollersOk(s.reg, s.pollers) && p < |s.pollers| && s.pollers[p].AtTop?
    ensures PollersOk(Round(s, p).reg, Round(s, p).pollers)
  {
    var w := s.pollers[p];
    var reg := Touch(s.reg, w.name);
    PollKeepsOk(s.reg, w.name);
    TouchEvolves(s.reg, w.name);
    TouchKeepsWaiters(s.reg, w.name);
    EvolutionKeepsPollers(s.reg, reg, s.pollers);
    if reg.services[w.name].version == w.since {
      JoinKeepsPollers(reg, s.pollers, p);
    }
    ReplyKeepsPollers(reg, s.pollers, p, Snapshot(reg.services[w.name].instances), reg.services[w.name].version);
  }

  lemma {:induction false} ReplyKeepsPollers(reg: State, ws: seq<Poller>, p: nat, snap: seq<Instance>, version: int)
    requires PollersOk(reg, ws) && p < |ws| && ws[p].AtTop?
    ensures PollersOk(reg, ws[p := Answered(snap, version)])
  {
    hide Watches;
    forall name ensures Waiting(ws[p := Answered(snap, version)], name) == Waiting(ws, name) {
      PollerChanges(ws, p, Answered(snap, version), name);
    }
  }

  lemma {:induction false} JoinKeepsPollers(reg: State, ws: seq<Poller>, p: nat)
    requires Ok(reg) && PollersOk(reg, ws) && p < |ws| && ws[p].AtTop? && ws[p].name in reg.services
    requires reg.services[ws[p].name].version == ws[p].since
    ensures PollersOk(Wait(reg, ws[p].name), ws[p := Blocked(ws[p].name, ws[p].since, reg.services[ws[p].name].update)])
  {
    var w := Blocked(ws[p].name, ws[p].since, reg.services[ws[p].name].update);
    assert ServiceOk(reg.services[w.name], w.name, reg);
    hide Ok, ServiceOk, Waiting, Watches;
    forall name ensures Waiting(ws[p := w], name) == Waiting(ws, name) + if name == w.name then 1 else 0 {
      PollerChanges(ws, p, w, name);
    }
    var ws' := ws[p := w];
    forall q | 0 <= q < |ws'| && ws'[q].Blocked? ensures Watches(ws'[q], Wait(reg, w.name)) {
      WaitKeepsWatch(reg, w.name, ws'[q]);
    }
  }

  lemma {:induction false} WaitKeepsWatch(reg: State, name: string, w: Poller)
    requires name in reg.services && w.Blocked? && Watches(w, reg)
    ensures Watches(w, Wait(reg, name))
  {}

  lemma {:induction false} LeaveKeepsPollers(reg: State, ws: seq<Poller>, p: nat, w: Poller)
    requires PollersOk(reg, ws) && p < |ws| && ws[p].Leaving? && (w.AtTop? || w.Unchanged?)
    ensures PollersOk(Release(reg, ws[p].name), ws[p := w])
  {
    CountedPollHasEntry(reg, ws, p);
    hide Waiting, Watches;
    forall name ensures Waiting(ws[p := w], name) == Waiting(ws, name) - if name == ws[p].name then 1 else 0 {
      PollerChanges(ws, p, w, name);
    }
    forall q | 0 <= q < |ws| && ws[p := w][q].Blocked? ensures Watches(ws[q], Release(reg, ws[p].name)) {
      ReleaseKeepsWatch(reg, ws[p].name, ws[q]);
    }
  }

  lemma {:induction false} ReleaseKeepsWatch(reg: State, name: string, w: Poller)
    requires w.Blocked? && Watches(w, reg)
    ensures Watches(w, Release(reg, name))
  {}

  lemma {:induction false} SelectKeepsPollers(reg: State, ws: seq<Poller>, p: nat, woken: bool)
    requires PollersOk(reg, ws) && p < |ws| && ws[p].Blocked?
    ensures PollersOk(reg, ws[p := Leaving(ws[p].name, ws[p].since, woken)])
  {
    hide Watches;
    var w := Leaving(ws[p].name, ws[p].since, woken);
    forall name ensures Waiting(ws[p := w], name) == Waiting(ws, name) {
      PollerChanges(ws, p, w, name);
    }
  }

  lemma {:induction false} ArrivalKeepsPollers(reg: State, ws: seq<Poller>, name: string, since: int)
    requires PollersOk(reg, ws)
    ensures PollersOk(reg, ws + [AtTop(name, since)])
  {
    hide Watches;
    forall n ensures Waiting(ws + [AtTop(name, since)], n) == Waiting(ws, n) {
      PollerArrives(ws, AtTop(name, since), n);
    }
  }

  lemma {:induction false} RestartKeepsPollers(n: nat, closed: set<Chan>, serial: nat)
    ensures PollersOk(EMPTY.(serial := serial, closed := closed), seq(n, _ => Dropped))
  {
    var ws := seq(n, _ => Dropped);
    forall name ensures Waiting(ws, name) == 0 {
      assert Flags(ws, name) == Zeros(n);
      SumZeros(n);
    }
  }

  // ---------------------------------------------------------------- preservation: everything

  lemma {:induction false} CallKeepsInv(s: Sys, reg': State)
    requires Inv(s) && Ok(reg') && Evolves(s.reg, reg') && KeepsWaiters(s.reg, reg')
    requires RenewedBy(reg', s.clock) && reg'.protected == s.reg.protected
    ensures Inv(s.(reg := reg'))
  {
    hide Ok, Evolves, KeepsWaiters, PollersOk;
    EvolutionKeepsPollers(s.reg, reg', s.pollers);
  }

  lemma {:induction false} RegisterRenews(s: State, ins: Instance, now: int, wall: int)
    requires RenewedBy(s, now)
    ensures RenewedBy(Register(s, ins, now, wall).0, now)
    ensures Register(s, ins, now, wall).0.protected == s.protected
  {}

  lemma {:induction false} RegisterKeepsInv(s: Sys, ins: Instance, wall: int)
    requires Inv(s)
    ensures Inv(s.(reg := Register(s.reg, ins, s.clock, wall).0))
  {
    hide Ok, Evolves, KeepsWaiters, PollersOk;
    RegisterKeepsOk(s.reg, ins, s.clock, wall);
    RegisterEvolves(s.reg, ins, s.clock, wall);
    RegisterKeepsWaiters(s.reg, ins, s.clock, wall);
    RegisterRenews(s.reg, ins, s.clock, wall);
    hide Register, RenewedBy;
    CallKeepsInv(s, Register(s.reg, ins, s.clock, wall).0);
  }

  lemma {:induction false} RenewKeepsInv(s: Sys, name: string, id: string)
    requires Inv(s)
    ensures Inv(s.(reg := Renew(s.reg, name, id, s.clock).0))
  {
    hide Ok, Evolves, KeepsWaiters, PollersOk;
    RenewKeepsOk(s.reg, name, id, s.clock);
    RenewEvolves(s.reg, name, id, s.clock);
    RenewKeepsWaiters(s.reg, name, id, s.clock);
    CallKeepsInv(s, Renew(s.reg, name, id, s.clock).0);
  }

  lemma {:induction false} CancelKeepsInv(s: Sys, name: string, id: string, wall: int)
    requires Inv(s)
    ensures Inv(s.(reg := Cancel(s.reg, name, id, wall).0))
  {
    hide Ok, Evolves, KeepsWaiters, PollersOk;
    CancelKeepsOk(s.reg, name, id, wall);
    CancelEvolves(s.reg, name, id, wall);
    CancelKeepsWaiters(s.reg, name, id, wall);
    CallKeepsInv(s, Cancel(s.reg, name, id, wall).0);
  }

  lemma {:induction false} SweepKeepsInv(s: Sys, cfg: Config, wall: string -> int)
    requires Inv(s) && s.loop.ClockRead?
    ensures Inv(s.(reg := Sweep(s.reg, cfg, s.loop.protected, s.loop.now, wall), loop := Resting))
  {
    hide Ok, Evolves, KeepsWaiters, PollersOk;
    SweepKeepsOk(s.reg, cfg, s.loop.protected, s.loop.now, wall);
    SweepEvolves(s.reg, cfg, s.loop.protected, s.loop.now, wall);
    SweepKeepsWaiters(s.reg, cfg, s.loop.protected, s.loop.now, wall);
    CallKeepsInv(s.(loop := Resting), Sweep(s.reg, cfg, s.loop.protected, s.loop.now, wall));
  }

  lemma {:induction false} EvaluateKeepsInv(s: Sys, cfg: Config)
    requires Inv(s) && s.loop.Counted? && cfg.Ok()
    ensures Inv(s.(reg := Evaluate(s.reg, s.loop.count, cfg), loop := Resting))
  {
    EvaluateEvolves(s.reg, s.loop.count, cfg);
    var reg' := Evaluate(s.reg, s.loop.count, cfg);
    hide Ok, PollersOk;
    assert KeepsWaiters(s.reg, reg');
    EvolutionKeepsPollers(s.reg, reg', s.pollers);
  }

  lemma {:induction false} RoundKeepsInv(s: Sys, p: nat)
    requires Inv(s) && p < |s.pollers| && s.pollers[p].AtTop?
    ensures Inv(Round(s, p))
  {
    hide Ok, PollersOk;
    PollKeepsOk(s.reg, s.pollers[p].name);
    RoundKeepsPollers(s, p);
  }

  lemma {:induction false} LeaveKeepsInv(s: Sys, p: nat, w: Poller)
    requires Inv(s) && p < |s.pollers| && s.pollers[p].Leaving? && (w.AtTop? || w.Unchanged?)
    ensures Inv(s.(reg := Release(s.reg, s.pollers[p].name), pollers := s.pollers[p := w]))
  {
    hide Ok, PollersOk;
    PollKeepsOk(s.reg, s.pollers[p].name);
    LeaveKeepsPollers(s.reg, s.pollers, p, w);
  }

  lemma {:induction false} RestartKeepsInv(s: Sys, cfg: Config)
    requires Inv(s) && cfg.Ok()
    ensures Inv(Step(s, Restart, cfg))
  {
    RestartKeepsPollers(|s.pollers|, s.reg.closed, s.reg.serial);
    hide PollersOk;
  }

  lemma {:induction false} StepKeepsInv(s: Sys, l: Label, cfg: Config)
    requires Inv(s) && Enabled(s, l) && cfg.Ok()
    ensures Inv(Step(s, l, cfg))
  {
    hide Ok, PollersOk, Register, Renew, Cancel, Sweep, Evaluate, Round, Release;
    match l {
      case Tick(_) =>
      case RegisterCall(ins, wall) => RegisterKeepsInv(s, ins, wall);
      case RenewCall(name, id) => RenewKeepsInv(s, name, id);
      case CancelCall(name, id, wall) => CancelKeepsInv(s, name, id, wall);
      case NewPoll(name, since) => ArrivalKeepsPollers(s.reg, s.pollers, name, since);
      case PollLock(p) => RoundKeepsInv(s, p);
      case Wake(p) => SelectKeepsPollers(s.reg, s.pollers, p, true);
      case GiveUp(p) => SelectKeepsPollers(s.reg, s.pollers, p, false);
      case LeaveLock(p) => LeaveKeepsInv(s, p, Step(s, l, cfg).pollers[p]);
      case ReadFlag =>
      case ReadClock =>
      case SweepLock(walls) => SweepKeepsInv(s, cfg, walls);
      case CountLock =>
      case EvaluateLock => EvaluateKeepsInv(s, cfg);
      case Restart => RestartKeepsInv(s, cfg);
    }
  }

  // ---------------------------------------------------------------- runs

  /** `s'` is reached from `s` by the steps `ls`, in that order. */
  ghost predicate Reaches(s: Sys, ls: seq<Label>, s': Sys, cfg: Config)
    requires Inv(s) && cfg.Ok()
    decreases |ls|
  {
    if ls == [] then s' == s
    else Enabled(s, ls[0]) && (StepKeepsInv(s, ls[0], cfg); Reaches(Step(s, ls[0], cfg), ls[1..], s', cfg))
  }

  lemma {:induction false} InitialInv(clock: int)
    ensures Inv(Initial(clock))
  {
    RestartKeepsPollers(0, {}, 0);
    assert seq(0, _ => Dropped) == [];
  }

  lemma {:induction false} RunKeepsInv(s: Sys, ls: seq<Label>, s': Sys, cfg: Config)
    requires Inv(s) && cfg.Ok() && Reaches(s, ls, s', cfg)
    ensures Inv(s')
    decreases |ls|
  {
    hide Step, Enabled, Ok, PollersOk, RenewedBy, LoopOk;
    if ls != [] {
      StepKeepsInv(s, ls[0], cfg);
      RunKeepsInv(Step(s, ls[0], cfg), ls[1..], s', cfg);
    }
  }

  /** No lost wakeup: in every reachable state a blocked poll's channel is closed, so the poll can leave,
      exactly when its entry's version is no longer the one it came with; its entry exists; and
      `waiters` is the number of polls between counting in and counting out. */
  lemma {:induction false} NoLostWakeup(clock: int, ls: seq<Label>, s: Sys, cfg: Config, p: nat)
    requires cfg.Ok() && Inv(Initial(clock)) && Reaches(Initial(clock), ls, s, cfg)
    requires p < |s.pollers| && s.pollers[p].Blocked?
    ensures s.pollers[p].name in s.reg.services
    ensures Enabled(s, Wake(p)) <==> s.reg.services[s.pollers[p].name].version != s.pollers[p].since
    ensures s.reg.services[s.pollers[p].name].waiters == Waiting(s.pollers, s.pollers[p].name) >= 1
  {
    hide Step, Reaches;
    RunKeepsInv(Initial(clock), ls, s, cfg);
    CountedPollHasEntry(s.reg, s.pollers, p);
    assert Watches(s.pollers[p], s.reg);
  }

  /** The defensive test when a poll leaves always succeeds: its entry is there and counts it. */
  lemma {:induction false} LeavingPollIsCounted(clock: int, ls: seq<Label>, s: Sys, cfg: Config, p: nat)
    requires cfg.Ok() && Inv(Initial(clock)) && Reaches(Initial(clock), ls, s, cfg)
    requires p < |s.pollers| && s.pollers[p].Leaving?
    ensures s.pollers[p].name in s.reg.services && s.reg.services[s.pollers[p].name].waiters > 0
  {
    hide Step, Reaches;
    RunKeepsInv(Initial(clock), ls, s, cfg);
    CountedPollHasEntry(s.reg, s.pollers, p);
  }

  /** No channel is ever closed twice: in every reachable state each service's channel is open, and no two
      services share one, so whatever single services a call or a sweep bumps, it closes open channels. */
  lemma {:induction false} ChannelsOpenAndDistinct(clock: int, ls: seq<Label>, s: Sys, cfg: Config)
    requires cfg.Ok() && Inv(Initial(clock)) && Reaches(Initial(clock), ls, s, cfg)
    ensures forall name | name in s.reg.services :: s.reg.services[name].update !in s.reg.closed
    ensures forall a, b | a in s.reg.services && b in s.reg.services && a != b ::
              s.reg.services[a].update != s.reg.services[b].update
  {
    hide Step, Reaches;
    RunKeepsInv(Initial(clock), ls, s, cfg);
    assert forall name | name in s.reg.services :: ServiceOk(s.reg.services[name], name, s.reg);
  }

  lemma {:induction false} InvCounts(s: Sys)
    requires Inv(s)
    ensures WaitersCounted(s.reg, s.pollers)
  {}

  /** An entry that a poll is blocked on or leaving is never reaped, whatever step comes next. */
  lemma {:induction false} WatchedEntryIsNotReaped(s: Sys, l: Label, cfg: Config, p: nat)
    requires Inv(s) && cfg.Ok() && Enabled(s, l) && !l.Restart? && l != LeaveLock(p)
    requires p < |s.pollers| && (s.pollers[p].Blocked? || s.pollers[p].Leaving?)
    ensures s.pollers[p].name in Step(s, l, cfg).reg.services
  {
    hide Step, Enabled, Ok, PollersOk, RenewedBy, LoopOk;
    StepKeepsInv(s, l, cfg);
    InvCounts(Step(s, l, cfg));
    PollStays(s, l, cfg, p);
    CountedPollHasEntry(Step(s, l, cfg).reg, Step(s, l, cfg).pollers, p);
  }

  lemma {:induction false} PollStays(s: Sys, l: Label, cfg: Config, p: nat)
    requires Ok(s.reg) && cfg.Ok() && Enabled(s, l) && !l.Restart? && l != LeaveLock(p)
    requires p < |s.pollers| && (s.pollers[p].Blocked? || s.pollers[p].Leaving?)
    ensures p < |Step(s, l, cfg).pollers|
    ensures Step(s, l, cfg).pollers[p].Blocked? || Step(s, l, cfg).pollers[p].Leaving?
    ensures Step(s, l, cfg).pollers[p].name == s.pollers[p].name
  {
    hide Ok, Register, Renew, Cancel, Sweep, Evaluate, Release, Touch, Wait;
  }

  // ---------------------------------------------------------------- eviction

  ghost predicate RemovedBy(s: Sys, s': Sys, name: string, id: string) {
    Has(s.reg, name, id) && !Has(s'.reg, name, id)
  }

  /** The sweep removes exactly the expired instances, and keeps the rest as they are. */
  lemma {:induction false} SweepRemoves(s: State, cfg: Config, protected: bool, now: int, wall: string -> int,
                                        name: string, id: string)
    requires Has(s, name, id)
    ensures Has(Sweep(s, cfg, protected, now, wall), name, id)
        <==> !Expired(s.services[name].instances[id], cfg, protected, now)
    ensures Has(Sweep(s, cfg, protected, now, wall), name, id) ==>
              Sweep(s, cfg, protected, now, wall).services[name].instances[id] == s.services[name].instances[id]
  {
    var svc := s.services[name];
    var left := Swept(svc, name, cfg, protected, now, wall(name), s.serial);
    assert id in Survivors(svc.instances, cfg, protected, now) <==> !Expired(svc.instances[id], cfg, protected, now);
    assert left.instances == Survivors(svc.instances, cfg, protected, now);
    hide Expired;
  }

  /** Every way an instance can disappear: its own cancel, a restart, or a sweep that is justified at that
      very moment. The sweep read flag and clock before it took the lock; still, the instance has then
      been silent for longer than HardEvictAfter, or for longer than the TTL with Guard unprotected now;
      and an instance renewed since the clock was read survives. */
  lemma {:induction false} EveryRemovalIsJustified(s: Sys, l: Label, cfg: Config, name: string, id: string)
    requires Inv(s) && cfg.Ok() && Enabled(s, l) && RemovedBy(s, Step(s, l, cfg), name, id)
    ensures var silent := s.clock - s.reg.services[name].instances[id].lastRenew;
            || l.Restart?
            || (l.CancelCall? && l.name == name && l.id == id)
            || (l.SweepLock? && s.reg.services[name].instances[id].lastRenew < s.loop.now
                && (silent > cfg.hardEvictAfter || (silent > cfg.Ttl() && !s.reg.protected)))
  {
    hide Ok, PollersOk, RenewedBy, Swept, Sweep;
    if l.SweepLock? {
      SweepRemoves(s.reg, cfg, s.loop.protected, s.loop.now, l.walls, name, id);
      PositiveTtl(cfg);
    }
  }

  lemma {:induction false} PositiveTtl(cfg: Config)
    requires cfg.Ok()
    ensures cfg.Ttl() > 0
  {}

  /** After a sweep nobody has been silent too long, by the clock it read. */
  lemma {:induction false} SweepLeavesNoneOverdue(s: Sys, walls: string -> int, cfg: Config, name: string, id: string)
    requires Inv(s) && cfg.Ok() && s.loop.ClockRead?
    requires Has(Step(s, SweepLock(walls), cfg).reg, name, id)
    ensures var e := Step(s, SweepLock(walls), cfg).reg.services[name].instances[id];
            && s.loop.now - e.lastRenew <= cfg.hardEvictAfter
            && (!s.reg.protected ==> s.loop.now - e.lastRenew <= cfg.Ttl())
  {
    SweepRemoves(s.reg, cfg, s.loop.protected, s.loop.now, walls, name, id);
  }
}
