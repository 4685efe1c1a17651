/** A registration against the registry itself, with everybody else's calls, polls, sweeps and restarts in
    between. Every such run is a run of the registration model, with the same answers and the instance there
    exactly when the model says so; hence what is proved of the model holds at the registry. */
module InstanceOnRegistry {
  import opened Snapshots
  import G = RegistrySystem
  import L = Lifetimes
  import R = Registration
  import S = RegistryState

  /** What a registration's server-side state stands for. */
  ghost predicate Stands(s: R.Sys, reg: S.State, ins: Instance) {
    && s.valid == S.Complete(ins)
    && (s.owner.Absent? <==> !S.Has(reg, ins.service, ins.id))
  }

  function Call(reg: S.State, ins: Instance, rpc: R.Rpc, now: int, wall: int): (S.State, S.Outcome) {
    match rpc
    case RegisterRpc => S.Register(reg, ins, now, wall)
    case RenewRpc => S.Renew(reg, ins.service, ins.id, now)
    case CancelRpc => S.Cancel(reg, ins.service, ins.id, wall)
  }

  function ReplyFor(o: S.Outcome): R.Reply {
    match o
    case Done => R.Reply.Ok
    case NothingFound => R.NotFound
    case RequestErr => R.BadRequest
  }

  /** Serving a call: same reply, and the states go on standing for each other. */
  lemma {:induction false} ServedAlike(s: R.Sys, reg: S.State, ins: Instance, rpc: R.Rpc, now: int, wall: int)
    requires Stands(s, reg, ins)
    ensures R.ReplyTo(s, rpc) == ReplyFor(Call(reg, ins, rpc, now, wall).1)
    ensures Stands(R.Effect(s, rpc), Call(reg, ins, rpc, now, wall).0, ins)
  {}

  // ---------------------------------------------------------------- both together

  /** The client with its calls, and the registry. What `client` says of the server side is not looked at. */
  datatype World = World(client: R.Sys, reg: G.Sys)

  /** The client moves, the registry processes a request of the client, or it does anything else: serve other
      callers, also for the same instance, answer polls, sweep, evaluate, restart. */
  datatype Event =
    | Client(l: R.Label)
    | Served(l: R.Label, wall: int)
    | Other(r: G.Label)

  predicate IsServe(l: R.Label) {
    l == R.LoopCall(R.Serve) || l == R.DeregCall(R.Serve) || l.ServeLate?
  }

  function RpcOf(s: R.Sys, l: R.Label): R.Rpc
    requires R.Enabled(s, l) && IsServe(l)
  {
    match l
    case LoopCall(_) => s.loop.call.rpc
    case DeregCall(_) => s.dereg.call.rpc
    case ServeLate(rpc) => rpc
  }

  function Request(ins: Instance, rpc: R.Rpc, wall: int): G.Label {
    match rpc
    case RegisterRpc => G.RegisterCall(ins, wall)
    case RenewRpc => G.RenewCall(ins.service, ins.id)
    case CancelRpc => G.CancelCall(ins.service, ins.id, wall)
  }

  /** The answer is on its way back, or nobody waits for it any more. */
  function Replied(s: R.Sys, l: R.Label, reply: R.Reply): R.Sys
    requires R.Enabled(s, l) && IsServe(l)
  {
    match l
    case LoopCall(_) => s.(loop := s.loop.(call := R.Processed(s.loop.call.rpc, reply)))
    case DeregCall(_) => s.(dereg := R.Cancelling(R.Processed(s.dereg.call.rpc, reply)))
    case ServeLate(rpc) => s.(late := s.late - multiset{rpc})
  }

  ghost predicate Enabled(w: World, e: Event) {
    match e
    case Client(l) => R.Enabled(w.client, l) && !IsServe(l) && !l.OthersRegister? && !l.OthersRemove?
    case Served(l, _) => R.Enabled(w.client, l) && IsServe(l)
    case Other(r) => G.Enabled(w.reg, r)
  }

  ghost function Step(w: World, e: Event, ins: Instance, cfg: S.Config): World
    requires Enabled(w, e) && S.Ok(w.reg.reg) && cfg.Ok()
  {
    match e
    case Client(l) => w.(client := R.Step(w.client, l))
    case Served(l, wall) =>
      var rpc := RpcOf(w.client, l);
      World(Replied(w.client, l, ReplyFor(Call(w.reg.reg, ins, rpc, w.reg.clock, wall).1)),
            G.Step(w.reg, Request(ins, rpc, wall), cfg))
    case Other(r) => w.(reg := G.Step(w.reg, r, cfg))
  }

  lemma {:induction false} StepKeepsInv(w: World, e: Event, ins: Instance, cfg: S.Config)
    requires G.Inv(w.reg) && cfg.Ok() && Enabled(w, e)
    ensures G.Inv(Step(w, e, ins, cfg).reg)
  {
    hide S.Ok, G.PollersOk, G.RenewedBy, G.LoopOk, G.Step, R.Step;
    match e {
      case Client(_) =>
      case Served(l, wall) => G.StepKeepsInv(w.reg, Request(ins, RpcOf(w.client, l), wall), cfg);
      case Other(r) => G.StepKeepsInv(w.reg, r, cfg);
    }
  }

  ghost predicate Reaches(w: World, es: seq<Event>, w': World, ins: Instance, cfg: S.Config)
    requires G.Inv(w.reg) && cfg.Ok()
    decreases |es|
  {
    if es == [] then w' == w
    else
      && Enabled(w, es[0])
      && (StepKeepsInv(w, es[0], ins, cfg); Reaches(Step(w, es[0], ins, cfg), es[1..], w', ins, cfg))
  }

  /** The model agrees with the client on everything but the server side, of which it keeps its own account. */
  predicate SameClient(s: R.Sys, c: R.Sys) {
    s.order == c.order && s.valid == c.valid && s.loop == c.loop && s.dereg == c.dereg && s.late == c.late
  }

  // ---------------------------------------------------------------- one step

  lemma {:induction false} ClientMoves(s: R.Sys, c: R.Sys, l: R.Label)
    requires SameClient(s, c) && R.Enabled(c, l) && !IsServe(l) && !l.OthersRegister? && !l.OthersRemove?
    ensures R.Enabled(s, l) && SameClient(R.Step(s, l), R.Step(c, l))
    ensures R.Step(s, l).owner == s.owner && R.Step(s, l).valid == s.valid
  {}

  lemma {:induction false} RequestServed(s: R.Sys, c: R.Sys, l: R.Label, reg: G.Sys, ins: Instance, wall: int,
                                         cfg: S.Config)
    requires SameClient(s, c) && R.Enabled(c, l) && IsServe(l) && Stands(s, reg.reg, ins)
    requires S.Ok(reg.reg) && cfg.Ok()
    ensures R.Enabled(s, l)
    ensures SameClient(R.Step(s, l),
                       Replied(c, l, ReplyFor(Call(reg.reg, ins, RpcOf(c, l), reg.clock, wall).1)))
    ensures Stands(R.Step(s, l), G.Step(reg, Request(ins, RpcOf(c, l), wall), cfg).reg, ins)
  {
    hide G.Step, Call, S.Ok, R.Step, R.ReplyTo, R.Effect, R.Enabled, Replied, RpcOf, S.Has, S.Complete;
    ServedInModel(s, c, l);
    ServedAlike(s, reg.reg, ins, RpcOf(c, l), reg.clock, wall);
    RequestIsCall(reg, ins, RpcOf(c, l), wall, cfg);
  }

  lemma {:induction false} ServedInModel(s: R.Sys, c: R.Sys, l: R.Label)
    requires SameClient(s, c) && R.Enabled(c, l) && IsServe(l)
    ensures R.Enabled(s, l) && SameClient(R.Step(s, l), Replied(c, l, R.ReplyTo(s, RpcOf(c, l))))
    ensures R.Step(s, l).owner == R.Effect(s, RpcOf(c, l)).owner
    ensures R.Step(s, l).valid == R.Effect(s, RpcOf(c, l)).valid
  {
    hide R.ReplyTo, R.LoopAfter, R.DeregAfter, R.Late, R.Received;
  }

  lemma {:induction false} RequestIsCall(reg: G.Sys, ins: Instance, rpc: R.Rpc, wall: int, cfg: S.Config)
    requires S.Ok(reg.reg) && cfg.Ok()
    ensures G.Step(reg, Request(ins, rpc, wall), cfg).reg == Call(reg.reg, ins, rpc, reg.clock, wall).0
  {
    hide S.Register, S.Renew, S.Cancel, S.Ok;
  }

  /** Somebody registers the very same instance. */
  predicate Registers(r: G.Label, ins: Instance) {
    r.RegisterCall? && S.Complete(r.ins) && r.ins.service == ins.service && r.ins.id == ins.id
  }

  /** What a step of the registry does to the instance: only a registration can bring it in. */
  lemma {:induction false} OnlyRegisteringAdds(g: G.Sys, r: G.Label, ins: Instance, cfg: S.Config)
    requires G.Inv(g) && cfg.Ok() && G.Enabled(g, r)
    ensures Registers(r, ins) ==> S.Has(G.Step(g, r, cfg).reg, ins.service, ins.id)
    ensures !Registers(r, ins) && S.Has(G.Step(g, r, cfg).reg, ins.service, ins.id) ==>
              S.Has(g.reg, ins.service, ins.id)
  {
    hide S.Ok, G.PollersOk, G.RenewedBy, G.LoopOk, S.Register, S.Renew, S.Cancel, S.Sweep, S.Evaluate, S.Release;
    hide S.Touch, S.Wait;
    var name, id := ins.service, ins.id;
    match r {
      case RegisterCall(other, wall) => L.RegisterTouchesOne(g.reg, other, g.clock, wall, name, id);
      case RenewCall(n, i) => L.RenewTouchesOne(g.reg, n, i, g.clock, name, id);
      case CancelCall(n, i, wall) => L.CancelTouchesOne(g.reg, n, i, wall, name, id);
      case PollLock(p) => L.PollTouchesNone(g.reg, g.pollers[p].name, name, id);
      case LeaveLock(p) => L.PollTouchesNone(g.reg, g.pollers[p].name, name, id);
      case SweepLock(walls) => SweepAddsNone(g.reg, cfg, g.loop.protected, g.loop.now, walls, name, id);
      case EvaluateLock => L.EvaluateTouchesNone(g.reg, g.loop.count, cfg, name, id);
      case _ =>
    }
  }

  lemma {:induction false} SweepAddsNone(s: S.State, cfg: S.Config, protected: bool, now: int, wall: string -> int,
                                         name: string, id: string)
    ensures S.Has(S.Sweep(s, cfg, protected, now, wall), name, id) ==> S.Has(s, name, id)
  {
    hide S.Expired;
  }

  /** The model's account of what others do to the instance. */
  ghost function ByOthers(g: G.Sys, r: G.Label, ins: Instance, cfg: S.Config): seq<R.Label>
    requires G.Inv(g) && cfg.Ok() && G.Enabled(g, r)
  {
    if Registers(r, ins) then [R.OthersRegister]
    else if S.Has(g.reg, ins.service, ins.id) && !S.Has(G.Step(g, r, cfg).reg, ins.service, ins.id)
    then [R.OthersRemove]
    else []
  }

  lemma {:induction false} OthersAct(s: R.Sys, g: G.Sys, r: G.Label, ins: Instance, cfg: S.Config) returns (s': R.Sys)
    requires Stands(s, g.reg, ins) && G.Inv(g) && cfg.Ok() && G.Enabled(g, r)
    ensures R.Reaches(s, ByOthers(g, r, ins, cfg), s') && SameClient(s', s)
    ensures Stands(s', G.Step(g, r, cfg).reg, ins)
  {
    OnlyRegisteringAdds(g, r, ins, cfg);
    hide G.Inv, G.Step, S.Has, S.Complete, Registers, R.Reaches;
    OwnerChanges(s);
    var ls := ByOthers(g, r, ins, cfg);
    s' := if ls == [R.OthersRegister] then s.(owner := R.Others)
          else if ls == [] then s else s.(owner := R.Absent);
  }

  lemma {:induction false} OwnerChanges(s: R.Sys)
    ensures R.Reaches(s, [], s)
    ensures R.Reaches(s, [R.OthersRegister], s.(owner := R.Others))
    ensures R.Reaches(s, [R.OthersRemove], s.(owner := R.Absent))
  {
    assert R.Step(s, R.OthersRegister) == s.(owner := R.Others);
    assert R.Step(s, R.OthersRemove) == s.(owner := R.Absent);
    hide R.Step;
    assert [R.OthersRegister][1..] == [] && [R.OthersRemove][1..] == [];
  }

  // ---------------------------------------------------------------- any run

  /** No call of the client is given up while the registry may still process it. */
  ghost predicate NoneAbandoned(es: seq<Event>) {
    forall i | 0 <= i < |es| :: es[i] != Client(R.LoopCall(R.Abandon)) && es[i] != Client(R.DeregCall(R.Abandon))
  }

  /** Nobody else registers the instance. */
  ghost predicate NoneElse(es: seq<Event>, ins: Instance) {
    forall i | 0 <= i < |es| && es[i].Other? :: !Registers(es[i].r, ins)
  }

  ghost predicate NoOthers(ls: seq<R.Label>) {
    forall i | 0 <= i < |ls| :: !ls[i].OthersRegister?
  }

  lemma {:induction false} StepIsRun(s: R.Sys, w: World, e: Event, ins: Instance, cfg: S.Config)
    returns (ls: seq<R.Label>, s': R.Sys)
    requires SameClient(s, w.client) && Stands(s, w.reg.reg, ins) && G.Inv(w.reg) && cfg.Ok() && Enabled(w, e)
    ensures R.Reaches(s, ls, s')
    ensures SameClient(s', Step(w, e, ins, cfg).client) && Stands(s', Step(w, e, ins, cfg).reg.reg, ins)
    ensures NoneAbandoned([e]) ==> R.NoneAbandoned(ls)
    ensures NoneElse([e], ins) ==> NoOthers(ls)
  {
    hide R.Step, G.Step, S.Ok, G.PollersOk, G.RenewedBy, G.LoopOk, R.Enabled, G.Enabled, RpcOf, Replied;
    match e {
      case Client(l) =>
        ClientMoves(s, w.client, l);
        ls, s' := [l], R.Step(s, l);
        assert ls[1..] == [] && [e][0] == e;
      case Served(l, wall) =>
        RequestServed(s, w.client, l, w.reg, ins, wall, cfg);
        ls, s' := [l], R.Step(s, l);
        assert ls[1..] == [];
      case Other(r) =>
        ls := ByOthers(w.reg, r, ins, cfg);
        s' := OthersAct(s, w.reg, r, ins, cfg);
        assert [e][0] == e;
    }
  }

  lemma {:induction false} Joined(s: R.Sys, ls: seq<R.Label>, mid: R.Sys, ls': seq<R.Label>, s': R.Sys)
    requires R.Reaches(s, ls, mid) && R.Reaches(mid, ls', s')
    ensures R.Reaches(s, ls + ls', s')
    decreases |ls|
  {
    hide R.Step, R.Enabled;
    if ls == [] {
      assert ls + ls' == ls';
    } else {
      Joined(R.Step(s, ls[0]), ls[1..], mid, ls', s');
      assert (ls + ls')[1..] == ls[1..] + ls';
    }
  }

  /** Every run of a registration against the registry is a run of the registration model. */
  lemma {:induction false} RunIsRun(s: R.Sys, w: World, es: seq<Event>, w': World, ins: Instance, cfg: S.Config)
    returns (ls: seq<R.Label>, s': R.Sys)
    requires SameClient(s, w.client) && Stands(s, w.reg.reg, ins) && G.Inv(w.reg) && cfg.Ok()
    requires Reaches(w, es, w', ins, cfg)
    ensures R.Reaches(s, ls, s') && SameClient(s', w'.client) && Stands(s', w'.reg.reg, ins)
    ensures NoneAbandoned(es) ==> R.NoneAbandoned(ls)
    ensures NoneElse(es, ins) ==> NoOthers(ls)
    decreases |es|
  {
    hide Step, Enabled, S.Ok, G.PollersOk, G.RenewedBy, G.LoopOk, Stands, SameClient;
    if es == [] {
      return [], s;
    }
    StepKeepsInv(w, es[0], ins, cfg);
    var ls1, mid := StepIsRun(s, w, es[0], ins, cfg);
    var ls2;
    ls2, s' := RunIsRun(mid, Step(w, es[0], ins, cfg), es[1..], w', ins, cfg);
    Joined(s, ls1, mid, ls2, s');
    ls := ls1 + ls2;
    Tails(es, ins);
  }

  lemma {:induction false} Tails(es: seq<Event>, ins: Instance)
    requires es != []
    ensures NoneAbandoned(es) ==> NoneAbandoned([es[0]]) && NoneAbandoned(es[1..])
    ensures NoneElse(es, ins) ==> NoneElse([es[0]], ins) && NoneElse(es[1..], ins)
  {
    assert forall i | 0 <= i < |es| - 1 :: es[1..][i] == es[i + 1];
  }

  // ---------------------------------------------------------------- the registry after Deregister

  /** No call of ours is late, nobody else registered us, and a processed cancel has taken us out. */
  ghost predicate Tidy(s: R.Sys) {
    R.Inv(s) && s.late == multiset{} && !s.owner.Others? && (s.cancelled ==> s.owner.Absent?)
  }

  lemma {:induction false} StepKeepsTidy(s: R.Sys, l: R.Label)
    requires Tidy(s) && R.Enabled(s, l)
    requires l != R.LoopCall(R.Abandon) && l != R.DeregCall(R.Abandon) && !l.OthersRegister?
    ensures Tidy(R.Step(s, l))
  {
    R.StepKeepsInv(s, l);
  }

  lemma {:induction false} RunKeepsTidy(s: R.Sys, ls: seq<R.Label>, s': R.Sys)
    requires Tidy(s) && R.Reaches(s, ls, s') && R.NoneAbandoned(ls) && NoOthers(ls)
    ensures Tidy(s')
    decreases |ls|
  {
    hide R.Step, R.Enabled, Tidy;
    if ls != [] {
      StepKeepsTidy(s, ls[0]);
      assert forall i | 0 <= i < |ls| - 1 :: ls[1..][i] == ls[i + 1];
      RunKeepsTidy(R.Step(s, ls[0]), ls[1..], s');
    }
  }

  /** Once Deregister has returned success or not-found, the instance is not on the registry: whatever else the
      registry served meanwhile, however often it swept or restarted, and whatever became of the heartbeats, as
      long as nobody else registers the instance and no call takes effect after its caller gave up on it. */
  lemma {:induction false} DeregisteredIsGone(reg: G.Sys, es: seq<Event>, w': World, ins: Instance, cfg: S.Config)
    requires G.Inv(reg) && cfg.Ok() && !S.Has(reg.reg, ins.service, ins.id)
    requires Reaches(World(R.Start(R.StopThenCancel, S.Complete(ins), R.Absent), reg), es, w', ins, cfg)
    requires NoneAbandoned(es) && NoneElse(es, ins)
    requires w'.client.dereg.Finished? && (w'.client.dereg.reply.Ok? || w'.client.dereg.reply.NotFound?)
    ensures !S.Has(w'.reg.reg, ins.service, ins.id)
  {
    hide Reaches, R.Reaches, G.Inv, S.Has, S.Complete;
    var start := R.Start(R.StopThenCancel, S.Complete(ins), R.Absent);
    R.StartInv(S.Complete(ins), R.Absent);
    var ls, s' := RunIsRun(start, World(start, reg), es, w', ins, cfg);
    RunKeepsTidy(start, ls, s');
  }

  lemma {:induction false} OneMoreStep(w: World, es: seq<Event>, mid: World, e: Event, ins: Instance, cfg: S.Config)
    requires G.Inv(w.reg) && cfg.Ok() && Reaches(w, es, mid, ins, cfg) && G.Inv(mid.reg) && Enabled(mid, e)
    ensures G.Inv(Step(mid, e, ins, cfg).reg) && Reaches(w, es + [e], Step(mid, e, ins, cfg), ins, cfg)
    decreases |es|
  {
    hide S.Ok, G.PollersOk, G.RenewedBy, G.LoopOk, Step, Enabled;
    StepKeepsInv(mid, e, ins, cfg);
    if es == [] {
      assert [e][1..] == [] && [] + [e] == [e];
      assert Reaches(Step(mid, e, ins, cfg), [], Step(mid, e, ins, cfg), ins, cfg);
    } else {
      StepKeepsInv(w, es[0], ins, cfg);
      OneMoreStep(Step(w, es[0], ins, cfg), es[1..], mid, e, ins, cfg);
      assert (es + [e])[1..] == es[1..] + [e];
    }
  }

  /** Into service: the first call is served and answered, the instance is there and the heartbeat has begun. */
  lemma {:induction false} ComesUp(reg: G.Sys, ins: Instance, wall: int, cfg: S.Config)
    returns (es: seq<Event>, w: World)
    requires G.Inv(reg) && cfg.Ok() && S.Complete(ins)
    ensures G.Inv(w.reg) && Reaches(World(R.Start(R.StopThenCancel, true, R.Absent), reg), es, w, ins, cfg)
    ensures NoneAbandoned(es) && NoneElse(es, ins)
    ensures S.Has(w.reg.reg, ins.service, ins.id)
    ensures w.client == R.Start(R.StopThenCancel, true, R.Absent).(loop := R.Ticking)
  {
    hide G.Inv, Reaches, G.Step, S.Register;
    var w0 := World(R.Start(R.StopThenCancel, true, R.Absent), reg);
    assert Reaches(w0, [], w0, ins, cfg) by { NoEvents(w0, ins, cfg); }
    assert S.Ok(reg.reg) by { InvOk(reg); }
    RegisterLands(reg, ins, wall, cfg);
    OneMoreStep(w0, [], w0, Served(R.LoopCall(R.Serve), wall), ins, cfg);
    var w1 := Step(w0, Served(R.LoopCall(R.Serve), wall), ins, cfg);
    es := [] + [Served(R.LoopCall(R.Serve), wall)];
    assert S.Ok(w1.reg.reg) by { InvOk(w1.reg); }
    OneMoreStep(w0, es, w1, Client(R.LoopCall(R.Answer)), ins, cfg);
    w := Step(w1, Client(R.LoopCall(R.Answer)), ins, cfg);
    es := es + [Client(R.LoopCall(R.Answer))];
  }

  lemma {:induction false} NoEvents(w: World, ins: Instance, cfg: S.Config)
    requires G.Inv(w.reg) && cfg.Ok()
    ensures Reaches(w, [], w, ins, cfg)
  {}

  lemma {:induction false} InvOk(g: G.Sys)
    requires G.Inv(g)
    ensures S.Ok(g.reg)
  {}

  lemma {:induction false} RegisterLands(g: G.Sys, ins: Instance, wall: int, cfg: S.Config)
    requires S.Ok(g.reg) && cfg.Ok() && S.Complete(ins)
    ensures S.Register(g.reg, ins, g.clock, wall).1 == S.Done
    ensures S.Has(G.Step(g, G.RegisterCall(ins, wall), cfg).reg, ins.service, ins.id)
  {
    hide S.Ok;
  }

  lemma {:induction false} CancelLands(g: G.Sys, ins: Instance, wall: int, cfg: S.Config)
    requires S.Ok(g.reg) && cfg.Ok() && S.Has(g.reg, ins.service, ins.id)
    ensures S.Cancel(g.reg, ins.service, ins.id, wall).1 == S.Done
    ensures !S.Has(G.Step(g, G.CancelCall(ins.service, ins.id, wall), cfg).reg, ins.service, ins.id)
  {
    hide S.Ok;
  }

  /** Up to the sending of the cancel: the heartbeat stops first. */
  lemma {:induction false} StopsBeating(w0: World, es0: seq<Event>, w: World, ins: Instance, cfg: S.Config)
    returns (es: seq<Event>, w': World)
    requires G.Inv(w0.reg) && cfg.Ok() && Reaches(w0, es0, w, ins, cfg) && G.Inv(w.reg)
    requires NoneAbandoned(es0) && NoneElse(es0, ins)
    requires w.client.order.StopThenCancel? && w.client.loop.Ticking? && w.client.dereg.NotYet?
    ensures G.Inv(w'.reg) && Reaches(w0, es, w', ins, cfg) && NoneAbandoned(es) && NoneElse(es, ins)
    ensures w' == World(w.client.(loop := R.Exited, dereg := R.Cancelling(R.Sent(R.CancelRpc))), w.reg)
  {
    hide G.Inv, Reaches, G.Step;
    assert S.Ok(w.reg.reg) by { InvOk(w.reg); }
    OneMoreStep(w0, es0, w, Client(R.CallDeregister), ins, cfg);
    var w1 := Step(w, Client(R.CallDeregister), ins, cfg);
    OneMoreStep(w0, es0 + [Client(R.CallDeregister)], w1, Client(R.SeeStop), ins, cfg);
    var w2 := Step(w1, Client(R.SeeStop), ins, cfg);
    OneMoreStep(w0, es0 + [Client(R.CallDeregister)] + [Client(R.SeeStop)], w2, Client(R.SeeDone), ins, cfg);
    w' := Step(w2, Client(R.SeeDone), ins, cfg);
    es := es0 + [Client(R.CallDeregister)] + [Client(R.SeeStop)] + [Client(R.SeeDone)];
  }

  /** A whole life, at a registry in any state: registered and there, then deregistered with success and gone. */
  lemma {:induction false} LifeOfInstance(reg: G.Sys, ins: Instance, wall: int, wall': int, cfg: S.Config)
    returns (es: seq<Event>, es': seq<Event>, up: World, down: World)
    requires G.Inv(reg) && cfg.Ok() && S.Complete(ins)
    ensures Reaches(World(R.Start(R.StopThenCancel, true, R.Absent), reg), es, up, ins, cfg)
    ensures up.client.loop.Ticking? && S.Has(up.reg.reg, ins.service, ins.id)
    ensures Reaches(World(R.Start(R.StopThenCancel, true, R.Absent), reg), es', down, ins, cfg)
    ensures NoneAbandoned(es') && NoneElse(es', ins)
    ensures down.client.dereg == R.Finished(R.Reply.Ok) && !S.Has(down.reg.reg, ins.service, ins.id)
  {
    hide G.Inv, Reaches, G.Step, S.Cancel, S.Has, S.Complete;
    var w0 := World(R.Start(R.StopThenCancel, true, R.Absent), reg);
    es, up := ComesUp(reg, ins, wall, cfg);
    var es1, w1 := StopsBeating(w0, es, up, ins, cfg);
    assert S.Ok(w1.reg.reg) by { InvOk(w1.reg); }
    CancelLands(w1.reg, ins, wall', cfg);
    OneMoreStep(w0, es1, w1, Served(R.DeregCall(R.Serve), wall'), ins, cfg);
    var w2 := Step(w1, Served(R.DeregCall(R.Serve), wall'), ins, cfg);
    es' := es1 + [Served(R.DeregCall(R.Serve), wall')];
    assert S.Ok(w2.reg.reg) by { InvOk(w2.reg); }
    OneMoreStep(w0, es', w2, Client(R.DeregCall(R.Answer)), ins, cfg);
    down := Step(w2, Client(R.DeregCall(R.Answer)), ins, cfg);
    es' := es' + [Client(R.DeregCall(R.Answer))];
  }
}
