/** A registration's heartbeats and its shutdown, against a registry that others use too. One RPC is a
    request the registry processes at some point, or never, and an answer that may get lost. */
module Registration {

  datatype Reply = Ok | NotFound | BadRequest | Failed

  datatype Rpc = RegisterRpc | RenewRpc | CancelRpc

  /** A call in progress: not yet processed, or processed with the answer on its way back. */
  datatype Call = Sent(rpc: Rpc) | Processed(rpc: Rpc, reply: Reply)

  /** The caller of `Register` and then the heartbeat goroutine. */
  datatype Loop =
    | First(call: Call)
    | Refused
    | Retrying
    | Ticking
    | Beating(call: Call, registered: bool)
    | Exited

  /** The caller of `Deregister`. `StoppingLast` occurs only in the reversed order. */
  datatype Dereg =
    | NotYet
    | Stopping
    | Cancelling(call: Call)
    | StoppingLast(reply: Reply)
    | Finished(reply: Reply)

  /** Who put the instance on the registry, if it is there. */
  datatype Owner = Absent | Mine | Others

  /** The order of the source, and the one it warns against. */
  datatype Order = StopThenCancel | CancelThenStop

  /** `valid`: the instance has the fields that the registry demands. `late`: requests whose caller gave
      up on them while the registry may still process them. `cancelled`: a cancel has been processed. */
  datatype Sys = Sys(order: Order, valid: bool, loop: Loop, dereg: Dereg, owner: Owner, late: multiset<Rpc>,
                     cancelled: bool)

  datatype Fate =
    | Serve                // the registry processes the request
    | Answer               // its answer arrives
    | LoseAnswer           // its answer does not
    | LoseRequest          // the request never arrives
    | Abandon              // the caller times out, the request is still under way

  datatype Label =
    | LoopCall(fate: Fate)
    | DeregCall(fate: Fate)
    | TimerFires
    | SeeStop
    | CallDeregister
    | SeeDone
    | ServeLate(rpc: Rpc)
    | OthersRegister
    | OthersRemove         // cancel by others, eviction, registry restart

  function Start(order: Order, valid: bool, owner: Owner): Sys {
    Sys(order, valid, First(Sent(RegisterRpc)), NotYet, owner, multiset{}, false)
  }

  // ---------------------------------------------------------------- the registry's side

  function ReplyTo(s: Sys, rpc: Rpc): Reply {
    match rpc
    case RegisterRpc => if s.valid then Ok else BadRequest
    case _ => if s.owner.Absent? then NotFound else Ok
  }

  function Effect(s: Sys, rpc: Rpc): Sys {
    match rpc
    case RegisterRpc => if s.valid then s.(owner := Mine) else s
    case RenewRpc => s
    case CancelRpc => s.(owner := Absent, cancelled := true)
  }

  // ---------------------------------------------------------------- the client's side

  predicate StopClosed(s: Sys) {
    if s.order.StopThenCancel? then !s.dereg.NotYet? else s.dereg.StoppingLast? || s.dereg.Finished?
  }

  /** What the loop does when its call returns. */
  function LoopAfter(loop: Loop, reply: Reply): Loop
    requires loop.First? || loop.Beating?
  {
    match loop
    case First(_) => if reply.Ok? then Ticking else if reply.BadRequest? then Refused else Retrying
    case Beating(call, registered) =>
      if call.rpc.RenewRpc? && reply.NotFound? then Beating(Sent(RegisterRpc), registered)
      else if registered || reply.Ok? then Ticking
      else Retrying
  }

  function DeregAfter(s: Sys, reply: Reply): Dereg {
    if s.order.StopThenCancel? then Finished(reply) else StoppingLast(reply)
  }

  predicate CallAllows(call: Call, fate: Fate) {
    match fate
    case Serve => call.Sent?
    case Answer => call.Processed?
    case LoseAnswer => call.Processed?
    case LoseRequest => call.Sent?
    case Abandon => call.Sent?
  }

  predicate Enabled(s: Sys, l: Label) {
    match l
    case LoopCall(fate) => (s.loop.First? || s.loop.Beating?) && CallAllows(s.loop.call, fate)
    case DeregCall(fate) => s.dereg.Cancelling? && CallAllows(s.dereg.call, fate)
    case TimerFires => s.loop.Retrying? || s.loop.Ticking?
    case SeeStop => (s.loop.Retrying? || s.loop.Ticking?) && StopClosed(s)
    case CallDeregister => !s.loop.First? && !s.loop.Refused? && (s.dereg.NotYet? || s.dereg.Finished?)
    case SeeDone => s.loop.Exited? && (s.dereg.Stopping? || s.dereg.StoppingLast?)
    case ServeLate(rpc) => rpc in s.late
    case OthersRegister => true
    case OthersRemove => true
  }

  function Received(call: Call, fate: Fate): Reply {
    if fate.Answer? && call.Processed? then call.reply else Failed
  }

  function Late(s: Sys, rpc: Rpc, fate: Fate): multiset<Rpc> {
    if fate.Abandon? then s.late + multiset{rpc} else s.late
  }

  /** `select` may take any ready case, so the timer may win even when `stop` is closed. A second
      `Deregister` finds `stop` and `done` closed and sends another cancel. */
  function Step(s: Sys, l: Label): Sys
    requires Enabled(s, l)
  {
    match l
    case LoopCall(fate) =>
      var call := s.loop.call;
      if fate.Serve? then Effect(s, call.rpc).(loop := s.loop.(call := Processed(call.rpc, ReplyTo(s, call.rpc))))
      else s.(loop := LoopAfter(s.loop, Received(call, fate)), late := Late(s, call.rpc, fate))
    case DeregCall(fate) =>
      var call := s.dereg.call;
      if fate.Serve? then Effect(s, call.rpc).(dereg := Cancelling(Processed(call.rpc, ReplyTo(s, call.rpc))))
      else s.(dereg := DeregAfter(s, Received(call, fate)), late := Late(s, call.rpc, fate))
    case TimerFires => s.(loop := Beating(Sent(RenewRpc), s.loop.Ticking?))
    case SeeStop => s.(loop := Exited)
    case CallDeregister =>
      s.(dereg := if s.order.StopThenCancel? && s.dereg.NotYet? then Stopping else Cancelling(Sent(CancelRpc)))
    case SeeDone => s.(dereg := if s.dereg.Stopping? then Cancelling(Sent(CancelRpc)) else Finished(s.dereg.reply))
    case ServeLate(rpc) => Effect(s, rpc).(late := s.late - multiset{rpc})
    case OthersRegister => s.(owner := Others)
    case OthersRemove => s.(owner := Absent)
  }

  // ---------------------------------------------------------------- the order of the source

  /** Deregister's cancel has been sent. */
  predicate CancelSent(s: Sys) {
    s.dereg.Cancelling? || s.dereg.Finished?
  }

  ghost predicate Inv(s: Sys) {
    && s.order.StopThenCancel?
    && !s.dereg.StoppingLast?
    && (CancelSent(s) ==> s.loop.Exited?)
    && (s.loop.Exited? ==> !s.dereg.NotYet?)
    && (s.loop.First? || s.loop.Refused? ==> s.dereg.NotYet?)
    && (s.loop.First? ==> s.loop.call.rpc.RegisterRpc?)
    && (s.loop.Beating? ==> !s.loop.call.rpc.CancelRpc?)
    && (s.dereg.Cancelling? ==> s.dereg.call.rpc.CancelRpc?)
    && (s.loop.First? && s.loop.call.Processed? && s.loop.call.reply.BadRequest? ==> !s.valid)
    && (s.loop.Refused? ==> !s.valid)
    && (CancelRpc in s.late ==> CancelSent(s))
    && (s.dereg.Cancelling? && s.dereg.call.Processed? ==>
          s.cancelled && (s.dereg.call.reply.Ok? || s.dereg.call.reply.NotFound?))
    && (s.dereg.Finished? && !s.dereg.reply.Failed? ==> s.cancelled)
    && (s.cancelled ==> CancelSent(s))
  }

  lemma {:induction false} StartInv(valid: bool, owner: Owner)
    ensures Inv(Start(StopThenCancel, valid, owner))
  {}

  lemma {:induction false} StepKeepsInv(s: Sys, l: Label)
    requires Inv(s) && Enabled(s, l)
    ensures Inv(Step(s, l))
  {
    hide Inv, Step;
    if l.LoopCall? {
      LoopCallKeepsInv(s, l.fate);
    } else if l.DeregCall? {
      DeregCallKeepsInv(s, l.fate);
    } else if l.ServeLate? {
      ServeLateKeepsInv(s, l.rpc);
    } else {
      LocalStepKeepsInv(s, l);
    }
  }

  lemma {:induction false} LocalStepKeepsInv(s: Sys, l: Label)
    requires Inv(s) && Enabled(s, l) && !l.LoopCall? && !l.DeregCall? && !l.ServeLate?
    ensures Inv(Step(s, l))
  {
    hide LoopAfter, DeregAfter, ReplyTo, Effect, Late, Received;
  }

  lemma {:induction false} ServeLateKeepsInv(s: Sys, rpc: Rpc)
    requires Inv(s) && Enabled(s, ServeLate(rpc))
    ensures Inv(Step(s, ServeLate(rpc)))
  {
    hide LoopAfter, DeregAfter, ReplyTo, Late, Received;
    var late := s.late - multiset{rpc};
    assert CancelRpc in late ==> CancelRpc in s.late;
  }

  lemma {:induction false} LoopCallKeepsInv(s: Sys, fate: Fate)
    requires Inv(s) && Enabled(s, LoopCall(fate))
    ensures Inv(Step(s, LoopCall(fate)))
  {}

  lemma {:induction false} DeregCallKeepsInv(s: Sys, fate: Fate)
    requires Inv(s) && Enabled(s, DeregCall(fate))
    ensures Inv(Step(s, DeregCall(fate)))
  {}

  ghost predicate Reaches(s: Sys, ls: seq<Label>, s': Sys)
    decreases |ls|
  {
    if ls == [] then s' == s else Enabled(s, ls[0]) && Reaches(Step(s, ls[0]), ls[1..], s')
  }

  lemma {:induction false} RunKeepsInv(s: Sys, ls: seq<Label>, s': Sys)
    requires Inv(s) && Reaches(s, ls, s')
    ensures Inv(s')
    decreases |ls|
  {
    hide Inv, Step, Enabled;
    if ls != [] {
      StepKeepsInv(s, ls[0]);
      RunKeepsInv(Step(s, ls[0]), ls[1..], s');
    }
  }

  /** Step `l` makes a register or a renew of this registration take effect at the registry. */
  predicate HeartbeatServed(s: Sys, l: Label) {
    || (l == LoopCall(Serve) && (s.loop.First? || s.loop.Beating?))
    || (l.ServeLate? && !l.rpc.CancelRpc?)
  }

  /** No call is given up while the registry may still process it. */
  ghost predicate NoneAbandoned(ls: seq<Label>) {
    forall i | 0 <= i < |ls| :: ls[i] != LoopCall(Abandon) && ls[i] != DeregCall(Abandon)
  }

  lemma {:induction false} NothingLate(s: Sys, ls: seq<Label>, s': Sys)
    requires Reaches(s, ls, s') && NoneAbandoned(ls) && s.late == multiset{}
    ensures s'.late == multiset{}
    decreases |ls|
  {
    if ls != [] {
      assert NoneAbandoned(ls[1..]);
      NothingLate(Step(s, ls[0]), ls[1..], s');
    }
  }

  /** From the sending of the cancel on: nothing of ours is under way that could put us back. */
  ghost predicate Gone(s: Sys) {
    Inv(s) && CancelSent(s) && RegisterRpc !in s.late && (s.cancelled ==> !s.owner.Mine?)
  }

  lemma {:induction false} GoneStaysGone(s: Sys, ls: seq<Label>, s': Sys)
    requires Gone(s) && Reaches(s, ls, s')
    ensures Gone(s')
    decreases |ls|
  {
    hide Inv;
    if ls != [] {
      StepKeepsInv(s, ls[0]);
      StepKeepsGone(s, ls[0]);
      GoneStaysGone(Step(s, ls[0]), ls[1..], s');
    }
  }

  lemma {:induction false} StepKeepsGone(s: Sys, l: Label)
    requires Gone(s) && Enabled(s, l)
    ensures Gone(Step(s, l))
  {
    StepKeepsInv(s, l);
  }

  /** No resurrection. For every choice the selects make and every fate of every call, as long as calls
      have no effect after they return: once Deregister has sent its cancel, no register or renew of this
      registration takes effect any more; and once a cancel came back as done or as not found, the
      instance is on the registry only if somebody else put it there since. */
  lemma {:induction false} NoResurrection(valid: bool, owner: Owner, ls: seq<Label>, s: Sys, ls': seq<Label>, s': Sys,
                                          l: Label)
    requires Reaches(Start(StopThenCancel, valid, owner), ls, s) && NoneAbandoned(ls)
    requires s.dereg == Cancelling(Sent(CancelRpc)) && !s.cancelled
    requires Reaches(s, ls', s') && NoneAbandoned(ls') && Enabled(s', l)
    ensures !HeartbeatServed(s', l)
    ensures s'.dereg.Finished? && (s'.dereg.reply.Ok? || s'.dereg.reply.NotFound?) ==> !s'.owner.Mine?
  {
    hide Reaches, Step;
    StartInv(valid, owner);
    RunKeepsInv(Start(StopThenCancel, valid, owner), ls, s);
    NothingLate(Start(StopThenCancel, valid, owner), ls, s);
    NothingLate(s, ls', s');
    GoneStaysGone(s, ls', s');
  }

  /** Deregister's cancel came back as done or not found, and yet the instance is back by our own doing. */
  ghost predicate Resurrected(s: Sys) {
    s.dereg.Finished? && (s.dereg.reply.Ok? || s.dereg.reply.NotFound?) && s.owner.Mine?
  }

  ghost predicate CanResurrect(s: Sys) {
    exists ls, s' :: Reaches(s, ls, s') && Resurrected(s')
  }

  /** Without that assumption the exact condition is: at the moment the cancel is sent, no register call
      that was given up is still under way. */
  lemma {:induction false} ResurrectionIffLateRegister(s: Sys)
    requires Inv(s) && s.valid && s.dereg == Cancelling(Sent(CancelRpc)) && !s.cancelled
    ensures CanResurrect(s) <==> RegisterRpc in s.late
  {
    if RegisterRpc in s.late {
      var end := LateRegisterReturns(s);
    } else {
      assert Gone(s);
      forall ls, s' | Reaches(s, ls, s') ensures !Resurrected(s') {
        GoneStaysGone(s, ls, s');
      }
    }
  }

  lemma {:induction false} LateRegisterReturns(s: Sys) returns (end: Sys)
    requires s.order.StopThenCancel? && s.valid && s.dereg == Cancelling(Sent(CancelRpc)) && RegisterRpc in s.late
    ensures Resurrected(end) && CanResurrect(s)
  {
    var s1 := Step(s, DeregCall(Serve));
    var s2 := Step(s1, DeregCall(Answer));
    end := Step(s2, ServeLate(RegisterRpc));
    Chain(s, DeregCall(Serve), [DeregCall(Answer), ServeLate(RegisterRpc)]);
    Chain(s1, DeregCall(Answer), [ServeLate(RegisterRpc)]);
    Chain(s2, ServeLate(RegisterRpc), []);
    assert Reaches(s, [DeregCall(Serve)] + ([DeregCall(Answer), ServeLate(RegisterRpc)]), end);
  }

  lemma {:induction false} Chain(s: Sys, l: Label, ls: seq<Label>)
    requires Enabled(s, l)
    ensures forall s' :: Reaches(s, [l] + ls, s') <==> Reaches(Step(s, l), ls, s')
  {
    hide Enabled, Step;
    assert ([l] + ls)[1..] == ls;
  }

  /** A registration is refused, and no heartbeat started, only for an invalid instance: a registry that
      cannot be reached at first does not stop the heartbeat from registering later. */
  lemma {:induction false} RefusedOnlyIfInvalid(valid: bool, owner: Owner, ls: seq<Label>, s: Sys)
    requires Reaches(Start(StopThenCancel, valid, owner), ls, s) && s.loop.Refused?
    ensures !valid
  {
    hide Step, Enabled;
    StartInv(valid, owner);
    RunKeepsInv(Start(StopThenCancel, valid, owner), ls, s);
    SameInstance(Start(StopThenCancel, valid, owner), ls, s);
  }

  // ---------------------------------------------------------------- what the answers make the client do

  /** What the calls of the loop returned in a run, in order: the answers that arrived, `Failed` for the rest. */
  ghost function Returns(s: Sys, ls: seq<Label>): (h: seq<(Rpc, Reply)>)
    decreases |ls|
  {
    if ls == [] || !Enabled(s, ls[0]) then [] else ReturnOf(s, ls[0]) + Returns(Step(s, ls[0]), ls[1..])
  }

  ghost function ReturnOf(s: Sys, l: Label): seq<(Rpc, Reply)>
    requires Enabled(s, l)
  {
    match l
    case LoopCall(Answer) => [(s.loop.call.rpc, s.loop.call.reply)]
    case LoopCall(Serve) => []
    case LoopCall(_) => [(s.loop.call.rpc, Failed)]
    case _ => []
  }

  /** The last call was a renew that found no such instance. */
  ghost predicate EndsMissing(h: seq<(Rpc, Reply)>) {
    h != [] && h[|h|-1] == (RenewRpc, NotFound)
  }

  ghost predicate HasOk(h: seq<(Rpc, Reply)>) {
    exists i | 0 <= i < |h| :: h[i].1.Ok?
  }

  /** A register first and after each renew answered not found, and otherwise renews. */
  ghost predicate CallsInOrder(h: seq<(Rpc, Reply)>) {
    forall i | 0 <= i < |h| :: h[i].0 == if i == 0 || EndsMissing(h[..i]) then RegisterRpc else RenewRpc
  }

  /** How the answers so far decide where the loop is. */
  ghost predicate Follows(loop: Loop, h: seq<(Rpc, Reply)>) {
    && CallsInOrder(h)
    && (loop.First? <==> h == [])
    && (loop.Refused? <==> h != [] && h[0].1.BadRequest?)
    && (loop.First? ==> loop.call.rpc.RegisterRpc?)
    && (loop.Beating? ==> loop.call.rpc == if EndsMissing(h) then RegisterRpc else RenewRpc)
    && (EndsMissing(h) ==> loop.Beating?)
    && (loop.First? || loop.Refused? || loop.Retrying? || (loop.Beating? && !loop.registered) ==> !HasOk(h))
    && (loop.Ticking? || (loop.Beating? && loop.registered) ==> HasOk(h))
  }

  lemma {:induction false} OneMoreReturn(h: seq<(Rpc, Reply)>, x: (Rpc, Reply))
    requires CallsInOrder(h) && x.0 == if h == [] || EndsMissing(h) then RegisterRpc else RenewRpc
    ensures CallsInOrder(h + [x]) && (HasOk(h + [x]) <==> HasOk(h) || x.1.Ok?)
    ensures EndsMissing(h + [x]) <==> x == (RenewRpc, NotFound)
    ensures (h + [x])[0] == if h == [] then x else h[0]
  {
    var t := h + [x];
    assert t[..|h|] == h && t[|h|] == x;
    forall i | 0 <= i < |t| ensures t[i].0 == if i == 0 || EndsMissing(t[..i]) then RegisterRpc else RenewRpc {
      if i < |h| {
        assert t[..i] == h[..i];
      }
    }
    if HasOk(h) {
      var i :| 0 <= i < |h| && h[i].1.Ok?;
      assert t[i].1.Ok?;
    }
  }

  lemma {:induction false} ReturnFollows(loop: Loop, reply: Reply, h: seq<(Rpc, Reply)>)
    requires (loop.First? || loop.Beating?) && Follows(loop, h)
    ensures Follows(LoopAfter(loop, reply), h + [(loop.call.rpc, reply)])
  {
    OneMoreReturn(h, (loop.call.rpc, reply));
    assert h != [] ==> (h + [(loop.call.rpc, reply)])[0] == h[0];
    hide CallsInOrder, HasOk, EndsMissing;
  }

  lemma {:induction false} StepFollows(s: Sys, l: Label, h: seq<(Rpc, Reply)>)
    requires Enabled(s, l) && Follows(s.loop, h)
    ensures Follows(Step(s, l).loop, h + ReturnOf(s, l))
  {
    hide CallsInOrder, HasOk, EndsMissing, ReplyTo, DeregAfter, LoopAfter;
    if l.LoopCall? && !l.fate.Serve? {
      ReturnFollows(s.loop, Received(s.loop.call, l.fate), h);
      assert ReturnOf(s, l) == [(s.loop.call.rpc, Received(s.loop.call, l.fate))];
    } else {
      assert h + ReturnOf(s, l) == h;
      assert Follows(Step(s, l).loop, h);
    }
  }

  lemma {:induction false} RunFollows(s: Sys, ls: seq<Label>, s': Sys, h: seq<(Rpc, Reply)>)
    requires Reaches(s, ls, s') && Follows(s.loop, h)
    ensures Follows(s'.loop, h + Returns(s, ls))
    decreases |ls|
  {
    hide Step, Enabled, Follows, ReturnOf;
    if ls == [] {
      assert h + Returns(s, ls) == h;
    } else {
      StepFollows(s, ls[0], h);
      RunFollows(Step(s, ls[0]), ls[1..], s', h + ReturnOf(s, ls[0]));
      assert h + ReturnOf(s, ls[0]) + Returns(Step(s, ls[0]), ls[1..]) == h + Returns(s, ls);
    }
  }

  lemma {:induction false} StartFollows(order: Order, valid: bool, owner: Owner, ls: seq<Label>, s: Sys)
    requires Reaches(Start(order, valid, owner), ls, s)
    ensures Follows(s.loop, Returns(Start(order, valid, owner), ls))
  {
    hide Reaches, Returns;
    var start := Start(order, valid, owner);
    RunFollows(start, ls, s, []);
    assert [] + Returns(start, ls) == Returns(start, ls);
    hide Follows;
  }

  /** Over all runs, in either order: the answers alone decide what the client does. It is refused if and only if
      its first call was answered as a bad request. Otherwise it keeps beating, and it counts as registered if and
      only if some register or renew was answered Ok; it registers again exactly after a renew that was answered not
      found, and is not done with that beat before. */
  lemma {:induction false} AnswersDecide(order: Order, valid: bool, owner: Owner, ls: seq<Label>, s: Sys)
    returns (h: seq<(Rpc, Reply)>)
    requires Reaches(Start(order, valid, owner), ls, s)
    ensures h == Returns(Start(order, valid, owner), ls) && CallsInOrder(h)
    ensures s.loop.Refused? <==> h != [] && h[0].1.BadRequest?
    ensures s.loop.Ticking? || (s.loop.Beating? && s.loop.registered) ==> HasOk(h)
    ensures HasOk(h) ==> s.loop.Ticking? || (s.loop.Beating? && s.loop.registered) || s.loop.Exited?
    ensures EndsMissing(h) ==> s.loop.Beating? && s.loop.call.rpc.RegisterRpc?
  {
    hide Reaches, Returns, CallsInOrder, HasOk, EndsMissing;
    h := Returns(Start(order, valid, owner), ls);
    StartFollows(order, valid, owner, ls, s);
  }

  /** What the calls of `Deregister` returned in a run, in order. */
  ghost function DeregReturns(s: Sys, ls: seq<Label>): (h: seq<(Rpc, Reply)>)
    decreases |ls|
  {
    if ls == [] || !Enabled(s, ls[0]) then []
    else DeregReturnOf(s, ls[0]) + DeregReturns(Step(s, ls[0]), ls[1..])
  }

  ghost function DeregReturnOf(s: Sys, l: Label): seq<(Rpc, Reply)>
    requires Enabled(s, l)
  {
    match l
    case DeregCall(Answer) => [(s.dereg.call.rpc, s.dereg.call.reply)]
    case DeregCall(Serve) => []
    case DeregCall(_) => [(s.dereg.call.rpc, Failed)]
    case _ => []
  }

  /** Before the first return there is no result; afterwards it is the last one's, unless another cancel is out. */
  ghost predicate Reports(s: Sys, h: seq<(Rpc, Reply)>) {
    && (forall i | 0 <= i < |h| :: h[i].0.CancelRpc?)
    && (s.dereg.Cancelling? ==> s.dereg.call.rpc.CancelRpc?)
    && (s.dereg.NotYet? || s.dereg.Stopping? ==> h == [])
    && (s.dereg.Finished? || s.dereg.StoppingLast? ==> h != [] && s.dereg.reply == h[|h|-1].1)
  }

  lemma {:induction false} RunReports(s: Sys, ls: seq<Label>, s': Sys, h: seq<(Rpc, Reply)>)
    requires Reaches(s, ls, s') && Reports(s, h)
    ensures Reports(s', h + DeregReturns(s, ls))
    decreases |ls|
  {
    hide Step, Enabled, Reports, DeregReturnOf;
    if ls == [] {
      assert h + DeregReturns(s, ls) == h;
    } else {
      StepReports(s, ls[0], h);
      RunReports(Step(s, ls[0]), ls[1..], s', h + DeregReturnOf(s, ls[0]));
      assert h + DeregReturnOf(s, ls[0]) + DeregReturns(Step(s, ls[0]), ls[1..]) == h + DeregReturns(s, ls);
    }
  }

  lemma {:induction false} StepReports(s: Sys, l: Label, h: seq<(Rpc, Reply)>)
    requires Enabled(s, l) && Reports(s, h)
    ensures Reports(Step(s, l), h + DeregReturnOf(s, l))
  {
    hide LoopAfter, ReplyTo, StopClosed, Reports;
    if l.DeregCall? && !l.fate.Serve? {
      ReturnReports(s, l.fate, h);
    } else {
      assert h + DeregReturnOf(s, l) == h;
      OtherReports(s, l, h);
    }
  }

  lemma {:induction false} ReturnReports(s: Sys, fate: Fate, h: seq<(Rpc, Reply)>)
    requires Enabled(s, DeregCall(fate)) && !fate.Serve? && Reports(s, h)
    ensures Reports(Step(s, DeregCall(fate)), h + DeregReturnOf(s, DeregCall(fate)))
  {
    hide Late;
    assert DeregReturnOf(s, DeregCall(fate)) == [(s.dereg.call.rpc, Received(s.dereg.call, fate))];
  }

  lemma {:induction false} OtherReports(s: Sys, l: Label, h: seq<(Rpc, Reply)>)
    requires Enabled(s, l) && Reports(s, h) && (l.DeregCall? ==> l.fate.Serve?)
    ensures Reports(Step(s, l), h)
  {
    hide LoopAfter, ReplyTo, StopClosed, Late, Received;
  }

  /** Over all runs, in either order: `Deregister` returns what its own cancel returned, and makes no other call. In
      the order of the source its cancel is sent only when the heartbeat has ended. */
  lemma {:induction false} DeregisterReturnsAnswer(order: Order, valid: bool, owner: Owner, ls: seq<Label>, s: Sys)
    returns (h: seq<(Rpc, Reply)>)
    requires Reaches(Start(order, valid, owner), ls, s)
    ensures h == DeregReturns(Start(order, valid, owner), ls) && forall i | 0 <= i < |h| :: h[i].0.CancelRpc?
    ensures s.dereg.Finished? ==> h != [] && s.dereg.reply == h[|h|-1].1
    ensures s.dereg.NotYet? || s.dereg.Stopping? ==> h == []
    ensures order.StopThenCancel? && (s.dereg.Cancelling? || s.dereg.Finished?) ==> s.loop.Exited?
  {
    h := DeregReturns(Start(order, valid, owner), ls);
    hide Reaches, DeregReturns;
    RunReports(Start(order, valid, owner), ls, s, []);
    assert [] + h == h;
    if order.StopThenCancel? {
      StartInv(valid, owner);
      RunKeepsInv(Start(order, valid, owner), ls, s);
    }
  }

  lemma {:induction false} SameInstance(s: Sys, ls: seq<Label>, s': Sys)
    requires Reaches(s, ls, s')
    ensures s'.valid == s.valid
    decreases |ls|
  {
    if ls != [] {
      SameInstance(Step(s, ls[0]), ls[1..], s');
    }
  }

  // ---------------------------------------------------------------- two bad runs

  /** One more step of a run in which nothing was given up. */
  lemma {:induction false} Go(start: Sys, ls: seq<Label>, s: Sys, l: Label) returns (ls': seq<Label>)
    requires Reaches(start, ls, s) && NoneAbandoned(ls) && Enabled(s, l)
    requires l != LoopCall(Abandon) && l != DeregCall(Abandon)
    ensures Reaches(start, ls', Step(s, l)) && NoneAbandoned(ls')
  {
    ls' := ls + [l];
    Extend(start, ls, s, l);
  }

  lemma {:induction false} Extend(start: Sys, ls: seq<Label>, s: Sys, l: Label)
    requires Reaches(start, ls, s) && Enabled(s, l)
    ensures Reaches(start, ls + [l], Step(s, l))
    decreases |ls|
  {
    hide Step, Enabled;
    if ls == [] {
      Chain(start, l, []);
      assert ls + [l] == [l] + [];
    } else {
      Extend(Step(start, ls[0]), ls[1..], s, l);
      assert ls + [l] == [ls[0]] + (ls[1..] + [l]);
    }
  }

  /** The order of the source can get into that state, from the start: the first register call is given up
      while under way, Deregister stops the heartbeat and cancels, and then the register arrives. */
  lemma {:induction false} LateRegisterResurrects() returns (ls: seq<Label>, end: Sys)
    ensures Reaches(Start(StopThenCancel, true, Absent), ls, end) && Resurrected(end) && end.loop.Exited?
  {
    var start := Start(StopThenCancel, true, Absent);
    var late := multiset{RegisterRpc};
    ls := CancelledWhileLate();
    var s := Sys(StopThenCancel, true, Exited, Finished(NotFound), Absent, late, true);
    Extend(start, ls, s, ServeLate(RegisterRpc));
    ls, end := ls + [ServeLate(RegisterRpc)], Step(s, ServeLate(RegisterRpc));
  }

  lemma {:induction false} CancelledWhileLate() returns (ls: seq<Label>)
    ensures Reaches(Start(StopThenCancel, true, Absent), ls,
                    Sys(StopThenCancel, true, Exited, Finished(NotFound), Absent, multiset{RegisterRpc}, true))
  {
    hide Reaches;
    var start := Start(StopThenCancel, true, Absent);
    var late := multiset{RegisterRpc};
    Nothing(start);
    Extend(start, [], start, LoopCall(Abandon));
    ls := [] + [LoopCall(Abandon)];
    var s := start.(loop := Retrying, late := late);
    assert multiset{} + late == late;
    Extend(start, ls, s, CallDeregister);
    ls := ls + [CallDeregister];
    Extend(start, ls, s.(dereg := Stopping), SeeStop);
    ls := ls + [SeeStop];
    s := s.(loop := Exited, dereg := Stopping);
    Extend(start, ls, s, SeeDone);
    ls := ls + [SeeDone];
    Extend(start, ls, s.(dereg := Cancelling(Sent(CancelRpc))), DeregCall(Serve));
    ls := ls + [DeregCall(Serve)];
    Extend(start, ls, s.(dereg := Cancelling(Processed(CancelRpc, NotFound)), cancelled := true), DeregCall(Answer));
    ls := ls + [DeregCall(Answer)];
  }

  /** Cancelling first and stopping the heartbeat afterwards resurrects the instance without a single call
      lost or late: a heartbeat under way finds the instance gone and registers it again. */
  lemma {:induction false} ReversedOrderResurrects() returns (ls: seq<Label>, end: Sys)
    ensures Reaches(Start(CancelThenStop, true, Absent), ls, end) && NoneAbandoned(ls)
    ensures Resurrected(end) && end.loop.Exited?
  {
    ls := CancelledDuringBeat();
    var gone := Sys(CancelThenStop, true, Beating(Sent(RenewRpc), true), StoppingLast(Ok), Absent, multiset{}, true);
    ls, end := BeatReturns(Start(CancelThenStop, true, Absent), ls, gone);
  }

  lemma {:induction false} CancelledDuringBeat() returns (ls: seq<Label>)
    ensures NoneAbandoned(ls)
    ensures Reaches(Start(CancelThenStop, true, Absent), ls,
                    Sys(CancelThenStop, true, Beating(Sent(RenewRpc), true), StoppingLast(Ok), Absent, multiset{},
                        true))
  {
    hide Reaches;
    var s := Start(CancelThenStop, true, Absent);
    Nothing(s);
    ls := Go(s, [], s, LoopCall(Serve));
    ls := Go(s, ls, s.(loop := First(Processed(RegisterRpc, Ok)), owner := Mine), LoopCall(Answer));
    var up := s.(loop := Ticking, owner := Mine);
    ls := Go(s, ls, up, TimerFires);
    var beat := up.(loop := Beating(Sent(RenewRpc), true));
    ls := Go(s, ls, beat, CallDeregister);
    ls := Go(s, ls, beat.(dereg := Cancelling(Sent(CancelRpc))), DeregCall(Serve));
    ls := Go(s, ls, beat.(dereg := Cancelling(Processed(CancelRpc, Ok)), owner := Absent, cancelled := true),
             DeregCall(Answer));
  }

  lemma {:induction false} BeatReturns(start: Sys, ls0: seq<Label>, s: Sys) returns (ls: seq<Label>, end: Sys)
    requires Reaches(start, ls0, s) && NoneAbandoned(ls0) && s.valid
    requires s.order.CancelThenStop? && s.dereg == StoppingLast(Ok) && s.owner.Absent?
    requires s.loop == Beating(Sent(RenewRpc), true)
    ensures Reaches(start, ls, end) && NoneAbandoned(ls) && Resurrected(end) && end.loop.Exited?
  {
    hide Reaches;
    ls := Go(start, ls0, s, LoopCall(Serve));
    ls := Go(start, ls, s.(loop := Beating(Processed(RenewRpc, NotFound), true)), LoopCall(Answer));
    ls := Go(start, ls, s.(loop := Beating(Sent(RegisterRpc), true)), LoopCall(Serve));
    ls := Go(start, ls, s.(loop := Beating(Processed(RegisterRpc, Ok), true), owner := Mine), LoopCall(Answer));
    ls := Go(start, ls, s.(loop := Ticking, owner := Mine), SeeStop);
    ls := Go(start, ls, s.(loop := Exited, owner := Mine), SeeDone);
    end := s.(loop := Exited, owner := Mine, dereg := Finished(Ok));
  }

  lemma {:induction false} Nothing(s: Sys)
    ensures Reaches(s, [], s)
  {}
}
