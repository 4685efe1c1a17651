/** The heartbeat goroutine as the loop it is, over any sequence of rounds: it moves through exactly the
    stages that the interleaved model gives it, and these are its waits and its calls. */
module Heartbeat {
  import opened Backoff
  import opened Registration

  /** One turn of the select: the stop channel, or the timer and what the calls then return;
      `again` is the answer to the register call that only follows a renew answered not found. */
  datatype Turn = Stopped | Timer(renew: Reply, again: Reply)

  function AfterTurn(loop: Loop, turn: Turn): (r: Loop)
    requires loop.Retrying? || loop.Ticking?
    ensures r.Retrying? || r.Ticking? || r.Exited?
  {
    match turn
    case Stopped => Exited
    case Timer(renew, again) =>
      var first := LoopAfter(Beating(Sent(RenewRpc), loop.Ticking?), renew);
      if first.Beating? then LoopAfter(first, again) else first
  }

  function AfterTurns(loop: Loop, turns: seq<Turn>): (r: Loop)
    requires loop.Retrying? || loop.Ticking?
    ensures r.Retrying? || r.Ticking? || r.Exited?
  {
    if turns == [] then loop
    else
      var before := AfterTurns(loop, turns[..|turns|-1]);
      if before.Exited? then Exited else AfterTurn(before, turns[|turns|-1])
  }

  /** In this turn the registry confirmed that the instance is there. */
  predicate Confirmed(turn: Turn) {
    turn.Timer? && (turn.renew.Ok? || (turn.renew.NotFound? && turn.again.Ok?))
  }

  /** One heartbeat: a renew, and a register if and only if that was answered not found. The result says whether
      the instance is now certainly on the registry: one of the two was answered Ok. */
  method Beat(turn: Turn) returns (up: bool, calls: seq<Rpc>)
    requires turn.Timer?
    ensures calls == [RenewRpc] + if turn.renew.NotFound? then [RegisterRpc] else []
    ensures up <==> turn.renew.Ok? || (turn.renew.NotFound? && turn.again.Ok?)
    ensures up <==> AfterTurn(Retrying, turn).Ticking?
  {
    calls := [RenewRpc];
    if turn.renew.Ok? {
      up := true;
    } else if turn.renew.NotFound? {
      calls := calls + [RegisterRpc];
      up := turn.again.Ok?;
    } else {
      up := false;
    }
  }

  /** What the loop waits in turn k: growing delays until a turn has confirmed the instance, then the fixed
      interval, whatever later heartbeats return. */
  predicate Waited(delays: seq<int>, registered: bool, turns: seq<Turn>, base: int, cap: int, interval: int) {
    && |delays| <= |turns|
    && forall k | 0 <= k < |delays| ::
         delays[k] == if registered || SomeConfirmed(turns, k) then interval else Delay(base, cap, k)
  }

  predicate SomeConfirmed(turns: seq<Turn>, k: nat)
    requires k <= |turns|
  {
    exists i | 0 <= i < k :: Confirmed(turns[i])
  }

  lemma {:induction false} OneMoreConfirmed(turns: seq<Turn>, k: nat)
    requires k < |turns|
    ensures SomeConfirmed(turns, k + 1) <==> SomeConfirmed(turns, k) || Confirmed(turns[k])
  {}

  lemma {:induction false} OneMoreWait(delays: seq<int>, registered: bool, turns: seq<Turn>, base: int, cap: int,
                                       interval: int, d: int)
    requires Waited(delays, registered, turns, base, cap, interval) && |delays| < |turns|
    requires d == if registered || SomeConfirmed(turns, |delays|) then interval else Delay(base, cap, |delays|)
    ensures Waited(delays + [d], registered, turns, base, cap, interval)
  {
    hide Delay, SomeConfirmed;
  }

  /** What it sends in turn k. */
  predicate Called(calls: seq<seq<Rpc>>, turns: seq<Turn>) {
    && |calls| <= |turns|
    && forall k | 0 <= k < |calls| ::
         calls[k] == if turns[k].Stopped? then []
                     else if turns[k].renew.NotFound? then [RenewRpc, RegisterRpc]
                     else [RenewRpc]
  }

  lemma {:induction false} OneMoreCall(calls: seq<seq<Rpc>>, turns: seq<Turn>, c: seq<Rpc>)
    requires Called(calls, turns) && |calls| < |turns|
    requires c == if turns[|calls|].Stopped? then [] else if turns[|calls|].renew.NotFound? then [RenewRpc, RegisterRpc]
                  else [RenewRpc]
    ensures Called(calls + [c], turns)
  {}

  /** `n` is the number of turns taken until the loop was stopped or the given turns ran out; `delays` and `calls`
      have one item for each turn taken. */
  method HeartbeatLoop(registered: bool, turns: seq<Turn>, base: int, cap: int, interval: int)
    returns (stopped: bool, n: nat, delays: seq<int>, calls: seq<seq<Rpc>>)
    ensures n <= |turns| && forall i | 0 <= i < n - 1 :: turns[i].Timer?
    ensures if stopped then n > 0 && turns[n - 1].Stopped? else n == |turns| && (n > 0 ==> turns[n - 1].Timer?)
    ensures |delays| == n && Waited(delays, registered, turns, base, cap, interval)
    ensures |calls| == n && Called(calls, turns)
    ensures AfterTurns(Started(registered), turns[..n])
         == if stopped then Exited else Started(registered || SomeConfirmed(turns, n))
  {
    hide Delay, AfterTurns, AfterTurn, Waited, Called, SomeConfirmed;
    n, delays, calls := 0, [], [];
    var up := registered;
    var backoff := base;
    AtStart(registered, turns, base, cap, interval);
    while !up && n < |turns|
      invariant n <= |turns| && |delays| == |calls| == n && forall i | 0 <= i < n :: turns[i].Timer?
      invariant up <==> registered || SomeConfirmed(turns, n)
      invariant AfterTurns(Started(registered), turns[..n]) == Started(up)
      invariant !up ==> backoff == Delay(base, cap, n)
      invariant Waited(delays, registered, turns, base, cap, interval) && Called(calls, turns)
    {
      OneTurn(registered, turns, n, up);
      NextDelay(base, cap, n + 1);
      OneMoreWait(delays, registered, turns, base, cap, interval, backoff);
      delays := delays + [backoff];
      n := n + 1;
      if turns[n - 1].Stopped? {
        OneMoreCall(calls, turns, []);
        return true, n, delays, calls + [[]];
      }
      var sent;
      up, sent := Beat(turns[n - 1]);
      OneMoreCall(calls, turns, sent);
      calls := calls + [sent];
      backoff := backoff * 2;
      if backoff > cap {
        backoff := cap;
      }
    }
    while n < |turns|
      invariant n <= |turns| && |delays| == |calls| == n && forall i | 0 <= i < n :: turns[i].Timer?
      invariant n < |turns| ==> up
      invariant up <==> registered || SomeConfirmed(turns, n)
      invariant AfterTurns(Started(registered), turns[..n]) == Started(up)
      invariant Waited(delays, registered, turns, base, cap, interval) && Called(calls, turns)
    {
      OneTurn(registered, turns, n, up);
      OneMoreWait(delays, registered, turns, base, cap, interval, interval);
      delays := delays + [interval];
      n := n + 1;
      if turns[n - 1].Stopped? {
        OneMoreCall(calls, turns, []);
        return true, n, delays, calls + [[]];
      }
      var _, sent := Beat(turns[n - 1]);
      OneMoreCall(calls, turns, sent);
      calls := calls + [sent];
    }
    stopped := false;
  }

  /** A registry that cannot be reached for five beats, and has no such instance at the sixth: the loop waits 1, 2,
      4, 8 and then 15 seconds, and 30 seconds only from the registration on, even if a later beat fails. */
  lemma {:induction false} RetriesUntilRegistered(delays: seq<int>)
    requires var down, back, fails := Timer(Failed, Ok), Timer(NotFound, Ok), Timer(Failed, Failed);
             |delays| == 8 && Waited(delays, false, [down, down, down, down, down, back, fails, Stopped],
                                     1000, 15000, 30000)
    ensures delays == [1000, 2000, 4000, 8000, 15000, 15000, 30000, 30000]
  {
    var down, back, fails := Timer(Failed, Ok), Timer(NotFound, Ok), Timer(Failed, Failed);
    var turns := [down, down, down, down, down, back, fails, Stopped];
    FirstDelays();
    assert Confirmed(turns[5]) && forall k | 0 <= k < 5 :: !Confirmed(turns[k]);
    assert forall k | 0 <= k <= 5 :: !SomeConfirmed(turns, k);
    assert SomeConfirmed(turns, 6) && SomeConfirmed(turns, 7);
    hide SomeConfirmed, Delay, Confirmed;
  }

  lemma {:induction false} FirstDelays()
    ensures Delay(1000, 15000, 0) == 1000 && Delay(1000, 15000, 1) == 2000 && Delay(1000, 15000, 2) == 4000
    ensures Delay(1000, 15000, 3) == 8000 && Delay(1000, 15000, 4) == 15000 && Delay(1000, 15000, 5) == 15000
  {
    assert Delay(1000, 15000, 2) == 4000;
    assert Delay(1000, 15000, 4) == 15000;
  }

  lemma {:induction false} AtStart(registered: bool, turns: seq<Turn>, base: int, cap: int, interval: int)
    ensures AfterTurns(Started(registered), turns[..0]) == Started(registered) && Delay(base, cap, 0) == base
    ensures !SomeConfirmed(turns, 0) && Waited([], registered, turns, base, cap, interval) && Called([], turns)
  {}

  lemma {:induction false} OneTurn(registered: bool, turns: seq<Turn>, n: nat, up: bool)
    requires n < |turns| && AfterTurns(Started(registered), turns[..n]) == Started(up)
    ensures turns[n].Stopped? ==> AfterTurns(Started(registered), turns[..n + 1]).Exited?
    ensures turns[n].Timer? ==> AfterTurns(Started(registered), turns[..n + 1]) == Started(up || Confirmed(turns[n]))
    ensures SomeConfirmed(turns, n + 1) <==> SomeConfirmed(turns, n) || Confirmed(turns[n])
  {
    assert turns[..n + 1][..n] == turns[..n] && turns[..n + 1][n] == turns[n];
    OneMoreConfirmed(turns, n);
  }

  function Started(registered: bool): (r: Loop)
    ensures r.Retrying? || r.Ticking?
  {
    if registered then Ticking else Retrying
  }

  lemma {:induction false} NextDelay(base: int, cap: int, k: nat)
    requires k > 0
    ensures Delay(base, cap, k) == Doubled(Delay(base, cap, k - 1), cap)
  {}

  // ---------------------------------------------------------------- turns are runs of the interleaved model

  /** How a call can go: answered, served with the answer lost, lost on its way, or given up while it is
      still under way. */
  datatype Course = Answered | AnswerLost | RequestLost | GivenUp

  function Returned(s: Sys, rpc: Rpc, c: Course): Reply {
    if c.Answered? then ReplyTo(s, rpc) else Failed
  }

  /** What the call leaves behind. */
  function AfterCall(s: Sys, rpc: Rpc, c: Course): Sys {
    match c
    case Answered => Effect(s, rpc)
    case AnswerLost => Effect(s, rpc)
    case RequestLost => s
    case GivenUp => s.(late := s.late + multiset{rpc})
  }

  function CourseLabels(c: Course): seq<Label> {
    match c
    case Answered => [LoopCall(Serve), LoopCall(Answer)]
    case AnswerLost => [LoopCall(Serve), LoopCall(LoseAnswer)]
    case RequestLost => [LoopCall(LoseRequest)]
    case GivenUp => [LoopCall(Abandon)]
  }

  lemma {:induction false} CallIsRun(s: Sys, rpc: Rpc, c: Course)
    requires s.loop.Beating? && s.loop.call == Sent(rpc)
    ensures Reaches(s, CourseLabels(c), AfterCall(s, rpc, c).(loop := LoopAfter(s.loop, Returned(s, rpc, c))))
  {
    hide Reaches;
    var end := AfterCall(s, rpc, c).(loop := LoopAfter(s.loop, Returned(s, rpc, c)));
    Nothing(end);
    if c.Answered? || c.AnswerLost? {
      var last := if c.Answered? then LoopCall(Answer) else LoopCall(LoseAnswer);
      Chain(s, LoopCall(Serve), [last]);
      Chain(Step(s, LoopCall(Serve)), last, []);
      assert CourseLabels(c) == [LoopCall(Serve)] + [last] && [last] == [last] + [];
    } else {
      var only := if c.RequestLost? then LoopCall(LoseRequest) else LoopCall(Abandon);
      Chain(s, only, []);
      assert CourseLabels(c) == [only] + [];
    }
  }

  lemma {:induction false} Join(s: Sys, ls: seq<Label>, mid: Sys, ls': seq<Label>, end: Sys)
    requires Reaches(s, ls, mid) && Reaches(mid, ls', end)
    ensures Reaches(s, ls + ls', end)
    decreases |ls|
  {
    hide Step, Enabled;
    if ls == [] {
      assert ls + ls' == ls';
    } else {
      Join(Step(s, ls[0]), ls[1..], mid, ls', end);
      assert (ls + ls')[1..] == ls[1..] + ls';
    }
  }

  /** What the loop does and leaves behind in a turn whose calls take the courses `first` and `second`. */
  function TurnOf(s: Sys, first: Course, second: Course): Turn {
    Timer(Returned(s, RenewRpc, first), Returned(s, RegisterRpc, second))
  }

  function Outcome(s: Sys, first: Course, second: Course): Sys {
    if Returned(s, RenewRpc, first).NotFound? then AfterCall(s, RegisterRpc, second) else AfterCall(s, RenewRpc, first)
  }

  lemma {:induction false} Calm(a: seq<Label>, b: seq<Label>)
    requires NoneAbandoned(a) && NoneAbandoned(b)
    ensures NoneAbandoned(a + b)
  {}

  lemma {:induction false} CalmCourse(c: Course)
    requires !c.GivenUp?
    ensures NoneAbandoned(CourseLabels(c)) && NoneAbandoned([TimerFires])
  {}

  /** Where the renew call leaves the loop. */
  function AfterRenew(s: Sys, first: Course): Sys
    requires s.loop.Retrying? || s.loop.Ticking?
  {
    var loop := LoopAfter(Beating(Sent(RenewRpc), s.loop.Ticking?), Returned(s, RenewRpc, first));
    AfterCall(s, RenewRpc, first).(loop := loop)
  }

  lemma {:induction false} RenewIsRun(s: Sys, first: Course)
    requires s.loop.Retrying? || s.loop.Ticking?
    ensures Reaches(s, [TimerFires] + CourseLabels(first), AfterRenew(s, first))
  {
    hide Reaches, CourseLabels;
    var beat := s.(loop := Beating(Sent(RenewRpc), s.loop.Ticking?));
    assert beat == Step(s, TimerFires);
    CallIsRun(beat, RenewRpc, first);
    Chain(s, TimerFires, CourseLabels(first));
  }

  /** Every turn of the loop, however its calls go, is a run of the interleaved model: from `s` to the
      stage that `AfterTurn` gives. The register call is made exactly after a renew answered not found,
      and it puts an absent, valid instance back if it reaches the registry. */
  lemma {:induction false} TurnIsRun(s: Sys, first: Course, second: Course) returns (ls: seq<Label>, end: Sys)
    requires s.loop.Retrying? || s.loop.Ticking?
    ensures Reaches(s, ls, end)
    ensures end == Outcome(s, first, second).(loop := AfterTurn(s.loop, TurnOf(s, first, second)))
    ensures !first.GivenUp? && !second.GivenUp? ==> NoneAbandoned(ls)
  {
    hide Reaches, NoneAbandoned, CourseLabels;
    RenewIsRun(s, first);
    if !first.GivenUp? {
      CalmCourse(first);
      Calm([TimerFires], CourseLabels(first));
    }
    var mid := AfterRenew(s, first);
    ls, end := [TimerFires] + CourseLabels(first), mid;
    if mid.loop.Beating? {
      CallIsRun(mid, RegisterRpc, second);
      end := AfterCall(mid, RegisterRpc, second).(loop := LoopAfter(mid.loop, Returned(mid, RegisterRpc, second)));
      Join(s, ls, mid, CourseLabels(second), end);
      if !first.GivenUp? && !second.GivenUp? {
        CalmCourse(second);
        Calm(ls, CourseLabels(second));
      }
      ls := ls + CourseLabels(second);
    }
  }

  lemma {:induction false} StopIsRun(s: Sys)
    requires (s.loop.Retrying? || s.loop.Ticking?) && StopClosed(s)
    ensures Reaches(s, [SeeStop], s.(loop := AfterTurn(s.loop, Stopped)))
  {
    Nothing(s.(loop := Exited));
    Chain(s, SeeStop, []);
    assert [SeeStop] == [SeeStop] + [];
  }
}
