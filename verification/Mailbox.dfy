/** The capacity-1 channel that keeps only the latest value: one producer that tries to send, else
    throws the buffered value away and sends again, and one consumer that may receive at any moment. */
module Mailbox {
  import opened Wrappers

  /** Where the producer stands with a value `x`: about to try, about to drain, about to send for good.
      The last send blocks while the channel is full. */
  datatype Producer<T> = Ready | Trying(x: T) | Draining(x: T) | Sending(x: T) | Closed

  /** `polled`: every value the producer set out to deliver; `sent`: completed sends;
      `received`: what the consumer got. Each in order. */
  datatype Box<T> = Box(producer: Producer<T>, chan: Option<T>, polled: seq<T>, sent: seq<T>, received: seq<T>)

  datatype Label<T> = Produce(x: T) | TrySend | Drain | Send | Receive | Close

  function Start<T>(): Box<T> {
    Box(Ready, None, [], [], [])
  }

  predicate Enabled<T>(b: Box<T>, l: Label<T>) {
    match l
    case Produce(_) => b.producer.Ready?
    case TrySend => b.producer.Trying?
    case Drain => b.producer.Draining?
    case Send => b.producer.Sending? && b.chan.None?
    case Receive => b.chan.Some?
    case Close => b.producer.Ready?
  }

  function Step<T>(b: Box<T>, l: Label<T>): Box<T>
    requires Enabled(b, l)
  {
    match l
    case Produce(x) => b.(producer := Trying(x), polled := b.polled + [x])
    case TrySend =>
      if b.chan.None? then Delivered(b, b.producer.x) else b.(producer := Draining(b.producer.x))
    case Drain => b.(producer := Sending(b.producer.x), chan := None)
    case Send => Delivered(b, b.producer.x)
    case Receive => b.(chan := None, received := b.received + [b.chan.value])
    case Close => b.(producer := Closed)
  }

  function Delivered<T>(b: Box<T>, x: T): Box<T> {
    b.(producer := Ready, chan := Some(x), sent := b.sent + [x])
  }

  /** `a` is `b` with some elements left out. */
  ghost predicate Subsequence<T>(a: seq<T>, b: seq<T>) {
    if a == [] then true
    else if b == [] then false
    else (a[|a|-1] == b[|b|-1] && Subsequence(a[..|a|-1], b[..|b|-1])) || Subsequence(a, b[..|b|-1])
  }

  function Buffered<T>(b: Box<T>): seq<T> {
    if b.chan.Some? then [b.chan.value] else []
  }

  predicate Busy<T>(p: Producer<T>) {
    p.Trying? || p.Draining? || p.Sending?
  }

  ghost predicate Inv<T>(b: Box<T>) {
    && (b.producer.Sending? ==> b.chan.None?)
    && b.polled == (if Busy(b.producer) then b.sent + [b.producer.x] else b.sent)
    && Subsequence(b.received + Buffered(b), b.sent)
    && (b.chan.Some? ==> b.sent != [] && b.sent[|b.sent|-1] == b.chan.value)
    && (b.chan.None? && !b.producer.Sending? && b.sent != [] ==>
          b.received != [] && b.received[|b.received|-1] == b.sent[|b.sent|-1])
  }

  lemma {:induction false} KeepsSubsequence<T>(a: seq<T>, b: seq<T>, x: T)
    requires Subsequence(a, b)
    ensures Subsequence(a, b + [x]) && Subsequence(a + [x], b + [x])
  {
    assert (a + [x])[..|a|] == a && (b + [x])[..|b|] == b;
  }

  lemma {:induction false} LosesLast<T>(a: seq<T>, x: T, b: seq<T>)
    requires Subsequence(a + [x], b)
    ensures Subsequence(a, b)
  {
    var init := b[..|b|-1];
    assert (a + [x])[..|a|] == a;
    if Subsequence(a + [x], init) {
      LosesLast(a, x, init);
    }
    assert init + [b[|b|-1]] == b;
    KeepsSubsequence(a, init, b[|b|-1]);
  }

  lemma {:induction false} StepKeepsInv<T>(b: Box<T>, l: Label<T>)
    requires Inv(b) && Enabled(b, l)
    ensures Inv(Step(b, l))
  {
    hide Subsequence;
    match l {
      case TrySend => if b.chan.None? { DeliveryKeepsInv(b); }
      case Send => DeliveryKeepsInv(b);
      case Drain => DrainKeepsInv(b);
      case Receive => ReceiveKeepsInv(b);
      case _ =>
    }
  }

  lemma {:induction false} DeliveryKeepsInv<T>(b: Box<T>)
    requires Inv(b) && (b.producer.Trying? || b.producer.Sending?) && b.chan.None?
    ensures Inv(Delivered(b, b.producer.x))
  {
    hide Subsequence;
    assert b.received + [] == b.received;
    KeepsSubsequence(b.received, b.sent, b.producer.x);
  }

  lemma {:induction false} DrainKeepsInv<T>(b: Box<T>)
    requires Inv(b) && b.producer.Draining?
    ensures Inv(Step(b, Drain))
  {
    hide Subsequence;
    assert b.received + [] == b.received;
    if b.chan.Some? {
      LosesLast(b.received, b.chan.value, b.sent);
    }
  }

  lemma {:induction false} ReceiveKeepsInv<T>(b: Box<T>)
    requires Inv(b) && b.chan.Some?
    ensures Inv(Step(b, Receive))
  {
    hide Subsequence;
    assert b.received + [b.chan.value] + [] == b.received + [b.chan.value];
  }

  ghost predicate Reaches<T>(b: Box<T>, ls: seq<Label<T>>, b': Box<T>)
    decreases |ls|
  {
    if ls == [] then b' == b else Enabled(b, ls[0]) && Reaches(Step(b, ls[0]), ls[1..], b')
  }

  lemma {:induction false} RunKeepsInv<T>(b: Box<T>, ls: seq<Label<T>>, b': Box<T>)
    requires Inv(b) && Reaches(b, ls, b')
    ensures Inv(b')
    decreases |ls|
  {
    hide Inv, Step, Enabled;
    if ls != [] {
      StepKeepsInv(b, ls[0]);
      RunKeepsInv(Step(b, ls[0]), ls[1..], b');
    }
  }

  /** For every interleaving: the second, unconditional send finds the channel empty, so the producer
      never waits for the consumer (and can always be stopped). */
  lemma {:induction false} SendNeverBlocks<T>(ls: seq<Label<T>>, b: Box<T>)
    requires Reaches(Start(), ls, b) && b.producer.Sending?
    ensures Enabled(b, Send)
  {
    StartInv<T>();
    RunKeepsInv(Start(), ls, b);
  }

  lemma {:induction false} StartInv<T>()
    ensures Inv(Start<T>())
  {}

  /** The consumer gets polled values in the order they were polled, each at most once, some skipped. */
  lemma {:induction false} ReceivedInOrder<T>(ls: seq<Label<T>>, b: Box<T>)
    requires Reaches(Start(), ls, b)
    ensures Subsequence(b.received, b.polled)
  {
    StartInv<T>();
    RunKeepsInv(Start(), ls, b);
    hide Subsequence;
    if b.chan.Some? {
      LosesLast(b.received, b.chan.value, b.sent);
    }
    assert b.received + [] == b.received;
    if Busy(b.producer) {
      KeepsSubsequence(b.received, b.sent, b.producer.x);
    }
  }

  ghost predicate NewestKept<T>(b: Box<T>) {
    b.sent != [] ==>
      var newest := b.sent[|b.sent|-1];
      b.chan == Some(newest) || (b.received != [] && b.received[|b.received|-1] == newest)
  }

  /** Outside the moment between draining and sending, the newest completed send is waiting in the
      channel or is the last thing the consumer got; and whenever the producer is idle that is the
      newest value polled. */
  lemma {:induction false} NewestIsKept<T>(ls: seq<Label<T>>, b: Box<T>)
    requires Reaches(Start(), ls, b)
    ensures !b.producer.Sending? ==> NewestKept(b)
    ensures !Busy(b.producer) ==> b.sent == b.polled
  {
    StartInv<T>();
    RunKeepsInv(Start(), ls, b);
  }

  /** The drain decides: it loses the newest completed send exactly if it is the drain itself that takes it
      out of the channel, and the consumer did not get an equal value last. If the consumer was faster, the
      newest send is the last value received. */
  lemma {:induction false} DrainLosesIff<T>(ls: seq<Label<T>>, b: Box<T>)
    requires Reaches(Start(), ls, b) && b.producer.Draining?
    ensures !NewestKept(Step(b, Drain)) <==>
              b.chan.Some? && (b.received == [] || b.received[|b.received|-1] != b.chan.value)
  {
    StartInv<T>();
    RunKeepsInv(Start(), ls, b);
    hide Subsequence;
  }

  /** And after a drain that lost it only the send that follows brings it back. */
  lemma {:induction false} OnlySendRestores<T>(ls: seq<Label<T>>, b: Box<T>, l: Label<T>)
    requires Reaches(Start(), ls, b) && b.producer.Sending? && Enabled(b, l)
    ensures l == Send && NewestKept(Step(b, l))
  {
    StartInv<T>();
    RunKeepsInv(Start(), ls, b);
    hide Subsequence;
  }

  /** At that moment it can be gone: drained and superseded. */
  lemma {:induction false} DrainedMoment() returns (ls: seq<Label<int>>, b: Box<int>)
    ensures Reaches(Start(), ls, b) && b.producer.Sending? && !NewestKept(b)
  {
    b := Box(Sending(2), None, [1, 2], [1], []);
    assert Reaches(b, [], b);
    Prepend(Box(Draining(2), Some(1), [1, 2], [1], []), Drain, [], b);
    Prepend(Box(Trying(2), Some(1), [1, 2], [1], []), TrySend, [Drain], b);
    Prepend(Box(Ready, Some(1), [1], [1], []), Produce(2), [TrySend, Drain], b);
    Prepend(Box(Trying(1), None, [1], [], []), TrySend, [Produce(2), TrySend, Drain], b);
    Prepend(Start(), Produce(1), [TrySend, Produce(2), TrySend, Drain], b);
    ls := [Produce(1), TrySend, Produce(2), TrySend, Drain];
  }

  lemma {:induction false} Prepend<T>(b: Box<T>, l: Label<T>, ls: seq<Label<T>>, b': Box<T>)
    requires Enabled(b, l) && Reaches(Step(b, l), ls, b')
    ensures Reaches(b, [l] + ls, b')
  {
    assert ([l] + ls)[1..] == ls;
  }

  lemma {:induction false} Nowhere<T>(b: Box<T>)
    ensures Reaches(b, [], b)
  {}

  // ---------------------------------------------------------------- one delivery

  /** The steps of one delivery: `raced` tells that the consumer emptied the channel between try and drain. */
  function DeliverySteps<T>(b: Box<T>, raced: bool): seq<Label<T>> {
    if b.chan.None? then [TrySend]
    else if raced then [TrySend, Receive, Drain, Send]
    else [TrySend, Drain, Send]
  }

  /** What the steps do, up to the same end as `Channel.Deliver`: the value in the channel, the old one
      received exactly if the consumer was faster. */
  lemma {:induction false} DeliveryIsRun<T>(b: Box<T>, raced: bool) returns (end: Box<T>)
    requires b.producer.Trying?
    ensures Reaches(b, DeliverySteps(b, raced), end)
    ensures end == Delivered(b, b.producer.x).(received := if raced then b.received + Buffered(b) else b.received)
  {
    var x := b.producer.x;
    assert b.received + [] == b.received;
    if b.chan.None? {
      end := Delivered(b, x);
      Prepend(b, TrySend, [], end);
      assert [TrySend] + [] == DeliverySteps(b, raced);
    } else {
      var full := b.(producer := Draining(x));
      var empty := if raced then full.(chan := None, received := b.received + [b.chan.value]) else full;
      var drained := empty.(producer := Sending(x), chan := None);
      end := Delivered(drained, x);
      Prepend(drained, Send, [], end);
      Prepend(empty, Drain, [Send], end);
      if raced {
        Prepend(full, Receive, [Drain, Send], end);
        Prepend(b, TrySend, [Receive, Drain, Send], end);
      } else {
        Prepend(b, TrySend, [Drain, Send], end);
      }
    }
  }

  // ---------------------------------------------------------------- the channel as an object

  class Channel<T> {
    var buf: Option<T>

    constructor ()
      ensures buf == None
    {
      buf := None;
    }

    method TrySend(x: T) returns (ok: bool)
      modifies this
      ensures ok == old(buf).None?
      ensures buf == if ok then Some(x) else old(buf)
    {
      ok := buf.None?;
      if ok {
        buf := Some(x);
      }
    }

    method TryReceive() returns (x: Option<T>)
      modifies this
      ensures x == old(buf) && buf == None
    {
      x := buf;
      buf := None;
    }

    /** The blocking send, called where it does not block. */
    method Send(x: T)
      requires buf == None
      modifies this
      ensures buf == Some(x)
    {
      buf := Some(x);
    }

    /** Latest value wins; `raced` tells that the consumer emptied the channel between try and drain. */
    method Deliver(x: T, raced: bool) returns (taken: Option<T>)
      modifies this
      ensures buf == Some(x)
      ensures taken == if raced then old(buf) else None
    {
      taken := None;
      var ok := TrySend(x);
      if !ok {
        if raced {
          taken := TryReceive();
        }
        var _ := TryReceive();
        Send(x);
      }
    }
  }
}
