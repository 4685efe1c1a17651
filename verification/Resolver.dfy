/** The gRPC resolver: it turns snapshots into address lists, never passes on an empty one, and offers the
    last list again whenever gRPC asks for a resolution. gRPC may reject any update. */
module Resolver {
  import opened Snapshots

  /** `last`: the list last offered by a snapshot; `accepted`: the lists gRPC took, in order. */
  datatype Conn = Conn(last: seq<string>, accepted: seq<seq<string>>)

  function Push(c: Conn, addrs: seq<string>, ok: bool): Conn {
    Conn(addrs, if ok then c.accepted + [addrs] else c.accepted)
  }

  function Take(c: Conn, snapshot: seq<Instance>, ok: bool): Conn {
    if snapshot == [] then c else Push(c, Addrs(snapshot), ok)
  }

  function Resolve(c: Conn, ok: bool): Conn {
    if c.last == [] then c else Push(c, c.last, ok)
  }

  /** What happens to the resolver, one lock holder at a time; `ok`: gRPC takes the update. */
  datatype Event = Arrives(snapshot: seq<Instance>, ok: bool) | AskedToResolve(ok: bool)

  function Handle(c: Conn, e: Event): Conn {
    match e
    case Arrives(snapshot, ok) => Take(c, snapshot, ok)
    case AskedToResolve(ok) => Resolve(c, ok)
  }

  function Run(events: seq<Event>): Conn {
    if events == [] then Conn([], []) else Handle(Run(events[..|events|-1]), events[|events|-1])
  }

  // ---------------------------------------------------------------- every run

  function Newest(events: seq<Event>): seq<Instance> {
    if events == [] then []
    else
      var e := events[|events|-1];
      if e.Arrives? && e.snapshot != [] then e.snapshot else Newest(events[..|events|-1])
  }

  /** Of the newest non-empty snapshot and the requests since, gRPC took at least one. */
  predicate Taken(events: seq<Event>) {
    if events == [] then false
    else
      var init, e := events[..|events|-1], events[|events|-1];
      if e.Arrives? && e.snapshot != [] then e.ok
      else Taken(init) || (e.AskedToResolve? && e.ok && Newest(init) != [])
  }

  /** gRPC never gets an empty list; whatever it gets is some non-empty snapshot's list; and the resolver
      remembers the newest of these, through empty snapshots and rejected updates. */
  lemma {:induction false} NeverEmpty(events: seq<Event>)
    ensures Run(events).last == Addrs(Newest(events))
    ensures forall i | 0 <= i < |Run(events).accepted| ::
              Run(events).accepted[i] != [] &&
              exists k | 0 <= k < |events| :: events[k].Arrives? && Run(events).accepted[i] == Addrs(events[k].snapshot)
  {
    if events != [] {
      var init, e := events[..|events|-1], events[|events|-1];
      NeverEmpty(init);
      NewestArrived(init);
      assert events[|events|-1] == e && forall k | 0 <= k < |init| :: init[k] == events[k];
      hide Addrs, Run;
      assert Run(events) == Handle(Run(init), e) by { RunStep(events); }
      forall i | 0 <= i < |Run(events).accepted|
        ensures Run(events).accepted[i] != [] &&
                exists k | 0 <= k < |events| ::
                  events[k].Arrives? && Run(events).accepted[i] == Addrs(events[k].snapshot)
      {
        if i < |Run(init).accepted| {
          assert Run(events).accepted[i] == Run(init).accepted[i];
        }
      }
    }
  }

  lemma {:induction false} RunStep(events: seq<Event>)
    requires events != []
    ensures Run(events) == Handle(Run(events[..|events|-1]), events[|events|-1])
  {}

  lemma {:induction false} NewestArrived(events: seq<Event>)
    ensures Newest(events) != [] ==>
              exists k | 0 <= k < |events| :: events[k].Arrives? && Newest(events) == events[k].snapshot
  {
    if events != [] {
      var init := events[..|events|-1];
      NewestArrived(init);
      assert forall k | 0 <= k < |init| :: init[k] == events[k];
    }
  }

  ghost predicate Filled(e: Event) {
    e.Arrives? && e.snapshot != []
  }

  /** The newest snapshot is the last non-empty one, if there is one. */
  lemma {:induction false} NewestIsLast(events: seq<Event>)
    ensures Newest(events) == [] <==> forall j | 0 <= j < |events| :: !Filled(events[j])
    ensures forall j | 0 <= j < |events| && Filled(events[j]) ::
              (forall i | j < i < |events| :: !Filled(events[i])) ==> Newest(events) == events[j].snapshot
  {
    if events != [] {
      var init, last := events[..|events|-1], events[|events|-1];
      NewestIsLast(init);
      assert forall j | 0 <= j < |init| :: init[j] == events[j];
      if Filled(last) {
        assert !(forall j | 0 <= j < |events| :: !Filled(events[j]));
      } else {
        assert Newest(events) == Newest(init);
      }
    }
  }

  /** Event k offers gRPC a list: a non-empty snapshot, or a request to resolve once there was one. */
  ghost predicate Offers(events: seq<Event>, k: nat)
    requires k < |events|
  {
    Filled(events[k]) || (events[k].AskedToResolve? && exists j | 0 <= j < k :: Filled(events[j]))
  }

  /** `at` are the places of the offers that gRPC did not reject, in order. */
  ghost predicate AreTaken(at: seq<nat>, events: seq<Event>) {
    && (forall i, j | 0 <= i < j < |at| :: at[i] < at[j])
    && (forall i | 0 <= i < |at| :: at[i] < |events|)
    && (forall k | 0 <= k < |events| :: k in at <==> events[k].ok && Offers(events, k))
  }

  /** List i is that of the newest non-empty snapshot when it was offered. */
  ghost predicate ListsAt(at: seq<nat>, events: seq<Event>, accepted: seq<seq<string>>) {
    && |at| == |accepted|
    && forall i | 0 <= i < |at| :: at[i] < |events| && accepted[i] == Addrs(Newest(events[..at[i] + 1]))
  }

  lemma {:induction false} OneMorePlace(at: seq<nat>, events: seq<Event>)
    requires events != [] && AreTaken(at, events[..|events|-1])
    ensures var n := |events| - 1;
            AreTaken(if events[n].ok && Offers(events, n) then at + [n] else at, events)
  {
    var n, init := |events| - 1, events[..|events|-1];
    assert forall k | 0 <= k < n :: Offers(init, k) <==> Offers(events, k);
    hide Offers;
  }

  lemma {:induction false} OneMoreList(at: seq<nat>, events: seq<Event>, accepted: seq<seq<string>>)
    requires events != [] && ListsAt(at, events[..|events|-1], accepted)
    ensures ListsAt(at, events, accepted)
    ensures ListsAt(at + [|events| - 1], events, accepted + [Addrs(Newest(events))])
  {
    hide Addrs, Newest;
    assert forall i | 0 <= i < |at| :: events[..at[i] + 1] == events[..|events|-1][..at[i] + 1];
    assert events[..|events| - 1 + 1] == events;
  }

  /** gRPC has taken exactly the offers that it did not reject, in order, and each was the list of the newest
      non-empty snapshot then. */
  lemma {:induction false} AcceptedExactly(events: seq<Event>) returns (at: seq<nat>)
    ensures AreTaken(at, events) && ListsAt(at, events, Run(events).accepted)
  {
    at := [];
    if events != [] {
      at := AcceptedExactly(events[..|events|-1]);
      OfferedNow(events);
      OneMorePlace(at, events);
      OneMoreList(at, events, Run(events[..|events|-1]).accepted);
      hide Addrs, Offers, Newest, Run, AreTaken, ListsAt;
      var before := Run(events[..|events|-1]).accepted;
      assert before + [] == before;
      if events[|events|-1].ok && Offers(events, |events| - 1) {
        at := at + [|events| - 1];
      }
    }
  }

  lemma {:induction false} OfferedNow(events: seq<Event>)
    requires events != []
    ensures var n, before := |events| - 1, Run(events[..|events|-1]).accepted;
            Run(events).accepted
            == before + if events[n].ok && Offers(events, n) then [Addrs(Newest(events))] else []
  {
    var init, e := events[..|events|-1], events[|events|-1];
    NeverEmpty(init);
    NewestIsLast(init);
    RunStep(events);
    assert forall j | 0 <= j < |init| :: init[j] == events[j];
    hide Run;
  }

  /** gRPC's current list is the newest non-empty snapshot's as soon as one offer of it was taken,
      so a rejected update is made good by the next accepted request to resolve. */
  lemma {:induction false} TakenIsCurrent(events: seq<Event>)
    requires Taken(events)
    ensures var a := Run(events).accepted; a != [] && a[|a|-1] == Addrs(Newest(events))
  {
    hide Addrs;
    var init := events[..|events|-1];
    NeverEmpty(init);
    if Taken(init) {
      TakenIsCurrent(init);
    }
  }

  lemma {:induction false} ResolveRepairs(events: seq<Event>)
    requires Newest(events) != []
    ensures Taken(events + [AskedToResolve(true)])
    ensures var a := Run(events + [AskedToResolve(true)]).accepted; a != [] && a[|a|-1] == Addrs(Newest(events))
  {
    hide Addrs;
    var more := events + [AskedToResolve(true)];
    assert more[..|more|-1] == events;
    TakenIsCurrent(more);
  }

  // ---------------------------------------------------------------- the objects

  class ClientConn {
    var accepted: seq<seq<string>>

    constructor ()
      ensures accepted == []
    {
      accepted := [];
    }

    method UpdateState(addrs: seq<string>, ok: bool)
      modifies this
      ensures accepted == if ok then old(accepted) + [addrs] else old(accepted)
    {
      if ok {
        accepted := accepted + [addrs];
      }
    }
  }

  class DiscoveryResolver {
    const cc: ClientConn
    var last: seq<string>

    ghost function Value(): Conn
      reads this, cc
    {
      Conn(last, cc.accepted)
    }

    constructor (cc: ClientConn)
      ensures this.cc == cc && last == []
    {
      this.cc, last := cc, [];
    }

    method PushState(addrs: seq<string>, ok: bool)
      modifies this`last, cc
      ensures Value() == Push(old(Value()), addrs, ok)
    {
      last := addrs;
      cc.UpdateState(addrs, ok);
    }

    method ResolveNow(ok: bool)
      modifies cc
      ensures Value() == Resolve(old(Value()), ok)
    {
      if |last| == 0 {
        return;
      }
      cc.UpdateState(last, ok);
    }

    method OnSnapshot(snapshot: seq<Instance>, ok: bool)
      modifies this`last, cc
      ensures Value() == Take(old(Value()), snapshot, ok)
    {
      if |snapshot| == 0 {
        return;
      }
      var addrs := [];
      for i := 0 to |snapshot|
        invariant |addrs| == i && forall j | 0 <= j < i :: addrs[j] == snapshot[j].addr
        invariant last == old(last) && cc.accepted == old(cc.accepted)
      {
        addrs := addrs + [snapshot[i].addr];
      }
      assert addrs == Addrs(snapshot);
      PushState(addrs, ok);
    }

    /** The goroutine over the events of a whole run, gRPC's requests in between. */
    method Watch(events: seq<Event>)
      requires last == [] && cc.accepted == []
      modifies this`last, cc
      ensures Value() == Run(events)
    {
      hide Run, Take, Resolve;
      Begin();
      for i := 0 to |events|
        invariant Value() == Run(events[..i])
      {
        match events[i] {
          case Arrives(snapshot, ok) => OnSnapshot(snapshot, ok);
          case AskedToResolve(ok) => ResolveNow(ok);
        }
        assert events[..i + 1][..i] == events[..i];
        RunStep(events[..i + 1]);
      }
      assert events[..|events|] == events;
    }
  }

  lemma {:induction false} Begin()
    ensures Run([]) == Conn([], [])
  {}
}
