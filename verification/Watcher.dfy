/** The subscription goroutine as the loop it is: versioned long polls, a channel that keeps the latest
    snapshot, and growing waits between failures. */
module Watcher {
  import opened Backoff
  import opened Mailbox
  import opened Snapshots
  import opened Wrappers

  datatype Outcome = Fresh(instances: seq<Instance>, version: int) | NotModified | Failed | Cancelled

  /** What one poll returns, and whether the consumer empties the channel before the goroutine tries to
      send, or between its try and its drain. */
  datatype Round = Round(outcome: Outcome, early: bool, raced: bool)

  /** The newest snapshot received, and its version; version 0 asks for anything registered at all. */
  function Newest(rounds: seq<Round>): Option<(seq<Instance>, int)> {
    if rounds == [] then None
    else
      var o := rounds[|rounds|-1].outcome;
      if o.Fresh? then Some((o.instances, o.version)) else Newest(rounds[..|rounds|-1])
  }

  function VersionAfter(rounds: seq<Round>): int {
    match Newest(rounds)
    case None => 0
    case Some(n) => n.1
  }

  /** Failed polls since the last answer of the registry; a "not modified" is an answer. */
  function Failures(rounds: seq<Round>): nat {
    if rounds == [] || !rounds[|rounds|-1].outcome.Failed? then 0 else Failures(rounds[..|rounds|-1]) + 1
  }

  /** `n` rounds end with `f` failures in a row and not more. */
  ghost predicate EndsInFailures(rounds: seq<Round>, n: nat, f: nat)
    requires n <= |rounds|
  {
    && f <= n && (forall j | n - f <= j < n :: rounds[j].outcome.Failed?)
    && (f < n ==> !rounds[n - f - 1].outcome.Failed?)
  }

  lemma {:induction false} FailuresInARow(rounds: seq<Round>)
    ensures EndsInFailures(rounds, |rounds|, Failures(rounds))
  {
    if rounds != [] {
      FailuresInARow(rounds[..|rounds|-1]);
    }
  }

  /** The newest answer is the last one with a snapshot, if there is one. */
  lemma {:induction false} NewestIsLast(rounds: seq<Round>)
    ensures Newest(rounds) == None <==> forall j | 0 <= j < |rounds| :: !rounds[j].outcome.Fresh?
    ensures forall j | 0 <= j < |rounds| && rounds[j].outcome.Fresh? ::
              (forall i | j < i < |rounds| :: !rounds[i].outcome.Fresh?) ==>
                Newest(rounds) == Some((rounds[j].outcome.instances, rounds[j].outcome.version))
  {
    if rounds != [] {
      var init, last := rounds[..|rounds|-1], rounds[|rounds|-1];
      NewestIsLast(init);
      assert forall j | 0 <= j < |init| :: init[j] == rounds[j];
      if last.outcome.Fresh? {
        assert !(forall j | 0 <= j < |rounds| :: !rounds[j].outcome.Fresh?);
      } else {
        assert Newest(rounds) == Newest(init);
      }
    }
  }

  /** What follows round k: no wait after an answer, and the f-th wait in a row after a failure. */
  ghost predicate WaitsAsFailed(waits: seq<int>, rounds: seq<Round>, base: int, cap: int) {
    && |waits| <= |rounds|
    && forall k, f | 0 <= k < |waits| && 0 <= f && EndsInFailures(rounds, k, f) ::
         waits[k] == if rounds[k].outcome.Failed? then Delay(base, cap, f) else 0
  }

  lemma {:induction false} OnlyOneCount(rounds: seq<Round>, n: nat, f: nat, g: nat)
    requires n <= |rounds| && EndsInFailures(rounds, n, f) && EndsInFailures(rounds, n, g)
    ensures f == g
  {}

  lemma {:induction false} OneMoreWait(waits: seq<int>, rounds: seq<Round>, base: int, cap: int, w: int)
    requires WaitsAsFailed(waits, rounds, base, cap) && |waits| < |rounds|
    requires var k := |waits|;
             w == if rounds[k].outcome.Failed? then Delay(base, cap, Failures(rounds[..k])) else 0
    ensures WaitsAsFailed(waits + [w], rounds, base, cap)
  {
    var k := |waits|;
    FailuresInARow(rounds[..k]);
    assert EndsInFailures(rounds, k, Failures(rounds[..k]));
    forall f: nat | EndsInFailures(rounds, k, f) ensures f == Failures(rounds[..k]) {
      OnlyOneCount(rounds, k, f, Failures(rounds[..k]));
    }
    hide Delay, EndsInFailures, Failures;
  }

  /** What poll k asks for: the version of the last snapshot before it, and 0 if there is none. */
  ghost predicate AsksForNewest(asked: seq<int>, rounds: seq<Round>) {
    && |asked| <= |rounds|
    && forall k | 0 <= k < |asked| ::
         && ((forall i | 0 <= i < k :: !rounds[i].outcome.Fresh?) ==> asked[k] == 0)
         && (forall j | 0 <= j < k && rounds[j].outcome.Fresh? ::
               (forall i | j < i < k :: !rounds[i].outcome.Fresh?) ==> asked[k] == rounds[j].outcome.version)
  }

  lemma {:induction false} OneMoreAsked(asked: seq<int>, rounds: seq<Round>, v: int)
    requires AsksForNewest(asked, rounds) && |asked| < |rounds| && v == VersionAfter(rounds[..|asked|])
    ensures AsksForNewest(asked + [v], rounds)
  {
    var k := |asked|;
    NewestIsLast(rounds[..k]);
    assert forall i | 0 <= i < k :: rounds[..k][i] == rounds[i];
    hide Newest;
  }

  class Watcher {
    const base: int
    const cap: int
    const ch: Channel<seq<Instance>>

    constructor (base: int, cap: int)
      ensures fresh(ch) && ch.buf == None && this.base == base && this.cap == cap
    {
      this.base, this.cap := base, cap;
      ch := new Channel();
    }

    /** The channel is empty or holds the newest snapshot received so far. */
    ghost predicate Latest(rounds: seq<Round>)
      reads ch
    {
      ch.buf.Some? ==> Newest(rounds).Some? && Newest(rounds).value.0 == ch.buf.value
    }

    /** Runs until cancelled or the given rounds are over; `n` polls returned, `asked` lists the versions that the
        polls were sent with and `waits` how long the loop waited after each. */
    method WatchLoop(rounds: seq<Round>) returns (n: nat, asked: seq<int>, waits: seq<int>)
      requires ch.buf == None
      modifies ch
      ensures n <= |rounds| && (n < |rounds| ==> rounds[n].outcome.Cancelled?)
      ensures forall k | 0 <= k < n :: !rounds[k].outcome.Cancelled?
      ensures n <= |asked| <= n + 1 && AsksForNewest(asked, rounds)
      ensures |waits| == n && WaitsAsFailed(waits, rounds, base, cap)
      ensures Latest(rounds[..n])
      ensures n > 0 && rounds[n - 1].outcome.Fresh? && n == |rounds| ==> ch.buf == Some(rounds[n - 1].outcome.instances)
    {
      hide Delay, Newest, Failures, WaitsAsFailed, AsksForNewest;
      n, asked, waits := 0, [], [];
      var version := 0;
      var backoff := base;
      NothingYet(rounds, base, cap);
      while n < |rounds|
        invariant n <= |rounds| && |asked| == |waits| == n
        invariant forall k | 0 <= k < n :: !rounds[k].outcome.Cancelled?
        invariant AsksForNewest(asked, rounds) && WaitsAsFailed(waits, rounds, base, cap)
        invariant version == VersionAfter(rounds[..n]) && backoff == Delay(base, cap, Failures(rounds[..n]))
        invariant Latest(rounds[..n])
        invariant n > 0 && rounds[n - 1].outcome.Fresh? ==> ch.buf == Some(rounds[n - 1].outcome.instances)
      {
        var r := rounds[n];
        OneRound(rounds, n, base, cap);
        OneMoreAsked(asked, rounds, version);
        asked := asked + [version];
        if r.early {
          var _ := ch.TryReceive();
        }
        var wait := 0;
        match r.outcome {
          case Fresh(instances, newVersion) =>
            backoff := base;
            version := newVersion;
            var _ := ch.Deliver(instances, r.raced);
          case NotModified =>
            backoff := base;
          case Cancelled =>
            return;
          case Failed =>
            wait := backoff;
            backoff := backoff * 2;
            if backoff > cap {
              backoff := cap;
            }
        }
        OneMoreWait(waits, rounds, base, cap, wait);
        waits, n := waits + [wait], n + 1;
      }
    }
  }

  lemma {:induction false} NothingYet(rounds: seq<Round>, base: int, cap: int)
    ensures VersionAfter([]) == 0 && Failures([]) == 0 && Delay(base, cap, 0) == base
    ensures AsksForNewest([], rounds) && WaitsAsFailed([], rounds, base, cap)
  {}

  lemma {:induction false} OneRound(rounds: seq<Round>, n: nat, base: int, cap: int)
    requires n < |rounds|
    ensures var now, before, o := rounds[..n + 1], rounds[..n], rounds[n].outcome;
            && Newest(now) == (if o.Fresh? then Some((o.instances, o.version)) else Newest(before))
            && Failures(now) == (if o.Failed? then Failures(before) + 1 else 0)
            && Delay(base, cap, Failures(now)) == if o.Failed? then Doubled(Delay(base, cap, Failures(before)), cap)
                else base
  {
    assert rounds[..n + 1][..n] == rounds[..n];
  }
}
