/** The course of one long poll over whole runs: what ends it, and with what. */
module LongPolls {
  import opened Snapshots
  import opened RegistryState
  import opened RegistrySystem
  import VersionCoherence

  // ---------------------------------------------------------------- what a poll asks stays what it asked

  /** A poll of `name` since `since`: it still asks just that, was told so that nothing changed, or was answered
      with another version than the one it had. */
  ghost predicate Asks(w: Poller, name: string, since: int) {
    match w
    case AtTop(n, v) => n == name && v == since
    case Blocked(n, v, _) => n == name && v == since
    case Leaving(n, v, _) => n == name && v == since
    case Answered(_, v) => v != since
    case Unchanged(v) => v == since
    case Dropped => true
  }

  /** The poll's timeout or its context came first. */
  ghost predicate GivenUp(w: Poller) {
    w.Unchanged? || (w.Leaving? && !w.woken)
  }

  lemma {:induction false} StepOfPoll(s: Sys, l: Label, cfg: Config, p: nat, name: string, since: int)
    requires Inv(s) && cfg.Ok() && Enabled(s, l) && p < |s.pollers| && Asks(s.pollers[p], name, since)
    ensures p < |Step(s, l, cfg).pollers| && Asks(Step(s, l, cfg).pollers[p], name, since)
    ensures Step(s, l, cfg).pollers[p].Dropped? <==> l.Restart? || s.pollers[p].Dropped?
    ensures !Step(s, l, cfg).pollers[p].Dropped? ==>
              (GivenUp(Step(s, l, cfg).pollers[p]) <==> GivenUp(s.pollers[p]) || l == GiveUp(p))
  {
    hide Inv, Ok, Register, Renew, Cancel, Sweep, Evaluate, Release, Touch, Wait;
  }

  /** From its start to its end: whatever else goes on, a poll is answered with another version or told that
      nothing has changed since its own; and the latter, or being on the way out to it, happens if and only if
      its timeout or its context came first. */
  lemma {:induction false} CourseOfPoll(s: Sys, ls: seq<Label>, s': Sys, cfg: Config, p: nat, name: string, since: int)
    requires Inv(s) && cfg.Ok() && Reaches(s, ls, s', cfg)
    requires p < |s.pollers| && Asks(s.pollers[p], name, since)
    ensures p < |s'.pollers| && Asks(s'.pollers[p], name, since)
    ensures s'.pollers[p].Dropped? <==> Restart in ls || s.pollers[p].Dropped?
    ensures !s'.pollers[p].Dropped? ==> (GivenUp(s'.pollers[p]) <==> GivenUp(s.pollers[p]) || GiveUp(p) in ls)
    decreases |ls|
  {
    hide Step, Enabled, Ok, PollersOk, RenewedBy, LoopOk, GivenUp, Asks;
    if ls != [] {
      StepKeepsInv(s, ls[0], cfg);
      StepOfPoll(s, ls[0], cfg, p, name, since);
      CourseOfPoll(Step(s, ls[0], cfg), ls[1..], s', cfg, p, name, since);
    }
  }

  /** The same from the arrival of the poll in any state. */
  lemma {:induction false} UnchangedIffGivenUp(s: Sys, name: string, since: int, ls: seq<Label>, s': Sys, cfg: Config)
    requires Inv(s) && cfg.Ok()
    requires Reaches(s, [NewPoll(name, since)] + ls, s', cfg) && Restart !in ls
    ensures var p := |s.pollers|;
            && p < |s'.pollers|
            && (GiveUp(p) in ls <==> s'.pollers[p] == Unchanged(since) || s'.pollers[p] == Leaving(name, since, false))
            && (s'.pollers[p].Answered? ==> s'.pollers[p].version != since)
  {
    var l := NewPoll(name, since);
    assert ([l] + ls)[1..] == ls;
    StepKeepsInv(s, l, cfg);
    var s1 := s.(pollers := s.pollers + [AtTop(name, since)]);
    assert Step(s, l, cfg) == s1;
    CourseOfPoll(s1, ls, s', cfg, |s.pollers|, name, since);
    hide Step, Inv, Enabled, Reaches;
  }

  /** The way out: a poll on its way out takes one step of its own, and what that leads to depends on what ended
      the wait. */
  lemma {:induction false} WayOut(s: Sys, cfg: Config, p: nat)
    requires Inv(s) && cfg.Ok() && p < |s.pollers| && s.pollers[p].Leaving?
    ensures var w, w' := s.pollers[p], Step(s, LeaveLock(p), cfg).pollers[p];
            && (w.woken ==> w' == AtTop(w.name, w.since))
            && (!w.woken ==> w' == Unchanged(w.since))
  {
    hide Inv, Ok, Release;
  }

  // ---------------------------------------------------------------- the locked round on the entry's fields

  /** An entry that is not there yet counts as version 0 without instances. */
  ghost function VersionNow(s: State, name: string): int {
    if name in s.services then s.services[name].version else 0
  }

  /** A locked round answers at once if and only if the entry's version is another than the poll's; then it hands
      out the entry's instances, each once, in string order of IDs, and that version. Else the poll waits on the
      entry's channel. */
  lemma {:induction false} RoundOnFields(s: Sys, cfg: Config, p: nat)
    requires Inv(s) && cfg.Ok() && p < |s.pollers| && s.pollers[p].AtTop?
    ensures var w, s' := s.pollers[p], Step(s, PollLock(p), cfg);
            && s'.pollers == s.pollers[p := s'.pollers[p]]
            && w.name in s'.reg.services
            && var svc := s'.reg.services[w.name];
              && svc.version == VersionNow(s.reg, w.name)
              && svc.instances == (if w.name in s.reg.services then s.reg.services[w.name].instances else map[])
              && (if svc.version == w.since then s'.pollers[p] == Blocked(w.name, w.since, svc.update)
                  else s'.pollers[p].Answered? && s'.pollers[p].version == svc.version
                       && IsSnapshot(s'.pollers[p].snap, svc.instances) && InStringOrder(s'.pollers[p].snap))
  {
    hide Ok, PollersOk, RenewedBy, LoopOk, IsSnapshot;
    PollKeepsOk(s.reg, s.pollers[p].name);
    var s' := Step(s, PollLock(p), cfg);
    if s'.pollers[p].Answered? {
      SnapshotInStringOrder(s'.pollers[p].snap, s'.reg.services[s.pollers[p].name].instances);
    }
  }

  /** It counts the poll if and only if the poll waits, and changes nothing else in the registry. */
  lemma {:induction false} RoundCounts(s: Sys, cfg: Config, p: nat)
    requires Inv(s) && cfg.Ok() && p < |s.pollers| && s.pollers[p].AtTop?
    ensures var name, reg, reg' := s.pollers[p].name, s.reg, Step(s, PollLock(p), cfg).reg;
            && reg'.services.Keys == reg.services.Keys + {name}
            && (forall n | n in reg.services && n != name :: reg'.services[n] == reg.services[n])
            && reg'.closed == reg.closed && reg'.renews == reg.renews && reg'.protected == reg.protected
            && (name in reg.services ==> reg'.services[name].update == reg.services[name].update)
            && reg'.services[name].waiters == (if name in reg.services then reg.services[name].waiters else 0)
                                            + (if reg'.services[name].version == s.pollers[p].since then 1 else 0)
  {
    hide Ok, PollersOk, RenewedBy, LoopOk, Snapshot;
  }

  lemma {:induction false} SnapshotInStringOrder(snap: seq<Instance>, m: map<string, Entry>)
    requires IsSnapshot(snap, m)
    ensures InStringOrder(snap)
  {
    SortedInStringOrder(snap);
  }

  // ---------------------------------------------------------------- after a wakeup

  /** The entry is there in every state of the run. */
  ghost predicate StaysFiled(s: Sys, ls: seq<Label>, name: string, cfg: Config)
    requires Inv(s) && cfg.Ok()
    decreases |ls|
  {
    && name in s.reg.services
    && (ls != [] && Enabled(s, ls[0]) ==>
          (StepKeepsInv(s, ls[0], cfg); StaysFiled(Step(s, ls[0], cfg), ls[1..], name, cfg)))
  }

  lemma {:induction false} VersionOnlyGrows(s: Sys, ls: seq<Label>, s': Sys, cfg: Config, name: string)
    requires Inv(s) && cfg.Ok() && Reaches(s, ls, s', cfg) && StaysFiled(s, ls, name, cfg)
    ensures name in s.reg.services && name in s'.reg.services && Restart !in ls
    ensures s'.reg.services[name].version >= s.reg.services[name].version
    decreases |ls|
  {
    hide Step, Enabled, Ok, PollersOk, RenewedBy, LoopOk;
    if ls != [] {
      StepKeepsInv(s, ls[0], cfg);
      assert StaysFiled(Step(s, ls[0], cfg), ls[1..], name, cfg);
      assert name in Step(s, ls[0], cfg).reg.services by {
        hide Reaches;
      }
      if ls[0].Restart? {
        RestartEmpties(s, cfg);
        assert false;
      }
      VersionCoherence.VersionMovesIffMembersMove(s, ls[0], cfg, name);
      VersionOnlyGrows(Step(s, ls[0], cfg), ls[1..], s', cfg, name);
    }
  }

  lemma {:induction false} RestartEmpties(s: Sys, cfg: Config)
    requires Inv(s) && cfg.Ok()
    ensures Step(s, Restart, cfg).reg.services == map[]
  {
    hide Inv;
  }

  /** A wakeup is never in vain. A poll can be woken if and only if its entry has moved past its version; then,
      as long as the entry is not reaped, the poll's next locked round answers it, with a higher version than its
      own and with the instances of that moment, whatever has come between. */
  lemma {:induction false} WokenPollIsAnswered(s: Sys, ls: seq<Label>, s': Sys, cfg: Config, p: nat)
    requires Inv(s) && cfg.Ok() && Enabled(s, Wake(p)) && Reaches(s, [Wake(p)] + ls, s', cfg)
    requires StaysFiled(s, [Wake(p)] + ls, s.pollers[p].name, cfg) && p < |s'.pollers| && s'.pollers[p].AtTop?
    ensures Inv(s') && s'.pollers[p] == AtTop(s.pollers[p].name, s.pollers[p].since)
    ensures var w, s2 := s.pollers[p], Step(s', PollLock(p), cfg);
            && w.name in s'.reg.services && s2.pollers[p].Answered?
            && s2.pollers[p].version == s'.reg.services[w.name].version > w.since
            && IsSnapshot(s2.pollers[p].snap, s'.reg.services[w.name].instances)
  {
    var w := s.pollers[p];
    Ahead(s, p);
    RunKeepsInv(s, [Wake(p)] + ls, s', cfg);
    CourseOfPoll(s, [Wake(p)] + ls, s', cfg, p, w.name, w.since);
    VersionOnlyGrows(s, [Wake(p)] + ls, s', cfg, w.name);
    RoundOnFields(s', cfg, p);
    hide Step, Inv, Reaches, StaysFiled, IsSnapshot;
  }

  lemma {:induction false} Ahead(s: Sys, p: nat)
    requires Inv(s) && Enabled(s, Wake(p))
    ensures s.pollers[p].name in s.reg.services
    ensures s.reg.services[s.pollers[p].name].version > s.pollers[p].since
  {
    assert Watches(s.pollers[p], s.reg);
  }

  /** Back to back: woken, counted out, and answered with what is there at the wakeup. */
  lemma {:induction false} WakeLeaveAnswer(s: Sys, cfg: Config, p: nat) returns (s': Sys)
    requires Inv(s) && cfg.Ok() && Enabled(s, Wake(p))
    ensures Reaches(s, [Wake(p), LeaveLock(p), PollLock(p)], s', cfg)
    ensures var w := s.pollers[p];
            && w.name in s.reg.services && p < |s'.pollers| && s'.pollers[p].Answered?
            && s'.pollers[p].version == s.reg.services[w.name].version > w.since
            && IsSnapshot(s'.pollers[p].snap, s.reg.services[w.name].instances)
  {
    Ahead(s, p);
    var s1, s2 := WakeLeave(s, cfg, p);
    RoundOnFields(s2, cfg, p);
    s' := Step(s2, PollLock(p), cfg);
    hide Step, Ok, PollersOk, RenewedBy, LoopOk, IsSnapshot;
    StepKeepsInv(s, Wake(p), cfg);
    StepKeepsInv(s1, LeaveLock(p), cfg);
    ThreeSteps(s, Wake(p), LeaveLock(p), PollLock(p), cfg, s1, s2);
  }

  lemma {:induction false} WakeLeave(s: Sys, cfg: Config, p: nat) returns (s1: Sys, s2: Sys)
    requires Inv(s) && cfg.Ok() && Enabled(s, Wake(p)) && s.pollers[p].name in s.reg.services
    ensures s1 == Step(s, Wake(p), cfg) && Inv(s1) && Enabled(s1, LeaveLock(p))
    ensures s2 == Step(s1, LeaveLock(p), cfg) && Inv(s2) && Enabled(s2, PollLock(p))
    ensures var w := s.pollers[p];
            && s2.pollers[p] == AtTop(w.name, w.since) && w.name in s2.reg.services
            && s2.reg.services[w.name].version == s.reg.services[w.name].version
            && s2.reg.services[w.name].instances == s.reg.services[w.name].instances
  {
    hide Ok, PollersOk, RenewedBy, LoopOk;
    StepKeepsInv(s, Wake(p), cfg);
    s1 := Step(s, Wake(p), cfg);
    WayOut(s1, cfg, p);
    StepKeepsInv(s1, LeaveLock(p), cfg);
    s2 := Step(s1, LeaveLock(p), cfg);
  }

  /** A blocked poll can give up at any time, and then returns the version it came with. */
  lemma {:induction false} GiveUpReturns(s: Sys, cfg: Config, p: nat) returns (s': Sys)
    requires Inv(s) && cfg.Ok() && p < |s.pollers| && s.pollers[p].Blocked?
    ensures Reaches(s, [GiveUp(p), LeaveLock(p)], s', cfg)
    ensures p < |s'.pollers| && s'.pollers[p] == Unchanged(s.pollers[p].since)
  {
    hide Ok, PollersOk, RenewedBy, LoopOk;
    StepKeepsInv(s, GiveUp(p), cfg);
    var s1 := Step(s, GiveUp(p), cfg);
    WayOut(s1, cfg, p);
    StepKeepsInv(s1, LeaveLock(p), cfg);
    s' := Step(s1, LeaveLock(p), cfg);
    hide Step, Enabled;
    assert Reaches(s', [], s', cfg);
    assert [LeaveLock(p)][1..] == [];
    assert Reaches(s1, [LeaveLock(p)], s', cfg);
    assert [GiveUp(p), LeaveLock(p)][1..] == [LeaveLock(p)];
  }

  lemma {:induction false} ThreeSteps(s: Sys, l1: Label, l2: Label, l3: Label, cfg: Config, s1: Sys, s2: Sys)
    requires Inv(s) && cfg.Ok() && Enabled(s, l1) && s1 == Step(s, l1, cfg)
    requires Inv(s1) && Enabled(s1, l2) && s2 == Step(s1, l2, cfg) && Inv(s2) && Enabled(s2, l3)
    ensures Reaches(s, [l1, l2, l3], Step(s2, l3, cfg), cfg)
  {
    hide Step, Enabled, Ok, PollersOk, RenewedBy, LoopOk;
    StepKeepsInv(s2, l3, cfg);
    var s3 := Step(s2, l3, cfg);
    assert Reaches(s3, [], s3, cfg);
    assert [l3][1..] == [];
    assert Reaches(s2, [l3], s3, cfg);
    assert [l2, l3][1..] == [l3];
    assert Reaches(s1, [l2, l3], s3, cfg);
    assert [l1, l2, l3][1..] == [l2, l3];
  }
}
