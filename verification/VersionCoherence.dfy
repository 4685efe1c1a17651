/** What a version number says: about one entry's lifetime, and across reaping and restarts. */
module VersionCoherence {
  import opened Snapshots
  import opened RegistryState
  import opened RegistrySystem

  /** Every step but a restart evolves the registry: each entry's version moves, strictly up, exactly when
      its ID-to-address map changes (a re-registration with other metadata alone does not move it). */
  lemma {:induction false} StepEvolves(s: Sys, l: Label, cfg: Config)
    requires Inv(s) && cfg.Ok() && Enabled(s, l) && !l.Restart?
    ensures Evolves(s.reg, Step(s, l, cfg).reg)
  {
    hide Ok, PollersOk, RenewedBy, LoopOk, Register, Renew, Cancel, Sweep, Evaluate, Release, Touch, Wait, Evolves;
    match l {
      case RegisterCall(ins, wall) => RegisterEvolves(s.reg, ins, s.clock, wall);
      case RenewCall(name, id) => RenewEvolves(s.reg, name, id, s.clock);
      case CancelCall(name, id, wall) => CancelEvolves(s.reg, name, id, wall);
      case PollLock(p) => TouchEvolves(s.reg, s.pollers[p].name); WaitEvolves(s.reg, s.pollers[p].name);
      case LeaveLock(p) => ReleaseEvolves(s.reg, s.pollers[p].name);
      case SweepLock(walls) => SweepEvolves(s.reg, cfg, s.loop.protected, s.loop.now, walls);
      case EvaluateLock => EvaluateEvolves(s.reg, s.loop.count, cfg);
      case _ => NothingEvolves(s.reg);
    }
  }

  lemma {:induction false} NothingEvolves(s: State)
    requires Ok(s)
    ensures Evolves(s, s)
  {
    hide AddrMap;
  }

  /** The version half, spelled out for one entry. */
  lemma {:induction false} VersionMovesIffMembersMove(s: Sys, l: Label, cfg: Config, name: string)
    requires Inv(s) && cfg.Ok() && Enabled(s, l) && !l.Restart?
    requires name in s.reg.services && name in Step(s, l, cfg).reg.services
    ensures var svc, svc' := s.reg.services[name], Step(s, l, cfg).reg.services[name];
            && svc'.version >= svc.version
            && (svc'.version > svc.version <==> AddrMap(svc'.instances) != AddrMap(svc.instances))
  {
    hide Step, Ok, Enabled, PollersOk, AddrMap;
    StepEvolves(s, l, cfg);
    assert Tracks(s.reg.services[name], Step(s, l, cfg).reg.services[name], Step(s, l, cfg).reg.closed);
  }

  // ---------------------------------------------------------------- across lifetimes

  /** The wall-clock reading a step would use to bump service `name`. */
  ghost predicate ReadsWall(l: Label, name: string, wall: int) {
    match l
    case RegisterCall(ins, w) => ins.service == name && w == wall
    case CancelCall(n, _, w) => n == name && w == wall
    case SweepLock(walls) => walls(name) == wall
    case _ => false
  }

  /** An entry after a step: as before, or new and blank, or stamped with the step's clock reading. */
  ghost predicate Origin(s: State, l: Label, s': State, name: string)
    requires name in s'.services
  {
    || (name in s.services && s'.services[name].version == s.services[name].version
        && AddrMap(s'.services[name].instances) == AddrMap(s.services[name].instances))
    || (s'.services[name].version == 0 && s'.services[name].instances == map[])
    || (exists wall :: ReadsWall(l, name, wall) && s'.services[name].version >= wall)
  }

  lemma {:induction false} RegisterOrigin(s: State, ins: Instance, now: int, wall: int, name: string)
    requires name in Register(s, ins, now, wall).0.services
    ensures Origin(s, RegisterCall(ins, wall), Register(s, ins, now, wall).0, name)
  {
    if Complete(ins) && name == ins.service {
      assert ReadsWall(RegisterCall(ins, wall), name, wall);
      if name in s.services {
        AddrMapPut(s.services[name].instances, ins.id, Entry(ins, now));
      }
    }
  }

  lemma {:induction false} CancelOrigin(s: State, name: string, id: string, wall: int, n: string)
    requires n in Cancel(s, name, id, wall).0.services
    ensures Origin(s, CancelCall(name, id, wall), Cancel(s, name, id, wall).0, n)
  {
    if n == name {
      assert ReadsWall(CancelCall(name, id, wall), name, wall);
    }
  }

  lemma {:induction false} SweepOrigin(s: State, cfg: Config, protected: bool, now: int, walls: string -> int,
                                       name: string)
    requires name in Sweep(s, cfg, protected, now, walls).services
    ensures Origin(s, SweepLock(walls), Sweep(s, cfg, protected, now, walls), name)
  {
    hide Survivors, AddrMap;
    assert ReadsWall(SweepLock(walls), name, walls(name));
  }

  /** Steps that stamp nothing. */
  lemma {:induction false} OtherOrigin(s: State, name: string, id: string, now: int, n: string)
    ensures n in Renew(s, name, id, now).0.services ==> Origin(s, ReadFlag, Renew(s, name, id, now).0, n)
    ensures n in Touch(s, name).services ==> Origin(s, ReadFlag, Touch(s, name), n)
    ensures n in Wait(Touch(s, name), name).services ==> Origin(s, ReadFlag, Wait(Touch(s, name), name), n)
    ensures n in Release(s, name).services ==> Origin(s, ReadFlag, Release(s, name), n)
    ensures n in s.services ==> Origin(s, ReadFlag, s, n)
  {
    if Has(s, name, id) {
      AddrMapPut(s.services[name].instances, id, s.services[name].instances[id].(lastRenew := now));
    }
    hide AddrMap;
  }

  lemma {:induction false} StepOrigin(s: Sys, l: Label, cfg: Config, name: string)
    requires Inv(s) && cfg.Ok() && Enabled(s, l) && name in Step(s, l, cfg).reg.services
    ensures Origin(s.reg, l, Step(s, l, cfg).reg, name)
  {
    hide Ok, PollersOk, RenewedBy, LoopOk, Register, Renew, Cancel, Sweep, Release, Touch, Wait, AddrMap;
    match l {
      case RegisterCall(ins, wall) => RegisterOrigin(s.reg, ins, s.clock, wall, name);
      case CancelCall(n, id, wall) => CancelOrigin(s.reg, n, id, wall, name);
      case SweepLock(walls) => SweepOrigin(s.reg, cfg, s.loop.protected, s.loop.now, walls, name);
      case RenewCall(n, id) => OtherOrigin(s.reg, n, id, s.clock, name);
      case PollLock(p) => OtherOrigin(s.reg, s.pollers[p].name, "", 0, name);
      case LeaveLock(p) => OtherOrigin(s.reg, s.pollers[p].name, "", 0, name);
      case _ => OtherOrigin(s.reg, "", "", 0, name);
    }
  }

  /** A run as the list of its states, restarts included. */
  ghost predicate IsRun(run: seq<Sys>, ls: seq<Label>, cfg: Config) {
    && cfg.Ok() && |run| == |ls| + 1
    && forall i | 0 <= i < |ls| :: Inv(run[i]) && Enabled(run[i], ls[i]) && run[i + 1] == Step(run[i], ls[i], cfg)
  }

  /** At each step the wall clock reads more than every version the service has had so far. */
  ghost predicate ClockAhead(run: seq<Sys>, ls: seq<Label>) {
    forall m, i, name, wall |
      0 <= m <= i < |ls| < |run| && name in run[m].reg.services && ReadsWall(ls[i], name, wall) ::
      wall > run[m].reg.services[name].version
  }

  /** Then a version identifies the membership for good: equal versions of a service mean equal
      ID-to-address maps, even when its entry was reaped or the registry restarted in between. */
  lemma {:induction false} EqualVersionsEqualMembers(run: seq<Sys>, ls: seq<Label>, cfg: Config, i: nat, j: nat,
                                                     name: string)
    requires IsRun(run, ls, cfg) && ClockAhead(run, ls) && i <= j < |ls|
    requires name in run[i].reg.services && name in run[j].reg.services
    requires run[i].reg.services[name].version == run[j].reg.services[name].version
    ensures AddrMap(run[i].reg.services[name].instances) == AddrMap(run[j].reg.services[name].instances)
  {
    hide Step, Enabled, PollersOk, RenewedBy, LoopOk, ReadsWall;
    if i < j {
      StepOrigin(run[j - 1], ls[j - 1], cfg, name);
      if run[j].reg.services[name].version == 0 {
        BlankAtZero(run[i].reg, name);
        BlankAtZero(run[j].reg, name);
      } else if name in run[j - 1].reg.services
                && run[j].reg.services[name].version == run[j - 1].reg.services[name].version {
        EqualVersionsEqualMembers(run, ls, cfg, i, j - 1, name);
        SameVersionSameMembers(run, ls, cfg, j - 1, name);
      }
    }
  }

  lemma {:induction false} BlankAtZero(s: State, name: string)
    requires Ok(s) && name in s.services && s.services[name].version == 0
    ensures s.services[name].instances == map[]
  {}

  /** The one-step case. */
  lemma {:induction false} SameVersionSameMembers(run: seq<Sys>, ls: seq<Label>, cfg: Config, i: nat, name: string)
    requires IsRun(run, ls, cfg) && ClockAhead(run, ls) && i + 1 < |ls|
    requires name in run[i].reg.services && name in run[i + 1].reg.services
    requires run[i].reg.services[name].version == run[i + 1].reg.services[name].version
    ensures AddrMap(run[i].reg.services[name].instances) == AddrMap(run[i + 1].reg.services[name].instances)
  {
    hide Step, Enabled, PollersOk, RenewedBy, LoopOk, ReadsWall, AddrMap;
    StepOrigin(run[i], ls[i], cfg, name);
    if run[i].reg.services[name].version == 0 {
      BlankAtZero(run[i].reg, name);
      BlankAtZero(run[i + 1].reg, name);
    }
  }

  /** So a poll that blocks on version v has nothing to gain: whoever was answered with v, at whatever
      earlier point, was given the members that the registry holds now. */
  lemma {:induction false} BlockedPollIsUpToDate(run: seq<Sys>, ls: seq<Label>, cfg: Config, i: nat, j: nat, q: nat,
                                                 p: nat)
    requires IsRun(run, ls, cfg) && ClockAhead(run, ls) && i < j < |ls|
    requires ls[i] == PollLock(q) && run[i + 1].pollers[q].Answered?
    requires p < |run[j].pollers| && run[j].pollers[p].Blocked? && run[j].pollers[p].ch !in run[j].reg.closed
    requires run[i].pollers[q].name == run[j].pollers[p].name
    requires run[j].pollers[p].since == run[i + 1].pollers[q].version
    ensures var name := run[j].pollers[p].name;
            && name in run[j].reg.services && name in run[i + 1].reg.services
            && IsSnapshot(run[i + 1].pollers[q].snap, run[i + 1].reg.services[name].instances)
            && AddrMap(run[i + 1].reg.services[name].instances) == AddrMap(run[j].reg.services[name].instances)
  {
    hide AddrMap, ReadsWall;
    var name := run[j].pollers[p].name;
    AnswerIsSnapshot(run[i], q, cfg);
    assert Watches(run[j].pollers[p], run[j].reg);
    hide Step, Watches, Touch;
    EqualVersionsEqualMembers(run, ls, cfg, i + 1, j, name);
  }

  lemma {:induction false} AnswerIsSnapshot(s: Sys, q: nat, cfg: Config)
    requires Inv(s) && cfg.Ok() && Enabled(s, PollLock(q)) && Step(s, PollLock(q), cfg).pollers[q].Answered?
    ensures var s', name := Step(s, PollLock(q), cfg), s.pollers[q].name;
            && name in s'.reg.services && Filed(s'.reg.services[name].instances)
            && s'.pollers[q].snap == Snapshot(s'.reg.services[name].instances)
            && s'.pollers[q].version == s'.reg.services[name].version
  {
    PollKeepsOk(s.reg, s.pollers[q].name);
  }

  // ---------------------------------------------------------------- without that condition

  /** Without it a version can come back for other members: one run, one service, a restart between two
      registrations that the wall clock stamps with the same reading. */
  lemma {:induction false} SameStampDifferentMembers(cfg: Config) returns (run: seq<Sys>, ls: seq<Label>)
    requires cfg.Ok()
    ensures IsRun(run, ls, cfg) && |ls| == 3 && run[0] == Initial(0) && Inv(run[3])
    ensures "s" in run[1].reg.services && "s" in run[3].reg.services
    ensures run[1].reg.services["s"].version == run[3].reg.services["s"].version
    ensures AddrMap(run[1].reg.services["s"].instances) != AddrMap(run[3].reg.services["s"].instances)
  {
    hide Ok, PollersOk, RenewedBy;
    var a, b := Instance("s", "x", "1", map[]), Instance("s", "x", "2", map[]);
    InitialInv(0);
    var s0 := Initial(0);
    ls := [RegisterCall(a, 5), Restart, RegisterCall(b, 5)];
    StepKeepsInv(s0, ls[0], cfg);
    var s1 := Step(s0, ls[0], cfg);
    StepKeepsInv(s1, ls[1], cfg);
    var s2 := Step(s1, ls[1], cfg);
    StepKeepsInv(s2, ls[2], cfg);
    var s3 := Step(s2, ls[2], cfg);
    FirstRegistration(s0.reg, a, s0.clock, 5);
    FirstRegistration(s2.reg, b, s2.clock, 5);
    run := [s0, s1, s2, s3];
  }

  /** The first registration of a service's lifetime, stamped with a positive reading. */
  lemma {:induction false} FirstRegistration(s: State, ins: Instance, now: int, wall: int)
    requires Complete(ins) && ins.service !in s.services && wall > 0
    ensures ins.service in Register(s, ins, now, wall).0.services
    ensures Register(s, ins, now, wall).0.services[ins.service].version == wall
    ensures AddrMap(Register(s, ins, now, wall).0.services[ins.service].instances) == map[ins.id := ins.addr]
  {
    AddrMapPut(map[], ins.id, Entry(ins, now));
  }

  /** Every wall-clock reading that a step of `ls` would use for the service is at least `c`. */
  ghost predicate WallsAtLeast(ls: seq<Label>, name: string, c: int) {
    forall i, wall | 0 <= i < |ls| && ReadsWall(ls[i], name, wall) :: wall >= c
  }

  /** From `s`, with the service at version `v`, the same version can come to stand for other members
      although the wall clock never reads below `c`. */
  ghost predicate CanRepeat(s: Sys, name: string, c: int, cfg: Config)
    requires Inv(s) && cfg.Ok() && name in s.reg.services
  {
    exists ls, s' :: Repeats(s, name, c, cfg, ls, s')
  }

  ghost predicate Repeats(s: Sys, name: string, c: int, cfg: Config, ls: seq<Label>, s': Sys)
    requires Inv(s) && cfg.Ok() && name in s.reg.services
  {
    && Reaches(s, ls, s', cfg) && WallsAtLeast(ls, name, c)
    && name in s'.reg.services
    && s'.reg.services[name].version == s.reg.services[name].version
    && AddrMap(s'.reg.services[name].instances) != AddrMap(s.reg.services[name].instances)
  }

  /** Where a service can stand after version `v` with members `m`: still there, blank, or past `c`. */
  ghost predicate PastOrSame(s: State, name: string, v: int, m: map<string, string>, c: int) {
    name in s.services ==>
      || (s.services[name].version == v && AddrMap(s.services[name].instances) == m)
      || (s.services[name].version == 0 && s.services[name].instances == map[])
      || s.services[name].version >= c
  }

  lemma {:induction false} StepKeepsPastOrSame(s: Sys, l: Label, cfg: Config, name: string, v: int,
                                               m: map<string, string>, c: int)
    requires Inv(s) && cfg.Ok() && Enabled(s, l) && PastOrSame(s.reg, name, v, m, c)
    requires forall wall | ReadsWall(l, name, wall) :: wall >= c
    ensures PastOrSame(Step(s, l, cfg).reg, name, v, m, c)
  {
    StepKeepsInv(s, l, cfg);
    if name in Step(s, l, cfg).reg.services {
      StepOrigin(s, l, cfg, name);
      hide Step, Enabled, PollersOk, RenewedBy, LoopOk, ReadsWall;
      if Step(s, l, cfg).reg.services[name].version == 0 {
        BlankAtZero(Step(s, l, cfg).reg, name);
      }
      hide AddrMap, Ok;
    }
  }

  lemma {:induction false} RunKeepsPastOrSame(s: Sys, ls: seq<Label>, s': Sys, cfg: Config, name: string, v: int,
                                              m: map<string, string>, c: int)
    requires Inv(s) && cfg.Ok() && Reaches(s, ls, s', cfg) && PastOrSame(s.reg, name, v, m, c)
    requires WallsAtLeast(ls, name, c)
    ensures PastOrSame(s'.reg, name, v, m, c)
    decreases |ls|
  {
    hide Step, Enabled, Ok, PollersOk, RenewedBy, LoopOk, PastOrSame, ReadsWall;
    if ls != [] {
      StepKeepsInv(s, ls[0], cfg);
      StepKeepsPastOrSame(s, ls[0], cfg, name, v, m, c);
      assert forall i | 0 <= i < |ls[1..]| :: ls[1..][i] == ls[i + 1];
      RunKeepsPastOrSame(Step(s, ls[0], cfg), ls[1..], s', cfg, name, v, m, c);
    }
  }

  // Only services with a name can have members, so only they ever leave version 0.

  ghost predicate NamelessBlank(s: State) {
    "" in s.services ==> s.services[""].version == 0
  }

  lemma {:induction false} StepKeepsNamelessBlank(s: Sys, l: Label, cfg: Config)
    requires Inv(s) && cfg.Ok() && Enabled(s, l) && NamelessBlank(s.reg)
    ensures NamelessBlank(Step(s, l, cfg).reg)
  {
    hide PollersOk, RenewedBy, LoopOk, Ok, NamelessBlank, Register, Renew, Cancel, Sweep, Evaluate, Release, Round;
    match l {
      case RegisterCall(ins, wall) => RegisterKeepsBlank(s.reg, ins, s.clock, wall);
      case RenewCall(name, id) => RenewKeepsBlank(s.reg, name, id, s.clock);
      case CancelCall(name, id, wall) => CancelKeepsBlank(s.reg, name, id, wall);
      case PollLock(p) => RoundKeepsBlank(s, p);
      case LeaveLock(p) => ReleaseKeepsBlank(s.reg, s.pollers[p].name);
      case SweepLock(walls) => SweepKeepsBlank(s.reg, cfg, s.loop.protected, s.loop.now, walls);
      case EvaluateLock => EvaluateKeepsBlank(s.reg, s.loop.count, cfg);
      case Restart => NothingIsBlank(s.reg.serial, s.reg.closed);
      case _ =>
    }
  }

  lemma {:induction false} BlankIsEmpty(s: State)
    requires Ok(s) && "" in s.services
    ensures s.services[""].instances == map[]
  {
    assert ServiceOk(s.services[""], "", s);
  }

  lemma {:induction false} RegisterKeepsBlank(s: State, ins: Instance, now: int, wall: int)
    requires NamelessBlank(s)
    ensures NamelessBlank(Register(s, ins, now, wall).0)
  {}

  lemma {:induction false} RenewKeepsBlank(s: State, name: string, id: string, now: int)
    requires NamelessBlank(s)
    ensures NamelessBlank(Renew(s, name, id, now).0)
  {}

  lemma {:induction false} CancelKeepsBlank(s: State, name: string, id: string, wall: int)
    requires Ok(s) && NamelessBlank(s)
    ensures NamelessBlank(Cancel(s, name, id, wall).0)
  {
    if "" in s.services {
      BlankIsEmpty(s);
    }
    hide Ok, NextVersion;
  }

  lemma {:induction false} RoundKeepsBlank(s: Sys, p: nat)
    requires Ok(s.reg) && NamelessBlank(s.reg) && p < |s.pollers| && s.pollers[p].AtTop?
    ensures NamelessBlank(Round(s, p).reg)
  {
    hide Ok;
  }

  lemma {:induction false} ReleaseKeepsBlank(s: State, name: string)
    requires NamelessBlank(s)
    ensures NamelessBlank(Release(s, name))
  {}

  lemma {:induction false} SweepKeepsBlank(s: State, cfg: Config, protected: bool, now: int, wall: string -> int)
    requires Ok(s) && NamelessBlank(s)
    ensures NamelessBlank(Sweep(s, cfg, protected, now, wall))
  {
    if "" in s.services {
      BlankIsEmpty(s);
      assert Survivors(map[], cfg, protected, now) == map[];
    }
    hide Ok, NextVersion, Expired, Survivors;
  }

  lemma {:induction false} EvaluateKeepsBlank(s: State, count: int, cfg: Config)
    requires cfg.Ok() && NamelessBlank(s)
    ensures NamelessBlank(Evaluate(s, count, cfg))
  {}

  lemma {:induction false} NothingIsBlank(serial: nat, closed: set<Chan>)
    ensures NamelessBlank(EMPTY.(serial := serial, closed := closed))
  {}

  lemma {:induction false} RunKeepsNamelessBlank(s: Sys, ls: seq<Label>, s': Sys, cfg: Config)
    requires Inv(s) && cfg.Ok() && Reaches(s, ls, s', cfg) && NamelessBlank(s.reg)
    ensures NamelessBlank(s'.reg)
    decreases |ls|
  {
    hide Step, Enabled, Ok, PollersOk, RenewedBy, LoopOk, NamelessBlank;
    if ls != [] {
      StepKeepsInv(s, ls[0], cfg);
      StepKeepsNamelessBlank(s, ls[0], cfg);
      RunKeepsNamelessBlank(Step(s, ls[0], cfg), ls[1..], s', cfg);
    }
  }

  lemma {:induction false} TwoSteps(s: Sys, l1: Label, l2: Label, cfg: Config) returns (s1: Sys, s2: Sys)
    requires Inv(s) && cfg.Ok() && Enabled(s, l1) && Enabled(Step(s, l1, cfg), l2)
    ensures Inv(s1) && s1 == Step(s, l1, cfg) && s2 == Step(s1, l2, cfg) && Reaches(s, [l1, l2], s2, cfg)
  {
    hide Ok, PollersOk, RenewedBy, LoopOk, Step, Enabled;
    s1 := Step(s, l1, cfg);
    StepKeepsInv(s, l1, cfg);
    StepKeepsInv(s1, l2, cfg);
    s2 := Step(s1, l2, cfg);
    assert [l1, l2][1..] == [l2] && [l2][1..] == [];
    assert Reaches(s2, [], s2, cfg);
    assert Reaches(s1, [l2], s2, cfg);
  }

  lemma {:induction false} OtherAddress(m: map<string, string>) returns (addr: string)
    ensures addr != "" && map["x" := addr] != m
  {
    addr := if m == map["x" := "1"] then "2" else "1";
    assert map["x" := "2"]["x"] != map["x" := "1"]["x"];
  }

  /** A restart, and a registration of somebody else at the very reading the version was made from. */
  lemma {:induction false} RestartRepeats(s: Sys, name: string, c: int, cfg: Config)
    requires Inv(s) && cfg.Ok() && name in s.reg.services && name != ""
    requires s.reg.services[name].version > 0 && c <= s.reg.services[name].version
    ensures CanRepeat(s, name, c, cfg)
  {
    hide Ok, PollersOk, RenewedBy, LoopOk, Register, AddrMap, Reaches;
    var v := s.reg.services[name].version;
    var addr := OtherAddress(AddrMap(s.reg.services[name].instances));
    var ins := Instance(name, "x", addr, map[]);
    var s1, s2 := TwoSteps(s, Restart, RegisterCall(ins, v), cfg);
    FirstRegistration(s1.reg, ins, s1.clock, v);
    assert Repeats(s, name, c, cfg, [Restart, RegisterCall(ins, v)], s2);
  }

  lemma {:induction false} NoRepeat(s: Sys, ls: seq<Label>, s': Sys, name: string, c: int, cfg: Config)
    requires Inv(s) && cfg.Ok() && Reaches(s, ls, s', cfg) && WallsAtLeast(ls, name, c)
    requires name in s.reg.services && name in s'.reg.services
    requires s'.reg.services[name].version == s.reg.services[name].version
    requires s.reg.services[name].version < c || s.reg.services[name].version == 0
    ensures AddrMap(s'.reg.services[name].instances) == AddrMap(s.reg.services[name].instances)
  {
    hide Inv, Reaches, AddrMap;
    RunKeepsInv(s, ls, s', cfg);
    if s.reg.services[name].version == 0 {
      InvBlankAtZero(s, name);
      InvBlankAtZero(s', name);
    } else {
      RunKeepsPastOrSame(s, ls, s', cfg, name, s.reg.services[name].version, AddrMap(s.reg.services[name].instances),
                         c);
    }
  }

  /** The exact condition. A service at version v can come back at v with other members if and only if
      the wall clock may yet read v or less (and v was ever stamped at all): then, and only then, the guard
      of `bumpLocked` does not keep the new stamp apart from the old one. */
  lemma {:induction false} VersionCanRepeatIff(clock: int, pre: seq<Label>, s: Sys, name: string, c: int, cfg: Config)
    requires cfg.Ok() && Inv(Initial(clock)) && Reaches(Initial(clock), pre, s, cfg)
    requires Inv(s) && name in s.reg.services
    ensures CanRepeat(s, name, c, cfg) <==> s.reg.services[name].version > 0 && c <= s.reg.services[name].version
  {
    hide Inv, Reaches, AddrMap;
    var v := s.reg.services[name].version;
    RunKeepsNamelessBlank(Initial(clock), pre, s, cfg);
    VersionNonnegative(s, name);
    if v > 0 && c <= v {
      RestartRepeats(s, name, c, cfg);
    } else {
      forall ls, s' ensures !Repeats(s, name, c, cfg, ls, s') {
        if Repeats(s, name, c, cfg, ls, s') {
          NoRepeat(s, ls, s', name, c, cfg);
        }
      }
    }
  }

  lemma {:induction false} VersionNonnegative(s: Sys, name: string)
    requires Inv(s) && name in s.reg.services
    ensures s.reg.services[name].version >= 0
  {}

  lemma {:induction false} InvBlankAtZero(s: Sys, name: string)
    requires Inv(s) && name in s.reg.services && s.reg.services[name].version == 0
    ensures s.reg.services[name].instances == map[]
  {}
}
