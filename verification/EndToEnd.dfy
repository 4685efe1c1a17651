/** Registry, subscription, mailbox and resolver together: what gRPC is told about one service, over every
    interleaving of their steps, with polls lost at any point, registry restarts, and rejected updates. */
module EndToEnd {
  import opened Snapshots
  import opened RegistryState
  import opened VersionCoherence
  import opened Wrappers
  import Registry = RegistrySystem
  import M = Mailbox
  import Resolver
  import W = Watcher

  /** A snapshot with its version, stamped with the index of the registry state it was taken from. */
  datatype Stamped = Stamped(snap: seq<Instance>, version: int, at: nat)

  /** The subscription's poll: none, or the registry's poll number `tid`, whose answer may be on its way. */
  datatype Poll = NoPoll | Polling(tid: nat, answer: Option<Stamped>)

  /** `past`: every state the registry has been in, the last one is now; `did`: the steps between them.
      `held`: the snapshot the resolver has received and not yet dealt with; `lastAt`, `ats`: the stamps
      of the resolver's last list and of the lists gRPC accepted. */
  datatype World = World(past: seq<Registry.Sys>, did: seq<Registry.Label>, poll: Poll, version: int,
                         box: M.Box<Stamped>, held: Option<Stamped>, conn: Resolver.Conn, lastAt: nat, ats: seq<nat>)

  datatype Label =
    | AtRegistry(l: Registry.Label)   // any step of the registry, other callers and polls included
    | Ask                             // the subscription sends a poll with the version it has
    | AnswerArrives
    | PollEnds                        // not modified, an error, a lost answer, a timeout
    | TrySend
    | Drain
    | Send
    | Stop                            // the subscription is over; the mailbox is closed
    | Receive
    | Offer(ok: bool)                 // the resolver deals with the snapshot it holds
    | AskedToResolve(ok: bool)

  ghost function Start(clock: int): World {
    World([Registry.Initial(clock)], [], NoPoll, 0, M.Start(), None, Resolver.Conn([], []), 0, [])
  }

  ghost function Now(w: World): Registry.Sys
    requires w.past != []
  {
    w.past[|w.past|-1]
  }

  ghost predicate Enabled(w: World, l: Label)
    requires w.past != []
  {
    match l
    case AtRegistry(r) => Registry.Enabled(Now(w), r)
    case Ask => w.poll.NoPoll? && w.box.producer.Ready?
    case AnswerArrives => w.poll.Polling? && w.poll.answer.Some? && w.box.producer.Ready?
    case PollEnds => w.poll.Polling?
    case TrySend => M.Enabled(w.box, M.TrySend)
    case Drain => M.Enabled(w.box, M.Drain)
    case Send => M.Enabled(w.box, M.Send)
    case Stop => w.poll.NoPoll? && M.Enabled(w.box, M.Close)
    case Receive => M.Enabled(w.box, M.Receive) && w.held.None?
    case Offer(_) => w.held.Some?
    case AskedToResolve(_) => true
  }

  /** The registry moves; a poll of ours that it answers is stamped with the new state's index. */
  ghost function Move(w: World, r: Registry.Label, cfg: Config): World
    requires w.past != [] && Registry.Enabled(Now(w), r) && Ok(Now(w).reg) && cfg.Ok()
  {
    var s := Registry.Step(Now(w), r, cfg);
    var answered := w.poll.Polling? && w.poll.answer.None? && w.poll.tid < |s.pollers|
        && s.pollers[w.poll.tid].Answered?;
    w.(past := w.past + [s], did := w.did + [r],
       poll := if answered
               then Polling(w.poll.tid,
                            Some(Stamped(s.pollers[w.poll.tid].snap, s.pollers[w.poll.tid].version, |w.past|)))
               else w.poll)
  }

  ghost function Asked(w: World, service: string, cfg: Config): World
    requires w.past != [] && Ok(Now(w).reg) && cfg.Ok()
  {
    Move(w, Registry.NewPoll(service, w.version), cfg).(poll := Polling(|Now(w).pollers|, None))
  }

  ghost function Answered(w: World): World
    requires w.poll.Polling? && w.poll.answer.Some? && w.box.producer.Ready?
  {
    w.(poll := NoPoll, version := w.poll.answer.value.version, box := M.Step(w.box, M.Produce(w.poll.answer.value)))
  }

  ghost function InMailbox(w: World, m: M.Label<Stamped>): World
    requires M.Enabled(w.box, m)
  {
    w.(box := M.Step(w.box, m))
  }

  ghost function Received(w: World): World
    requires M.Enabled(w.box, M.Receive)
  {
    InMailbox(w, M.Receive).(held := w.box.chan)
  }

  ghost function Stamps(ats: seq<nat>, ok: bool, at: nat): seq<nat> {
    if ok then ats + [at] else ats
  }

  ghost function Offered(w: World, ok: bool): World
    requires w.held.Some?
  {
    var x := w.held.value;
    if x.snap == [] then w.(held := None)
    else w.(held := None, conn := Resolver.Take(w.conn, x.snap, ok), lastAt := x.at, ats := Stamps(w.ats, ok, x.at))
  }

  ghost function Resolved(w: World, ok: bool): World {
    w.(conn := Resolver.Resolve(w.conn, ok), ats := Stamps(w.ats, ok && w.conn.last != [], w.lastAt))
  }

  ghost function Step(w: World, l: Label, service: string, cfg: Config): World
    requires w.past != [] && Enabled(w, l) && Ok(Now(w).reg) && cfg.Ok()
  {
    match l
    case AtRegistry(r) => Move(w, r, cfg)
    case Ask => Asked(w, service, cfg)
    case AnswerArrives => Answered(w)
    case PollEnds => w.(poll := NoPoll)
    case TrySend => InMailbox(w, M.TrySend)
    case Drain => InMailbox(w, M.Drain)
    case Send => InMailbox(w, M.Send)
    case Stop => InMailbox(w, M.Close)
    case Receive => Received(w)
    case Offer(ok) => Offered(w, ok)
    case AskedToResolve(ok) => Resolved(w, ok)
  }

  // ---------------------------------------------------------------- the invariant

  /** At state `at` the registry held these very instances for the service. */
  ghost predicate Held(snap: seq<Instance>, at: nat, service: string, past: seq<Registry.Sys>) {
    && at < |past| && service in past[at].reg.services
    && Filed(past[at].reg.services[service].instances)
    && snap == Snapshot(past[at].reg.services[service].instances)
  }

  ghost predicate Genuine(x: Stamped, service: string, past: seq<Registry.Sys>) {
    Held(x.snap, x.at, service, past) && x.version == past[x.at].reg.services[service].version
  }

  /** `addrs` is the non-empty, ID-ordered address list of what the registry held at state `at`. */
  ghost predicate Listed(addrs: seq<string>, at: nat, service: string, past: seq<Registry.Sys>) {
    addrs != [] && exists snap :: Held(snap, at, service, past) && addrs == Addrs(snap)
  }

  ghost predicate RegistryOk(past: seq<Registry.Sys>, did: seq<Registry.Label>, cfg: Config) {
    past != [] && IsRun(past, did, cfg) && Registry.Inv(past[|past|-1])
  }

  /** An unanswered poll of ours asks for our service with our version. */
  ghost predicate Ours(p: Registry.Poller, service: string, version: int) {
    match p
    case AtTop(name, since) => name == service && since == version
    case Blocked(name, since, _) => name == service && since == version
    case Leaving(name, since, _) => name == service && since == version
    case Answered(_, _) => false
    case _ => true
  }

  /** Only an idle subscription polls. */
  ghost predicate PollOk(poll: Poll, producer: M.Producer<Stamped>, now: Registry.Sys, service: string, version: int) {
    poll.Polling? ==>
      && producer.Ready?
      && poll.tid < |now.pollers|
      && (poll.answer.None? ==> Ours(now.pollers[poll.tid], service, version))
  }

  /** The version is that of the newest snapshot polled. */
  ghost predicate VersionOk(version: int, polled: seq<Stamped>, service: string, past: seq<Registry.Sys>) {
    if polled == [] then version == 0
    else polled[|polled|-1].version == version && Genuine(polled[|polled|-1], service, past)
  }

  ghost predicate ItemsOk(w: World, service: string, past: seq<Registry.Sys>) {
    && (w.poll.Polling? && w.poll.answer.Some? ==> Genuine(w.poll.answer.value, service, past))
    && (M.Busy(w.box.producer) ==> Genuine(w.box.producer.x, service, past))
    && (w.box.chan.Some? ==> Genuine(w.box.chan.value, service, past))
    && (w.held.Some? ==> Genuine(w.held.value, service, past))
  }

  function HeldAt(w: World): int { if w.held.Some? then w.held.value.at else w.lastAt }
  function BufferedAt(w: World): int { if w.box.chan.Some? then w.box.chan.value.at else HeldAt(w) }
  function SendingAt(w: World): int { if M.Busy(w.box.producer) then w.box.producer.x.at else BufferedAt(w) }
  function AnswerAt(w: World): int {
    if w.poll.Polling? && w.poll.answer.Some? then w.poll.answer.value.at else SendingAt(w)
  }

  /** From the resolver back to the registry, snapshots get newer. */
  predicate InOrder(w: World) {
    w.lastAt <= HeldAt(w) <= BufferedAt(w) <= SendingAt(w) <= AnswerAt(w) < |w.past|
  }

  ghost predicate ConnOk(conn: Resolver.Conn, lastAt: nat, ats: seq<nat>, service: string, past: seq<Registry.Sys>) {
    && (conn.last != [] ==> Listed(conn.last, lastAt, service, past))
    && |ats| == |conn.accepted|
    && (forall i | 0 <= i < |ats| :: Listed(conn.accepted[i], ats[i], service, past) && ats[i] <= lastAt)
    && (forall i, j | 0 <= i < j < |ats| :: ats[i] <= ats[j])
  }

  /** The resolver's list follows what it received. */
  ghost predicate FollowsOk(received: seq<Stamped>, held: Option<Stamped>, last: seq<string>) {
    && (held.Some? ==> received != [] && received[|received|-1] == held.value)
    && (held.None? && received != [] && received[|received|-1].snap != [] ==>
          last == Addrs(received[|received|-1].snap))
  }

  ghost predicate Inv(w: World, service: string, cfg: Config) {
    && RegistryOk(w.past, w.did, cfg)
    && PollOk(w.poll, w.box.producer, Now(w), service, w.version)
    && VersionOk(w.version, w.box.polled, service, w.past)
    && ItemsOk(w, service, w.past)
    && InOrder(w)
    && ConnOk(w.conn, w.lastAt, w.ats, service, w.past)
    && FollowsOk(w.box.received, w.held, w.conn.last)
    && M.Inv(w.box)
  }

  // ---------------------------------------------------------------- the registry moves

  lemma {:induction false} RegistryRunsOn(past: seq<Registry.Sys>, did: seq<Registry.Label>, r: Registry.Label,
                                          cfg: Config)
    requires RegistryOk(past, did, cfg) && Registry.Enabled(past[|past|-1], r)
    ensures RegistryOk(past + [Registry.Step(past[|past|-1], r, cfg)], did + [r], cfg)
  {
    hide Registry.Step, Registry.Enabled, Ok, Registry.PollersOk, Registry.RenewedBy, Registry.LoopOk;
    Registry.StepKeepsInv(past[|past|-1], r, cfg);
  }

  lemma {:induction false} HeldLater(snap: seq<Instance>, at: nat, service: string, past: seq<Registry.Sys>,
                                     s: Registry.Sys)
    requires Held(snap, at, service, past)
    ensures Held(snap, at, service, past + [s])
  {
    hide Filed;
  }

  lemma {:induction false} GenuineLater(x: Stamped, service: string, past: seq<Registry.Sys>, s: Registry.Sys)
    requires Genuine(x, service, past)
    ensures Genuine(x, service, past + [s])
  {
    HeldLater(x.snap, x.at, service, past, s);
    hide Held;
  }

  lemma {:induction false} ListedLater(addrs: seq<string>, at: nat, service: string, past: seq<Registry.Sys>,
                                       s: Registry.Sys)
    requires Listed(addrs, at, service, past)
    ensures Listed(addrs, at, service, past + [s])
  {
    hide Held, Addrs;
    var snap :| Held(snap, at, service, past) && addrs == Addrs(snap);
    HeldLater(snap, at, service, past, s);
  }

  /** What holds of our items and lists goes on holding as the past grows. */
  lemma {:induction false} PastGrows(w: World, s: Registry.Sys, service: string)
    requires VersionOk(w.version, w.box.polled, service, w.past) && ItemsOk(w, service, w.past)
    requires ConnOk(w.conn, w.lastAt, w.ats, service, w.past)
    ensures VersionOk(w.version, w.box.polled, service, w.past + [s]) && ItemsOk(w, service, w.past + [s])
    ensures ConnOk(w.conn, w.lastAt, w.ats, service, w.past + [s])
  {
    hide Genuine, Listed;
    forall x | Genuine(x, service, w.past) ensures Genuine(x, service, w.past + [s]) {
      GenuineLater(x, service, w.past, s);
    }
    forall addrs, at: nat | Listed(addrs, at, service, w.past) ensures Listed(addrs, at, service, w.past + [s]) {
      ListedLater(addrs, at, service, w.past, s);
    }
  }

  /** Over a registry step our poll stays ours, or is answered with what the registry holds then. */
  lemma {:induction false} PollProgress(s: Registry.Sys, r: Registry.Label, cfg: Config, tid: nat, service: string,
                                        version: int)
    requires Registry.Inv(s) && cfg.Ok() && Registry.Enabled(s, r)
    requires tid < |s.pollers| && Ours(s.pollers[tid], service, version)
    ensures var s' := Registry.Step(s, r, cfg);
            && tid < |s'.pollers|
            && (s'.pollers[tid].Answered? || Ours(s'.pollers[tid], service, version))
            && (s'.pollers[tid].Answered? ==>
                  Held(s'.pollers[tid].snap, 0, service, [s'])
                      && s'.pollers[tid].version == s'.reg.services[service].version)
  {
    if r == Registry.PollLock(tid) {
      AnswerOrBlock(s, cfg, tid, service, version);
    } else {
      OtherStepsKeepOurs(s, r, cfg, tid, service, version);
    }
  }

  lemma {:induction false} AnswerOrBlock(s: Registry.Sys, cfg: Config, tid: nat, service: string, version: int)
    requires Registry.Inv(s) && cfg.Ok() && Registry.Enabled(s, Registry.PollLock(tid))
    requires Ours(s.pollers[tid], service, version)
    ensures var s' := Registry.Step(s, Registry.PollLock(tid), cfg);
            && tid < |s'.pollers|
            && (s'.pollers[tid].Answered? || Ours(s'.pollers[tid], service, version))
            && (s'.pollers[tid].Answered? ==>
                  Held(s'.pollers[tid].snap, 0, service, [s'])
                      && s'.pollers[tid].version == s'.reg.services[service].version)
  {
    hide Ok, Registry.PollersOk, Registry.RenewedBy, Registry.LoopOk, Touch, Wait, Filed;
    if Registry.Step(s, Registry.PollLock(tid), cfg).pollers[tid].Answered? {
      AnswerIsSnapshot(s, tid, cfg);
    }
  }

  lemma {:induction false} OtherStepsKeepOurs(s: Registry.Sys, r: Registry.Label, cfg: Config, tid: nat,
                                              service: string, version: int)
    requires Ok(s.reg) && cfg.Ok() && Registry.Enabled(s, r) && r != Registry.PollLock(tid)
    requires tid < |s.pollers| && Ours(s.pollers[tid], service, version)
    ensures var s' := Registry.Step(s, r, cfg); tid < |s'.pollers| && Ours(s'.pollers[tid], service, version)
  {
    hide Ok, Register, Renew, Cancel, Sweep, Evaluate, Release, Touch, Wait;
  }

  lemma {:induction false} MoveKeepsInv(w: World, r: Registry.Label, service: string, cfg: Config)
    requires Inv(w, service, cfg) && cfg.Ok() && Registry.Enabled(Now(w), r)
    ensures Inv(Move(w, r, cfg), service, cfg)
  {
    hide Registry.Step, Registry.Enabled, Ok, RegistryOk, PollOk, VersionOk, ItemsOk, ConnOk, FollowsOk, M.Inv;
    RegistryIsOk(w, cfg);
    RegistryRunsOn(w.past, w.did, r, cfg);
    PastGrows(w, Registry.Step(Now(w), r, cfg), service);
    MoveKeepsPoll(w, r, service, cfg);
  }

  lemma {:induction false} RegistryIsOk(w: World, cfg: Config)
    requires RegistryOk(w.past, w.did, cfg)
    ensures w.past != [] && cfg.Ok() && Registry.Inv(Now(w)) && Ok(Now(w).reg)
  {}

  lemma {:induction false} MoveKeepsPoll(w: World, r: Registry.Label, service: string, cfg: Config)
    requires w.past != [] && Registry.Inv(Now(w)) && cfg.Ok() && Registry.Enabled(Now(w), r)
    requires PollOk(w.poll, w.box.producer, Now(w), service, w.version) && InOrder(w)
    requires ItemsOk(w, service, w.past + [Registry.Step(Now(w), r, cfg)])
    ensures var w' := Move(w, r, cfg);
            && PollOk(w'.poll, w'.box.producer, Now(w'), service, w'.version)
            && ItemsOk(w', service, w'.past) && InOrder(w')
  {
    PollersOnlyGrow(Now(w), r, cfg);
    hide Registry.Step, Registry.Enabled, Registry.Inv, InOrder, ItemsOk, PollOk;
    if w.poll.Polling? && w.poll.answer.None? {
      AskedMoves(w, r, service, cfg);
    } else {
      RestMoves(w, r, service, cfg);
    }
  }

  lemma {:induction false} RestMoves(w: World, r: Registry.Label, service: string, cfg: Config)
    requires w.past != [] && Ok(Now(w).reg) && cfg.Ok() && Registry.Enabled(Now(w), r)
    requires !(w.poll.Polling? && w.poll.answer.None?)
    requires PollOk(w.poll, w.box.producer, Now(w), service, w.version) && InOrder(w)
    requires ItemsOk(w, service, w.past + [Registry.Step(Now(w), r, cfg)])
    requires |Registry.Step(Now(w), r, cfg).pollers| >= |Now(w).pollers|
    ensures var w' := Move(w, r, cfg);
            && PollOk(w'.poll, w'.box.producer, Now(w'), service, w'.version)
            && ItemsOk(w', service, w'.past) && InOrder(w')
  {
    hide Registry.Step, Registry.Enabled, Genuine, Ours, Ok;
  }

  lemma {:induction false} AskedMoves(w: World, r: Registry.Label, service: string, cfg: Config)
    requires w.past != [] && Registry.Inv(Now(w)) && cfg.Ok() && Registry.Enabled(Now(w), r)
    requires w.poll.Polling? && w.poll.answer.None?
    requires PollOk(w.poll, w.box.producer, Now(w), service, w.version) && InOrder(w)
    requires ItemsOk(w, service, w.past + [Registry.Step(Now(w), r, cfg)])
    ensures var w' := Move(w, r, cfg);
            && PollOk(w'.poll, w'.box.producer, Now(w'), service, w'.version)
            && ItemsOk(w', service, w'.past) && InOrder(w')
  {
    var s := Registry.Step(Now(w), r, cfg);
    PollProgress(Now(w), r, cfg, w.poll.tid, service, w.version);
    hide Registry.Step, Registry.Enabled, Registry.Inv, Genuine, Ours, Held, InOrder, ItemsOk;
    if s.pollers[w.poll.tid].Answered? {
      AnswerArrives(w, r, service, cfg);
      NotOurs(s.pollers[w.poll.tid], service, w.version);
    } else {
      assert Move(w, r, cfg) == w.(past := w.past + [s], did := w.did + [r]);
      LongerPast(w, w.past + [s], w.did + [r], service);
    }
  }

  lemma {:induction false} LongerPast(w: World, past: seq<Registry.Sys>, did: seq<Registry.Label>, service: string)
    requires InOrder(w) && |w.past| <= |past| && ItemsOk(w, service, past)
    ensures InOrder(w.(past := past, did := did)) && ItemsOk(w.(past := past, did := did), service, past)
  {
    hide Genuine;
  }

  lemma {:induction false} AnswerArrives(w: World, r: Registry.Label, service: string, cfg: Config)
    requires w.past != [] && Ok(Now(w).reg) && cfg.Ok() && Registry.Enabled(Now(w), r)
    requires w.poll.Polling? && w.poll.answer.None? && InOrder(w)
    requires ItemsOk(w, service, w.past + [Registry.Step(Now(w), r, cfg)])
    requires var s := Registry.Step(Now(w), r, cfg);
             && w.poll.tid < |s.pollers| && s.pollers[w.poll.tid].Answered?
             && Held(s.pollers[w.poll.tid].snap, 0, service, [s])
             && s.pollers[w.poll.tid].version == s.reg.services[service].version
    ensures ItemsOk(Move(w, r, cfg), service, w.past + [Registry.Step(Now(w), r, cfg)]) && InOrder(Move(w, r, cfg))
  {
    hide Registry.Step, Registry.Enabled, Genuine, Ok;
    FreshAnswer(w, Registry.Step(Now(w), r, cfg), service);
    hide Held;
  }

  lemma {:induction false} NotOurs(p: Registry.Poller, service: string, version: int)
    requires p.Answered?
    ensures !Ours(p, service, version)
  {}

  lemma {:induction false} FreshAnswer(w: World, s: Registry.Sys, service: string)
    requires w.poll.Polling? && w.poll.tid < |s.pollers| && s.pollers[w.poll.tid].Answered?
    requires Held(s.pollers[w.poll.tid].snap, 0, service, [s])
    requires s.pollers[w.poll.tid].version == s.reg.services[service].version
    ensures Genuine(Stamped(s.pollers[w.poll.tid].snap, s.pollers[w.poll.tid].version, |w.past|), service, w.past + [s])
  {
    hide Filed;
    assert (w.past + [s])[|w.past|] == [s][0];
  }

  lemma {:induction false} PollersOnlyGrow(s: Registry.Sys, r: Registry.Label, cfg: Config)
    requires Ok(s.reg) && cfg.Ok() && Registry.Enabled(s, r)
    ensures |Registry.Step(s, r, cfg).pollers| >= |s.pollers|
  {
    hide Ok, Register, Renew, Cancel, Sweep, Evaluate, Release, Touch, Wait;
  }

  lemma {:induction false} AskKeepsInv(w: World, service: string, cfg: Config)
    requires Inv(w, service, cfg) && cfg.Ok() && w.poll.NoPoll? && w.box.producer.Ready?
    ensures Inv(Asked(w, service, cfg), service, cfg)
  {
    hide Ok, RegistryOk, VersionOk, ConnOk, FollowsOk, M.Inv, Genuine;
    RegistryIsOk(w, cfg);
    var r := Registry.NewPoll(service, w.version);
    assert Registry.Enabled(Now(w), r);
    MoveKeepsInv(w, r, service, cfg);
    assert Registry.Step(Now(w), r, cfg).pollers == Now(w).pollers + [Registry.AtTop(service, w.version)];
    hide Registry.Step, Registry.Enabled;
    assert Now(Move(w, r, cfg)) == Registry.Step(Now(w), r, cfg);
  }

  // ---------------------------------------------------------------- the client moves

  lemma {:induction false} AnswerKeepsInv(w: World, service: string, cfg: Config)
    requires Inv(w, service, cfg) && w.poll.Polling? && w.poll.answer.Some? && w.box.producer.Ready?
    ensures Inv(Answered(w), service, cfg)
  {
    hide RegistryOk, Genuine, ConnOk, FollowsOk, M.Inv;
    M.StepKeepsInv(w.box, M.Produce(w.poll.answer.value));
  }

  lemma {:induction false} PollEndKeepsInv(w: World, service: string, cfg: Config)
    requires Inv(w, service, cfg)
    ensures Inv(w.(poll := NoPoll), service, cfg)
  {
    hide RegistryOk, VersionOk, Genuine, ConnOk, FollowsOk, M.Inv;
  }

  lemma {:induction false} MailboxKeepsInv(w: World, m: M.Label<Stamped>, service: string, cfg: Config)
    requires Inv(w, service, cfg) && M.Enabled(w.box, m)
    requires m.TrySend? || m.Drain? || m.Send? || (m.Close? && w.poll.NoPoll?)
    ensures Inv(InMailbox(w, m), service, cfg)
  {
    hide RegistryOk, VersionOk, PollOk, ItemsOk, ConnOk, FollowsOk, M.Inv, M.Enabled, InOrder, M.Step;
    M.StepKeepsInv(w.box, m);
    MailboxOnlyMoves(w.box, m);
    MailboxKeepsItems(w, m, service);
    MailboxKeepsOrder(w, m);
    MailboxKeepsPoll(w, m, service);
  }

  lemma {:induction false} MailboxOnlyMoves(b: M.Box<Stamped>, m: M.Label<Stamped>)
    requires M.Enabled(b, m) && (m.TrySend? || m.Drain? || m.Send? || m.Close?)
    ensures M.Step(b, m).polled == b.polled && M.Step(b, m).received == b.received
  {}

  lemma {:induction false} MailboxKeepsItems(w: World, m: M.Label<Stamped>, service: string)
    requires ItemsOk(w, service, w.past) && M.Enabled(w.box, m) && (m.TrySend? || m.Drain? || m.Send? || m.Close?)
    ensures ItemsOk(InMailbox(w, m), service, w.past)
  {
    hide Genuine;
  }

  lemma {:induction false} MailboxKeepsOrder(w: World, m: M.Label<Stamped>)
    requires InOrder(w) && M.Enabled(w.box, m) && (m.TrySend? || m.Drain? || m.Send? || m.Close?)
    ensures InOrder(InMailbox(w, m))
  {}

  lemma {:induction false} MailboxKeepsPoll(w: World, m: M.Label<Stamped>, service: string)
    requires w.past != [] && PollOk(w.poll, w.box.producer, Now(w), service, w.version) && M.Enabled(w.box, m)
    requires m.TrySend? || m.Drain? || m.Send? || (m.Close? && w.poll.NoPoll?)
    ensures PollOk(w.poll, InMailbox(w, m).box.producer, Now(w), service, w.version)
  {
    hide Ours;
  }

  lemma {:induction false} ReceiveKeepsInv(w: World, service: string, cfg: Config)
    requires Inv(w, service, cfg) && M.Enabled(w.box, M.Receive) && w.held.None?
    ensures Inv(Received(w), service, cfg)
  {
    hide RegistryOk, VersionOk, Genuine, ConnOk, M.Inv;
    M.StepKeepsInv(w.box, M.Receive);
  }

  lemma {:induction false} OfferKeepsInv(w: World, ok: bool, service: string, cfg: Config)
    requires Inv(w, service, cfg) && w.held.Some?
    ensures Inv(Offered(w, ok), service, cfg)
  {
    hide RegistryOk, VersionOk, PollOk, Genuine, M.Inv, ConnOk, Addrs;
    var x := w.held.value;
    if x.snap != [] {
      GenuineIsListed(x, service, w.past);
      OfferKeepsConn(w.conn, w.lastAt, w.ats, x, ok, service, w.past);
    }
  }

  lemma {:induction false} GenuineIsListed(x: Stamped, service: string, past: seq<Registry.Sys>)
    requires Genuine(x, service, past) && x.snap != []
    ensures Listed(Addrs(x.snap), x.at, service, past)
  {}

  lemma {:induction false} OfferKeepsConn(conn: Resolver.Conn, lastAt: nat, ats: seq<nat>, x: Stamped, ok: bool,
                                          service: string, past: seq<Registry.Sys>)
    requires ConnOk(conn, lastAt, ats, service, past) && x.snap != [] && lastAt <= x.at
    requires Listed(Addrs(x.snap), x.at, service, past)
    ensures ConnOk(Resolver.Take(conn, x.snap, ok), x.at, Stamps(ats, ok, x.at), service, past)
  {
    hide Listed, Addrs;
  }

  lemma {:induction false} ResolveKeepsInv(w: World, ok: bool, service: string, cfg: Config)
    requires Inv(w, service, cfg)
    ensures Inv(Resolved(w, ok), service, cfg)
  {
    hide RegistryOk, VersionOk, PollOk, Genuine, M.Inv, Listed, Addrs;
  }

  lemma {:induction false} StepKeepsInv(w: World, l: Label, service: string, cfg: Config)
    requires Inv(w, service, cfg) && cfg.Ok() && Enabled(w, l)
    ensures Inv(Step(w, l, service, cfg), service, cfg)
  {
    hide RegistryOk, PollOk, VersionOk, ItemsOk, InOrder, ConnOk, FollowsOk, M.Inv, Ok, M.Enabled;
    hide Move, Asked, Answered, InMailbox, Received, Offered, Resolved, Registry.Enabled;
    RegistryIsOk(w, cfg);
    match l {
      case AtRegistry(r) => MoveKeepsInv(w, r, service, cfg);
      case Ask => AskKeepsInv(w, service, cfg);
      case AnswerArrives => AnswerKeepsInv(w, service, cfg);
      case PollEnds => PollEndKeepsInv(w, service, cfg);
      case TrySend => MailboxKeepsInv(w, M.TrySend, service, cfg);
      case Drain => MailboxKeepsInv(w, M.Drain, service, cfg);
      case Send => MailboxKeepsInv(w, M.Send, service, cfg);
      case Stop => MailboxKeepsInv(w, M.Close, service, cfg);
      case Receive => ReceiveKeepsInv(w, service, cfg);
      case Offer(ok) => OfferKeepsInv(w, ok, service, cfg);
      case AskedToResolve(ok) => ResolveKeepsInv(w, ok, service, cfg);
    }
  }

  // ---------------------------------------------------------------- runs

  ghost predicate Reaches(w: World, ls: seq<Label>, w': World, service: string, cfg: Config)
    requires Inv(w, service, cfg) && cfg.Ok()
    decreases |ls|
  {
    if ls == [] then w' == w
    else
      && Enabled(w, ls[0])
      && (StepKeepsInv(w, ls[0], service, cfg); Reaches(Step(w, ls[0], service, cfg), ls[1..], w', service, cfg))
  }

  lemma {:induction false} StartInv(clock: int, service: string, cfg: Config)
    requires cfg.Ok()
    ensures Inv(Start(clock), service, cfg)
  {
    Registry.InitialInv(clock);
    hide Registry.Inv, Registry.Initial;
  }

  lemma {:induction false} RunKeepsInv(w: World, ls: seq<Label>, w': World, service: string, cfg: Config)
    requires Inv(w, service, cfg) && cfg.Ok() && Reaches(w, ls, w', service, cfg)
    ensures Inv(w', service, cfg)
    decreases |ls|
  {
    hide RegistryOk, PollOk, VersionOk, ItemsOk, InOrder, ConnOk, FollowsOk, M.Inv, Ok, Step, Enabled;
    if ls != [] {
      RegistryIsOk(w, cfg);
      StepKeepsInv(w, ls[0], service, cfg);
      RunKeepsInv(Step(w, ls[0], service, cfg), ls[1..], w', service, cfg);
    }
  }

  /** Address safety. Every list gRPC accepts is, in ID order, the addresses of a non-empty set of
      instances that the registry really held for the service, at some state `ats[i]`; and of two accepted
      lists the later one never comes from an earlier state. So gRPC's list never becomes empty again. */
  lemma {:induction false} AddressSafety(clock: int, ls: seq<Label>, w: World, service: string, cfg: Config)
    requires cfg.Ok() && Inv(Start(clock), service, cfg) && Reaches(Start(clock), ls, w, service, cfg)
    ensures |w.ats| == |w.conn.accepted|
    ensures forall i | 0 <= i < |w.ats| ::
              w.conn.accepted[i] != [] && Listed(w.conn.accepted[i], w.ats[i], service, w.past)
    ensures forall i, j | 0 <= i < j < |w.ats| :: w.ats[i] <= w.ats[j]
    ensures IsRun(w.past, w.did, cfg) && w.past[0] == Registry.Initial(clock)
  {
    hide Step, Enabled, Held, IsRun, Addrs, PollOk, VersionOk, ItemsOk, InOrder, FollowsOk, M.Inv, Registry.Inv;
    RunKeepsInv(Start(clock), ls, w, service, cfg);
    FirstState(Start(clock), ls, w, service, cfg);
  }

  lemma {:induction false} FirstState(w: World, ls: seq<Label>, w': World, service: string, cfg: Config)
    requires Inv(w, service, cfg) && cfg.Ok() && Reaches(w, ls, w', service, cfg)
    ensures w'.past != [] && w'.past[0] == w.past[0]
    decreases |ls|
  {
    if ls != [] {
      StepKeepsInv(w, ls[0], service, cfg);
      hide RegistryOk, PollOk, VersionOk, ItemsOk, InOrder, ConnOk, FollowsOk, M.Inv, Ok, Enabled;
      RegistryIsOk(w, cfg);
      FirstStaysFirst(w, ls[0], service, cfg);
      hide Step;
      FirstState(Step(w, ls[0], service, cfg), ls[1..], w', service, cfg);
    }
  }

  lemma {:induction false} FirstStaysFirst(w: World, l: Label, service: string, cfg: Config)
    requires w.past != [] && Enabled(w, l) && Ok(Now(w).reg) && cfg.Ok()
    ensures Step(w, l, service, cfg).past != [] && Step(w, l, service, cfg).past[0] == w.past[0]
  {
    hide Registry.Step, Ok;
  }

  // ---------------------------------------------------------------- freshness

  /** Our poll waits at the registry: nothing has changed since the version it came with. */
  ghost predicate Waiting(w: World)
    requires w.past != []
  {
    && w.poll.Polling? && w.poll.answer.None? && w.poll.tid < |Now(w).pollers|
    && Now(w).pollers[w.poll.tid].Blocked? && Now(w).pollers[w.poll.tid].ch !in Now(w).reg.closed
  }

  /** While it waits, and wall clocks never fell back behind a version, the newest snapshot ever polled
      shows the members the registry holds now; none was polled only if there are none. */
  lemma {:induction false} WaitingMeansCurrent(w: World, service: string, cfg: Config)
    requires Inv(w, service, cfg) && cfg.Ok() && ClockAhead(w.past, w.did) && Waiting(w)
    ensures service in Now(w).reg.services && Filed(Now(w).reg.services[service].instances)
    ensures var m := Now(w).reg.services[service].instances;
            if w.box.polled == [] then m == map[]
            else Addrs(w.box.polled[|w.box.polled|-1].snap) == Addrs(Snapshot(m))
  {
    hide M.Inv, ConnOk, FollowsOk, InOrder, Addrs, IsSnapshot, Snapshot, AddrMap, IsRun, ClockAhead;
    RegistryIsOk(w, cfg);
    EntryHasOurVersion(Now(w), w.poll.tid, service, w.version);
    var m := Now(w).reg.services[service].instances;
    if w.box.polled == [] {
      BlankAtZero(Now(w).reg, service);
    } else {
      var x := w.box.polled[|w.box.polled|-1];
      SameAsNow(w.past, w.did, cfg, x.at, service);
      AddrsFollowAddrMap(w.past[x.at].reg.services[service].instances, m);
    }
  }

  lemma {:induction false} EntryHasOurVersion(s: Registry.Sys, tid: nat, service: string, version: int)
    requires Registry.Inv(s) && tid < |s.pollers| && Ours(s.pollers[tid], service, version)
    requires s.pollers[tid].Blocked? && s.pollers[tid].ch !in s.reg.closed
    ensures service in s.reg.services && s.reg.services[service].version == version
    ensures Filed(s.reg.services[service].instances)
  {
    assert Registry.Watches(s.pollers[tid], s.reg);
    assert ServiceOk(s.reg.services[service], service, s.reg);
  }

  /** Equal versions, equal members, with the present as the later of the two states. */
  lemma {:induction false} SameAsNow(past: seq<Registry.Sys>, did: seq<Registry.Label>, cfg: Config, at: nat,
                                     service: string)
    requires RegistryOk(past, did, cfg) && ClockAhead(past, did) && at < |past|
    requires service in past[at].reg.services && service in past[|past|-1].reg.services
    requires past[at].reg.services[service].version == past[|past|-1].reg.services[service].version
    ensures AddrMap(past[at].reg.services[service].instances) == AddrMap(past[|past|-1].reg.services[service].instances)
  {
    var tick := Registry.Tick(0);
    var now := past[|past|-1];
    assert Registry.Enabled(now, tick);
    RegistryRunsOn(past, did, tick, cfg);
    hide AddrMap, Registry.Inv;
    assert ClockAhead(past + [Registry.Step(now, tick, cfg)], did + [tick]);
    hide Registry.Step, Registry.Enabled, ClockAhead, IsRun;
    EqualVersionsEqualMembers(past + [Registry.Step(now, tick, cfg)], did + [tick], cfg, at, |past| - 1, service);
  }

  /** Everything polled has been passed on. */
  predicate Drained(w: World) {
    w.box.chan.None? && w.held.None? && !M.Busy(w.box.producer)
  }

  /** Freshness. When our poll waits, nothing is under way and the service has members, the resolver's
      list is exactly the current members' addresses; and an accepted request to resolve gives gRPC
      that list, whatever updates it rejected before. */
  lemma {:induction false} SettledMeansCurrent(clock: int, ls: seq<Label>, w: World, service: string, cfg: Config)
    requires cfg.Ok() && Inv(Start(clock), service, cfg) && Reaches(Start(clock), ls, w, service, cfg)
    requires ClockAhead(w.past, w.did) && w.past != [] && Waiting(w) && Drained(w)
    ensures service in Now(w).reg.services && Filed(Now(w).reg.services[service].instances)
    ensures Ok(Now(w).reg) && Enabled(w, AskedToResolve(true))
    ensures Now(w).reg.services[service].instances != map[] ==>
              var current := Addrs(Snapshot(Now(w).reg.services[service].instances));
              && w.conn.last == current
              && var accepted := Step(w, AskedToResolve(true), service, cfg).conn.accepted;
                 accepted != [] && accepted[|accepted|-1] == current
  {
    hide Ok, RegistryOk, PollOk, VersionOk, ItemsOk, ConnOk, Addrs, Snapshot, IsSnapshot, Reaches;
    hide ClockAhead, Waiting, InOrder;
    RunKeepsInv(Start(clock), ls, w, service, cfg);
    RegistryIsOk(w, cfg);
    WaitingMeansCurrent(w, service, cfg);
    var m := Now(w).reg.services[service].instances;
    if m != map[] {
      SnapshotNotEmpty(m);
      NewestReceived(w.box);
    }
  }

  lemma {:induction false} SnapshotNotEmpty(m: map<string, Entry>)
    requires Filed(m) && m != map[]
    ensures Addrs(Snapshot(m)) != []
  {
    var id :| id in m;
    assert m[id].ins in Snapshot(m);
  }

  /** A drained mailbox has handed over the newest value. */
  lemma {:induction false} NewestReceived(b: M.Box<Stamped>)
    requires M.Inv(b) && b.chan.None? && !M.Busy(b.producer) && b.polled != []
    ensures b.received != [] && b.received[|b.received|-1] == b.polled[|b.polled|-1]
  {
    hide M.Subsequence;
  }

  // ---------------------------------------------------------------- the subscription loop on such a run

  /** The round of the subscription loop that a step completes, if it completes one. */
  ghost function RoundOf(w: World, l: Label): seq<W.Round>
    requires w.past != [] && Enabled(w, l)
  {
    match l
    case AnswerArrives => [W.Round(W.Fresh(w.poll.answer.value.snap, w.poll.answer.value.version), false, false)]
    case PollEnds =>
      var told := w.poll.tid < |Now(w).pollers| && Now(w).pollers[w.poll.tid].Unchanged?;
      [W.Round(if told then W.NotModified else W.Failed, false, false)]
    case _ => []
  }

  ghost function RoundsOf(w: World, ls: seq<Label>, w': World, service: string, cfg: Config): seq<W.Round>
    requires Inv(w, service, cfg) && cfg.Ok() && Reaches(w, ls, w', service, cfg)
    decreases |ls|
  {
    if ls == [] then []
    else
      StepKeepsInv(w, ls[0], service, cfg);
      RoundOf(w, ls[0]) + RoundsOf(Step(w, ls[0], service, cfg), ls[1..], w', service, cfg)
  }

  function NewestPolled(polled: seq<Stamped>): Option<(seq<Instance>, int)> {
    if polled == [] then None else Some((polled[|polled|-1].snap, polled[|polled|-1].version))
  }

  lemma {:induction false} StepIsRound(w: World, l: Label, rounds: seq<W.Round>, service: string, cfg: Config)
    requires Inv(w, service, cfg) && cfg.Ok() && Enabled(w, l) && W.Newest(rounds) == NewestPolled(w.box.polled)
    ensures W.Newest(rounds + RoundOf(w, l)) == NewestPolled(Step(w, l, service, cfg).box.polled)
  {
    hide RegistryOk, VersionOk, ItemsOk, ConnOk, FollowsOk, M.Inv, Ok, Registry.Step, Registry.Enabled, Resolver.Take;
    RegistryIsOk(w, cfg);
    if RoundOf(w, l) == [] {
      assert rounds + [] == rounds;
    } else {
      assert (rounds + RoundOf(w, l))[..|rounds|] == rounds;
    }
  }

  lemma {:induction false} RunIsRounds(w: World, ls: seq<Label>, w': World, rounds: seq<W.Round>, service: string,
                                       cfg: Config)
    requires Inv(w, service, cfg) && cfg.Ok() && Reaches(w, ls, w', service, cfg)
    requires W.Newest(rounds) == NewestPolled(w.box.polled)
    ensures W.Newest(rounds + RoundsOf(w, ls, w', service, cfg)) == NewestPolled(w'.box.polled)
    decreases |ls|
  {
    hide RegistryOk, PollOk, VersionOk, ItemsOk, InOrder, ConnOk, FollowsOk, M.Inv, Ok, Step, Enabled;
    hide RoundOf, W.Newest;
    if ls == [] {
      assert rounds + [] == rounds;
    } else {
      RegistryIsOk(w, cfg);
      StepKeepsInv(w, ls[0], service, cfg);
      StepIsRound(w, ls[0], rounds, service, cfg);
      var next := Step(w, ls[0], service, cfg);
      RunIsRounds(next, ls[1..], w', rounds + RoundOf(w, ls[0]), service, cfg);
      assert rounds + (RoundOf(w, ls[0]) + RoundsOf(next, ls[1..], w', service, cfg))
          == rounds + RoundOf(w, ls[0]) + RoundsOf(next, ls[1..], w', service, cfg);
    }
  }

  /** The composed system moves as `Watcher.WatchLoop` does. Read the answers and failures of a run as rounds
      of that loop: the version every poll is sent with is the loop's, what was polled last is the loop's
      newest snapshot, and whenever no delivery is under way the mailbox is empty or holds it. */
  lemma {:induction false} FollowsWatchLoop(clock: int, ls: seq<Label>, w: World, service: string, cfg: Config)
    requires cfg.Ok() && Inv(Start(clock), service, cfg) && Reaches(Start(clock), ls, w, service, cfg)
    ensures var rounds := RoundsOf(Start(clock), ls, w, service, cfg);
            && w.version == W.VersionAfter(rounds)
            && W.Newest(rounds) == NewestPolled(w.box.polled)
            && (w.box.chan.Some? && !M.Busy(w.box.producer) ==>
                  W.Newest(rounds).Some? && W.Newest(rounds).value.0 == w.box.chan.value.snap)
  {
    hide RegistryOk, PollOk, VersionOk, ItemsOk, InOrder, ConnOk, FollowsOk, M.Inv, Reaches, RoundsOf;
    hide W.Newest, W.VersionAfter;
    RunKeepsInv(Start(clock), ls, w, service, cfg);
    NothingPolled();
    RunIsRounds(Start(clock), ls, w, [], service, cfg);
    var rounds := RoundsOf(Start(clock), ls, w, service, cfg);
    assert [] + rounds == rounds;
    InLoopsTerms(w, rounds, service, cfg);
  }

  lemma {:induction false} NothingPolled()
    ensures W.Newest([]) == NewestPolled([])
  {}

  lemma {:induction false} InLoopsTerms(w: World, rounds: seq<W.Round>, service: string, cfg: Config)
    requires Inv(w, service, cfg) && W.Newest(rounds) == NewestPolled(w.box.polled)
    ensures w.version == W.VersionAfter(rounds)
    ensures w.box.chan.Some? && !M.Busy(w.box.producer) ==>
              W.Newest(rounds).Some? && W.Newest(rounds).value.0 == w.box.chan.value.snap
  {
    hide RegistryOk, PollOk, ItemsOk, InOrder, ConnOk, FollowsOk, M.Subsequence, Genuine, W.Newest;
  }

  // ---------------------------------------------------------------- the mailbox and the resolver on such a run

  /** The step of the mailbox in a step of the system. */
  ghost function MailOf(w: World, l: Label): seq<M.Label<Stamped>>
    requires w.past != [] && Enabled(w, l)
  {
    match l
    case AnswerArrives => [M.Produce(w.poll.answer.value)]
    case TrySend => [M.TrySend]
    case Drain => [M.Drain]
    case Send => [M.Send]
    case Stop => [M.Close]
    case Receive => [M.Receive]
    case _ => []
  }

  /** What happens to the resolver in a step of the system. */
  ghost function EventOf(w: World, l: Label): seq<Resolver.Event>
    requires w.past != [] && Enabled(w, l)
  {
    match l
    case Offer(ok) => [Resolver.Arrives(w.held.value.snap, ok)]
    case AskedToResolve(ok) => [Resolver.AskedToResolve(ok)]
    case _ => []
  }

  ghost function MailsOf(w: World, ls: seq<Label>, w': World, service: string, cfg: Config): seq<M.Label<Stamped>>
    requires Inv(w, service, cfg) && cfg.Ok() && Reaches(w, ls, w', service, cfg)
    decreases |ls|
  {
    if ls == [] then []
    else
      StepKeepsInv(w, ls[0], service, cfg);
      MailOf(w, ls[0]) + MailsOf(Step(w, ls[0], service, cfg), ls[1..], w', service, cfg)
  }

  ghost function EventsOf(w: World, ls: seq<Label>, w': World, service: string, cfg: Config): seq<Resolver.Event>
    requires Inv(w, service, cfg) && cfg.Ok() && Reaches(w, ls, w', service, cfg)
    decreases |ls|
  {
    if ls == [] then []
    else
      StepKeepsInv(w, ls[0], service, cfg);
      EventOf(w, ls[0]) + EventsOf(Step(w, ls[0], service, cfg), ls[1..], w', service, cfg)
  }

  lemma {:induction false} StepIsEvent(w: World, l: Label, events: seq<Resolver.Event>, service: string, cfg: Config)
    requires w.past != [] && Ok(Now(w).reg) && cfg.Ok() && Enabled(w, l) && w.conn == Resolver.Run(events)
    ensures Step(w, l, service, cfg).conn == Resolver.Run(events + EventOf(w, l))
  {
    hide Ok, Registry.Step, Registry.Enabled, Resolver.Run, Addrs;
    var more := EventOf(w, l);
    if more == [] {
      assert events + more == events;
    } else {
      assert more == [more[0]] && (events + more)[..|events|] == events;
      Resolver.RunStep(events + more);
    }
  }

  lemma {:induction false} RunIsEvents(w: World, ls: seq<Label>, w': World, events: seq<Resolver.Event>,
                                       service: string, cfg: Config)
    requires Inv(w, service, cfg) && cfg.Ok() && Reaches(w, ls, w', service, cfg) && w.conn == Resolver.Run(events)
    ensures w'.conn == Resolver.Run(events + EventsOf(w, ls, w', service, cfg))
    decreases |ls|
  {
    hide RegistryOk, PollOk, VersionOk, ItemsOk, InOrder, ConnOk, FollowsOk, M.Inv, Ok, Step, Enabled;
    hide EventOf, Resolver.Run;
    if ls == [] {
      assert events + [] == events;
    } else {
      RegistryIsOk(w, cfg);
      StepKeepsInv(w, ls[0], service, cfg);
      StepIsEvent(w, ls[0], events, service, cfg);
      var next := Step(w, ls[0], service, cfg);
      RunIsEvents(next, ls[1..], w', events + EventOf(w, ls[0]), service, cfg);
      assert events + (EventOf(w, ls[0]) + EventsOf(next, ls[1..], w', service, cfg))
          == events + EventOf(w, ls[0]) + EventsOf(next, ls[1..], w', service, cfg);
    }
  }

  lemma {:induction false} StepIsMail(w: World, l: Label, service: string, cfg: Config)
    requires w.past != [] && Ok(Now(w).reg) && cfg.Ok() && Enabled(w, l)
    ensures M.Reaches(w.box, MailOf(w, l), Step(w, l, service, cfg).box)
  {
    hide Ok, Registry.Step, Registry.Enabled, Resolver.Take, Resolver.Resolve;
    if MailOf(w, l) != [] {
      M.Prepend(w.box, MailOf(w, l)[0], [], Step(w, l, service, cfg).box);
      assert MailOf(w, l) == [MailOf(w, l)[0]] + [];
    }
  }

  lemma {:induction false} MailsJoin(b: M.Box<Stamped>, ls: seq<M.Label<Stamped>>, mid: M.Box<Stamped>,
                                     ls': seq<M.Label<Stamped>>, end: M.Box<Stamped>)
    requires M.Reaches(b, ls, mid) && M.Reaches(mid, ls', end)
    ensures M.Reaches(b, ls + ls', end)
    decreases |ls|
  {
    hide M.Step, M.Enabled;
    if ls == [] {
      assert ls + ls' == ls';
    } else {
      MailsJoin(M.Step(b, ls[0]), ls[1..], mid, ls', end);
      M.Prepend(b, ls[0], ls[1..] + ls', end);
      assert ls + ls' == [ls[0]] + (ls[1..] + ls');
    }
  }

  lemma {:induction false} RunIsMails(w: World, ls: seq<Label>, w': World, service: string, cfg: Config)
    requires Inv(w, service, cfg) && cfg.Ok() && Reaches(w, ls, w', service, cfg)
    ensures M.Reaches(w.box, MailsOf(w, ls, w', service, cfg), w'.box)
    decreases |ls|
  {
    hide RegistryOk, PollOk, VersionOk, ItemsOk, InOrder, ConnOk, FollowsOk, M.Inv, Ok, Step, Enabled;
    hide MailOf, M.Reaches;
    if ls == [] {
      M.Nowhere(w.box);
    } else {
      RegistryIsOk(w, cfg);
      StepKeepsInv(w, ls[0], service, cfg);
      StepIsMail(w, ls[0], service, cfg);
      var next := Step(w, ls[0], service, cfg);
      RunIsMails(next, ls[1..], w', service, cfg);
      MailsJoin(w.box, MailOf(w, ls[0]), next.box, MailsOf(next, ls[1..], w', service, cfg), w'.box);
    }
  }

  /** On every run the mailbox makes a run of its own, and the resolver is where the snapshots it dealt with and the
      requests to resolve, with gRPC's answers, bring it: what is proved of either for all runs holds in the system. */
  lemma {:induction false} PartsRun(clock: int, ls: seq<Label>, w: World, service: string, cfg: Config)
    requires cfg.Ok() && Inv(Start(clock), service, cfg) && Reaches(Start(clock), ls, w, service, cfg)
    ensures M.Reaches(M.Start(), MailsOf(Start(clock), ls, w, service, cfg), w.box)
    ensures w.conn == Resolver.Run(EventsOf(Start(clock), ls, w, service, cfg))
  {
    hide RegistryOk, PollOk, VersionOk, ItemsOk, InOrder, ConnOk, FollowsOk, M.Inv, Reaches, EventsOf, MailsOf;
    hide M.Reaches, Resolver.Run, Registry.Initial;
    RunIsMails(Start(clock), ls, w, service, cfg);
    Resolver.Begin();
    RunIsEvents(Start(clock), ls, w, [], service, cfg);
    var events := EventsOf(Start(clock), ls, w, service, cfg);
    assert [] + events == events;
  }

  // ---------------------------------------------------------------- catching up

  lemma {:induction false} OneMoreStep(w: World, ls: seq<Label>, mid: World, l: Label, service: string, cfg: Config)
    requires Inv(w, service, cfg) && cfg.Ok() && Reaches(w, ls, mid, service, cfg)
    requires Inv(mid, service, cfg) && Enabled(mid, l)
    ensures Ok(Now(mid).reg) && Inv(Step(mid, l, service, cfg), service, cfg)
    ensures Reaches(w, ls + [l], Step(mid, l, service, cfg), service, cfg)
    decreases |ls|
  {
    hide RegistryOk, PollOk, VersionOk, ItemsOk, InOrder, ConnOk, FollowsOk, M.Inv, Ok, Step, Enabled;
    RegistryIsOk(mid, cfg);
    StepKeepsInv(mid, l, service, cfg);
    if ls == [] {
      assert [l][1..] == [];
      assert Reaches(Step(mid, l, service, cfg), [], Step(mid, l, service, cfg), service, cfg);
      assert [] + [l] == [l];
    } else {
      RegistryIsOk(w, cfg);
      StepKeepsInv(w, ls[0], service, cfg);
      OneMoreStep(Step(w, ls[0], service, cfg), ls[1..], mid, l, service, cfg);
      assert (ls + [l])[1..] == ls[1..] + [l];
    }
  }

  /** Nothing of ours is under way before the mailbox. */
  ghost predicate Idle(w: World) {
    w.poll.NoPoll? && w.box.producer.Ready?
  }

  /** An idle subscription that is behind asks, and its poll's first locked round has the answer. */
  lemma {:induction false} AskAndAnswer(w: World, service: string, cfg: Config) returns (w2: World, x: Stamped)
    requires Inv(w, service, cfg) && cfg.Ok() && Idle(w)
    requires service in Now(w).reg.services && Now(w).reg.services[service].version != w.version
    ensures Inv(w2, service, cfg)
    ensures Reaches(w, [Ask, AtRegistry(Registry.PollLock(|Now(w).pollers|))], w2, service, cfg)
    ensures Filed(Now(w).reg.services[service].instances)
    ensures x.snap == Snapshot(Now(w).reg.services[service].instances)
    ensures w2.poll.Polling? && w2.poll.answer == Some(x)
    ensures w2.box == w.box && w2.held == w.held && w2.conn == w.conn
  {
    hide RegistryOk, PollOk, VersionOk, ItemsOk, InOrder, ConnOk, FollowsOk, M.Inv, Ok, Reaches;
    RegistryIsOk(w, cfg);
    var tid := |Now(w).pollers|;
    Nowhere(w, service, cfg);
    OneMoreStep(w, [], w, Ask, service, cfg);
    var w1 := Step(w, Ask, service, cfg);
    AskedAtTop(w, service, cfg);
    OneMoreStep(w, [] + [Ask], w1, AtRegistry(Registry.PollLock(tid)), service, cfg);
    w2 := Step(w1, AtRegistry(Registry.PollLock(tid)), service, cfg);
    assert [] + [Ask] + [AtRegistry(Registry.PollLock(tid))] == [Ask, AtRegistry(Registry.PollLock(tid))];
    x := RoundAnswers(w1, tid, service, cfg);
  }

  lemma {:induction false} Nowhere(w: World, service: string, cfg: Config)
    requires Inv(w, service, cfg) && cfg.Ok()
    ensures Reaches(w, [], w, service, cfg)
  {}

  lemma {:induction false} AskedAtTop(w: World, service: string, cfg: Config)
    requires w.past != [] && Ok(Now(w).reg) && cfg.Ok() && Enabled(w, Ask)
    ensures var w1, tid := Step(w, Ask, service, cfg), |Now(w).pollers|;
            && w1.past != [] && Now(w1).reg == Now(w).reg && w1.poll == Polling(tid, None)
            && w1.box == w.box && w1.held == w.held && w1.conn == w.conn
            && tid < |Now(w1).pollers| && Now(w1).pollers[tid] == Registry.AtTop(service, w.version)
  {
    hide Ok;
  }

  lemma {:induction false} RoundAnswers(w: World, tid: nat, service: string, cfg: Config) returns (x: Stamped)
    requires w.past != [] && Ok(Now(w).reg) && cfg.Ok() && w.poll == Polling(tid, None) && tid < |Now(w).pollers|
    requires Now(w).pollers[tid].AtTop? && Now(w).pollers[tid].name == service
    requires service in Now(w).reg.services
    requires Now(w).reg.services[service].version != Now(w).pollers[tid].since
    ensures Enabled(w, AtRegistry(Registry.PollLock(tid)))
    ensures var w' := Step(w, AtRegistry(Registry.PollLock(tid)), service, cfg);
            && w'.poll == Polling(tid, Some(x)) && w'.box == w.box && w'.held == w.held && w'.conn == w.conn
    ensures Filed(Now(w).reg.services[service].instances)
    ensures x.snap == Snapshot(Now(w).reg.services[service].instances)
  {
    assert ServiceOk(Now(w).reg.services[service], service, Now(w).reg);
    hide Ok, Snapshot;
    x := Stamped(Snapshot(Now(w).reg.services[service].instances), Now(w).reg.services[service].version, |w.past|);
  }

  /** The answer of a poll goes to the mailbox and replaces what is there. */
  lemma {:induction false} AnswerIsMailed(w: World, x: Stamped, service: string, cfg: Config)
    returns (ls: seq<Label>, w': World)
    requires Inv(w, service, cfg) && cfg.Ok() && w.poll.Polling? && w.poll.answer == Some(x)
    requires w.box.producer.Ready?
    ensures Inv(w', service, cfg) && Reaches(w, ls, w', service, cfg)
    ensures w'.box.chan == Some(x) && w'.held == w.held && w'.conn == w.conn && Idle(w')
  {
    hide RegistryOk, PollOk, VersionOk, ItemsOk, InOrder, ConnOk, FollowsOk, M.Inv, Ok, Reaches;
    RegistryIsOk(w, cfg);
    Nowhere(w, service, cfg);
    OneMoreStep(w, [], w, Label.AnswerArrives, service, cfg);
    var w1 := Step(w, Label.AnswerArrives, service, cfg);
    OneMoreStep(w, [] + [Label.AnswerArrives], w1, TrySend, service, cfg);
    ls, w' := [] + [Label.AnswerArrives] + [TrySend], Step(w1, TrySend, service, cfg);
    if w.box.chan.Some? {
      OneMoreStep(w, ls, w', Drain, service, cfg);
      ls, w' := ls + [Drain], Step(w', Drain, service, cfg);
      OneMoreStep(w, ls, w', Send, service, cfg);
      ls, w' := ls + [Send], Step(w', Send, service, cfg);
    }
  }

  /** What is in the mailbox gets to gRPC. */
  lemma {:induction false} MailIsOffered(w: World, x: Stamped, service: string, cfg: Config) returns (w': World)
    requires Inv(w, service, cfg) && cfg.Ok() && w.box.chan == Some(x) && w.held.None? && x.snap != []
    ensures Inv(w', service, cfg) && Reaches(w, [Receive, Offer(true)], w', service, cfg)
    ensures w'.conn.accepted == w.conn.accepted + [Addrs(x.snap)]
  {
    hide RegistryOk, PollOk, VersionOk, ItemsOk, InOrder, ConnOk, FollowsOk, M.Inv, Ok, Reaches;
    RegistryIsOk(w, cfg);
    Nowhere(w, service, cfg);
    OneMoreStep(w, [], w, Receive, service, cfg);
    var w1 := Step(w, Receive, service, cfg);
    OneMoreStep(w, [] + [Receive], w1, Offer(true), service, cfg);
    w' := Step(w1, Offer(true), service, cfg);
    assert [] + [Receive] + [Offer(true)] == [Receive, Offer(true)];
  }

  lemma {:induction false} Then(w: World, ls: seq<Label>, mid: World, ls': seq<Label>, w': World, service: string,
                                cfg: Config)
    requires Inv(w, service, cfg) && cfg.Ok() && Reaches(w, ls, mid, service, cfg)
    requires Inv(mid, service, cfg) && Reaches(mid, ls', w', service, cfg)
    ensures Reaches(w, ls + ls', w', service, cfg)
    decreases |ls|
  {
    hide RegistryOk, PollOk, VersionOk, ItemsOk, InOrder, ConnOk, FollowsOk, M.Inv, Ok, Step, Enabled;
    if ls == [] {
      assert ls + ls' == ls';
    } else {
      RegistryIsOk(w, cfg);
      StepKeepsInv(w, ls[0], service, cfg);
      Then(Step(w, ls[0], service, cfg), ls[1..], mid, ls', w', service, cfg);
      assert (ls + ls')[1..] == ls[1..] + ls';
    }
  }

  /** Catching up is always possible. Whenever the subscription is idle and not at the registry's version, while the
      service has members and the resolver holds no snapshot, a few steps of our own, whatever the mailbox still
      holds, bring exactly the members of now to gRPC. */
  lemma {:induction false} CanCatchUp(w: World, service: string, cfg: Config) returns (ls: seq<Label>, w': World)
    requires Inv(w, service, cfg) && cfg.Ok() && Idle(w) && w.held.None?
    requires service in Now(w).reg.services && Now(w).reg.services[service].version != w.version
    requires Now(w).reg.services[service].instances != map[]
    ensures Inv(w', service, cfg) && Reaches(w, ls, w', service, cfg)
    ensures Filed(Now(w).reg.services[service].instances)
    ensures w'.conn.accepted
         == w.conn.accepted + [Addrs(Snapshot(Now(w).reg.services[service].instances))]
  {
    hide RegistryOk, PollOk, VersionOk, ItemsOk, InOrder, ConnOk, FollowsOk, M.Inv, Ok, Reaches, Addrs, Snapshot;
    RegistryIsOk(w, cfg);
    var w2, x := AskAndAnswer(w, service, cfg);
    SnapshotNotEmpty(Now(w).reg.services[service].instances);
    var ask := [Ask, AtRegistry(Registry.PollLock(|Now(w).pollers|))];
    var mail, w3 := AnswerIsMailed(w2, x, service, cfg);
    w' := MailIsOffered(w3, x, service, cfg);
    Then(w, ask, w2, mail, w3, service, cfg);
    Then(w, ask + mail, w3, [Receive, Offer(true)], w', service, cfg);
    ls := ask + mail + [Receive, Offer(true)];
  }
}
