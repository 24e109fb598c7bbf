/** marci one Redis command at a time. Between any two commands time may pass and any reader may
    look; only marci writes. This is the level at which a peer can be seen as online and unknown at
    once, and at which its sighting can lag behind its leases. */
module Interleaving {
  import opened Wrappers
  import opened Redis
  import opened Keys
  import opened Types
  import opened Arms
  import opened Store
  import Numerals

  /** Where the loop stands: idle, or before a given command of an arm. Lists hold the writes still
      to come that no later read depends on. */
  datatype Pc =
    | Idle
    | OnlineGet(o: PeerInfo, ip: Option<IpDetails>)
    | OnlineLease(o: PeerInfo, ip: Option<IpDetails>, found: bool)
    | OnlineDetails(o: PeerInfo, todo: seq<Command>)
    | OnlineSeen(o: PeerInfo)
    | OnlineDel(o: PeerInfo)
    | UnknownGet(m: NodeMetaInfo)
    | UnknownExpire(m: NodeMetaInfo)
    | UnknownCount(m: NodeMetaInfo)
    | UnknownSet(m: NodeMetaInfo)
    | UnknownClear(m: NodeMetaInfo)
    | UnknownSeen(m: NodeMetaInfo)
    | ReachableDetails(m: NodeMetaInfo, from: NodeMetaInfo, ip: Option<IpDetails>, todo: seq<Command>)
    | ReachableSeen(m: NodeMetaInfo, ip: Option<IpDetails>)
    | ReachableCountry(m: NodeMetaInfo, ip: Option<IpDetails>)
    | ReachableGeo(m: NodeMetaInfo, todo: seq<Command>)
    | ServiceStamp
  {
    predicate About(p: string) {
      match this
      case Idle | ServiceStamp => false
      case OnlineGet(_, _) | OnlineLease(_, _, _) | OnlineDetails(_, _) | OnlineSeen(_) | OnlineDel(_) =>
        o.info.peerId == p
      case _ => m.peerId == p
    }
  }

  /** The online arm has set or refreshed its lease and has yet to delete the unknown key. */
  predicate BetweenSetAndDelete(pc: Pc) {
    pc.OnlineDetails? || pc.OnlineSeen? || pc.OnlineDel?
  }

  datatype Action = Nothing | Write(c: Command) | Stamp

  datatype Turn = Turn(action: Action, next: Pc)

  /** The next command of an arm, given what it reads of its peer's record. */
  function Act(env: Env, rec: Record, now: nat, pc: Pc): Turn {
    match pc
    case Idle => Turn(Nothing, Idle)
    case OnlineGet(o, ip) => Turn(Nothing, OnlineLease(o, ip, Get(rec, now, Online).Some?))
    case OnlineLease(o, ip, found) =>
      Turn(Write(LeaseCmd(env, found, o)),
           OnlineDetails(o, AddressCmds(env, o, ip) + [Cmd(Full, Set(BoolText(o.full)))]))
    case OnlineDetails(o, todo) =>
      if todo == [] then Turn(Nothing, OnlineSeen(o)) else Turn(Write(todo[0]), OnlineDetails(o, todo[1..]))
    case OnlineSeen(o) => Turn(Write(Cmd(LastSeen, Set(Seconds(now)))), OnlineDel(o))
    case OnlineDel(o) => Turn(Write(Cmd(Unknown, Del)), Idle)
    case UnknownGet(m) => Turn(Nothing, if Get(rec, now, Online).Some? then UnknownExpire(m) else UnknownCount(m))
    case UnknownExpire(m) => Turn(Write(Cmd(Online, Expire(env.timeout))), UnknownSeen(m))
    case UnknownCount(m) =>
      Turn(Nothing, if SCard(rec, now, Reachable) >= env.witnesses then UnknownSet(m) else UnknownSeen(m))
    case UnknownSet(m) => Turn(Write(Cmd(Unknown, SetEx("unknown", env.unknownTimeout))), UnknownClear(m))
    case UnknownClear(m) => Turn(Write(Cmd(Reachable, Del)), UnknownSeen(m))
    case UnknownSeen(m) => Turn(Write(Cmd(LastSeen, Set(Seconds(now)))), Idle)
    case ReachableDetails(m, from, ip, todo) =>
      if todo == [] then Turn(Nothing, ReachableSeen(m, ip))
      else Turn(Write(todo[0]), ReachableDetails(m, from, ip, todo[1..]))
    case ReachableSeen(m, ip) => Turn(Write(Cmd(LastSeen, Set(Seconds(now)))), ReachableCountry(m, ip))
    case ReachableCountry(m, ip) =>
      Turn(Nothing, ReachableGeo(m, if Get(rec, now, Country).GetOr("") == "" then GeoCmds(ip) else []))
    case ReachableGeo(m, todo) =>
      if todo == [] then Turn(Nothing, ServiceStamp) else Turn(Write(todo[0]), ReachableGeo(m, todo[1..]))
    case ServiceStamp => Turn(Stamp, Idle)
  }

  /** The writes of a reachable report before its time stamp. */
  function Filing(env: Env, m: NodeMetaInfo, from: NodeMetaInfo): seq<Command> {
    [Cmd(Reachable, SAdd(from.peerId)), Cmd(Quick(m.network), Set("0"))]
    + IpCmds(env, m.addresses) + [Cmd(Stored, Set(m.network.IntoStr()))]
  }

  /** Where an arm starts. */
  function Start(env: Env, report: Report, ip: Option<IpDetails>): Pc {
    match report
    case OnlineReport(o) => OnlineGet(o, ip)
    case UnknownReport(m) => UnknownGet(m)
    case ReachableReport(m, from) => ReachableDetails(m, from, ip, Filing(env, m, from))
  }

  // ---------- the steps ----------

  datatype State = State(db: Db, now: nat, pc: Pc)

  /** What an action of the arm of `p` does to the store. */
  function Did(db: Db, now: nat, p: string, action: Action): Db {
    match action
    case Nothing => db
    case Write(c) => Exec(db, now, Cmd(Format(c.key, p), c.op))
    case Stamp => Exec(db, now, Cmd(LAST_UPDATE, Set(Seconds(now))))
  }

  function Perform(env: Env, s: State, p: string): State
    requires s.pc.About(p) || s.pc.ServiceStamp?
  {
    var turn := Act(env, View(s.db, p), s.now, s.pc);
    State(Did(s.db, s.now, p, turn.action), s.now, turn.next)
  }

  ghost predicate Step(env: Env, s: State, t: State) {
    // time passes
    || (t.db == s.db && t.pc == s.pc && t.now >= s.now)
    // a report is taken up, or the timer fires
    || (s.pc == Idle && t.db == s.db && t.now == s.now
        && (t.pc == ServiceStamp || exists report, ip :: t.pc == Start(env, report, ip)))
    // the arm goes on
    || (exists p :: (s.pc.About(p) || s.pc.ServiceStamp?) && t == Perform(env, s, p))
  }

  ghost predicate IsRun(env: Env, run: seq<State>) {
    && run != []
    && run[0] == State(map[], run[0].now, Idle)
    && forall i | 0 <= i < |run| - 1 :: Step(env, run[i], run[i + 1])
  }

  // ---------- what holds at every step ----------

  /** A lease set or refreshed by `now` ends at most one timeout later. */
  predicate Bounded(e: Option<Entry>, latest: nat) {
    e.Some? ==> e.value.value.Text? && e.value.expiry.Some? && e.value.expiry.value <= latest
  }

  function Seen(rec: Record): Option<nat> {
    match Find(rec, LastSeen)
    case Some(Entry(Text(t), None)) => Numerals.ParseDecimal(t)
    case _ => None
  }

  /** No lease outlives its timeout counted from the peer's last sighting, to the second. */
  predicate Fresh(env: Env, rec: Record) {
    && ((Online in rec || Online2 in rec || Unknown in rec) ==> Seen(rec).Some?)
    && (Seen(rec).Some? ==>
          && Bounded(Find(rec, Online), Ms(Seen(rec).value + env.timeout) + 999)
          && Bounded(Find(rec, Online2), Ms(Seen(rec).value + env.timeout) + 999)
          && Bounded(Find(rec, Unknown), Ms(Seen(rec).value + env.unknownTimeout) + 999))
  }

  predicate Exclusive(rec: Record, now: nat) {
    !(Alive(Find(rec, Online), now) && Alive(Find(rec, Unknown), now))
  }

  predicate Plain(c: Command) {
    c.key !in {Online, Online2, Unknown, LastSeen}
  }

  /** The invariant of one peer's record, with the loop at `pc` in that peer's arm, or idle. */
  predicate Holds(env: Env, rec: Record, now: nat, pc: Pc) {
    && Bounded(Find(rec, Online), now + Ms(env.timeout))
    && Bounded(Find(rec, Online2), now + Ms(env.timeout))
    && Bounded(Find(rec, Unknown), now + Ms(env.unknownTimeout))
    && (pc.OnlineDetails? || pc.OnlineSeen? || pc.UnknownClear? || pc.UnknownSeen? || Fresh(env, rec))
    && (BetweenSetAndDelete(pc) || Exclusive(rec, now))
    && (pc.UnknownCount? || pc.UnknownSet? ==> !Alive(Find(rec, Online), now))
    && (pc.OnlineDetails? || pc.ReachableDetails? || pc.ReachableGeo? ==>
          forall i | 0 <= i < |pc.todo| :: Plain(pc.todo[i]))
  }

  ghost predicate Inv(env: Env, s: State) {
    forall p :: Holds(env, View(s.db, p), s.now, if s.pc.About(p) then s.pc else Idle)
  }

  lemma {:induction false} TimePasses(env: Env, rec: Record, now: nat, later: nat, pc: Pc)
    requires Holds(env, rec, now, pc) && now <= later
    ensures Holds(env, rec, later, pc)
  {}

  lemma {:induction false} StartHolds(env: Env, rec: Record, now: nat, report: Report, ip: Option<IpDetails>)
    requires Holds(env, rec, now, Idle)
    ensures Holds(env, rec, now, Start(env, report, ip))
  {}

  /** A write outside the four status keys changes nothing the invariant speaks of. */
  lemma {:induction false} PlainWrite(env: Env, rec: Record, now: nat, c: Command)
    requires Plain(c)
    ensures var after := Exec(rec, now, c);
            forall f | f in {Online, Online2, Unknown, LastSeen} :: Find(after, f) == Find(rec, f)
  {}

  lemma {:induction false} Stamped(env: Env, rec: Record, now: nat)
    requires Bounded(Find(rec, Online), now + Ms(env.timeout))
    requires Bounded(Find(rec, Online2), now + Ms(env.timeout))
    requires Bounded(Find(rec, Unknown), now + Ms(env.unknownTimeout))
    ensures Fresh(env, Exec(rec, now, Cmd(LastSeen, Set(Seconds(now)))))
  {
    Numerals.ParsePrinted(now / 1000);
    var after := Exec(rec, now, Cmd(LastSeen, Set(Seconds(now))));
    assert Seen(after) == Some(now / 1000);
  }

  /** What an action does to the record of the peer it is about. */
  function DidOwn(rec: Record, now: nat, action: Action): Record {
    match action
    case Write(c) => Exec(rec, now, c)
    case _ => rec
  }

  function ActOn(env: Env, rec: Record, now: nat, pc: Pc): Record {
    DidOwn(rec, now, Act(env, rec, now, pc).action)
  }

  /** The status keys after a write, for the cases below. */
  lemma {:induction false} Written(rec: Record, now: nat, c: Command)
    ensures var after := Exec(rec, now, c);
            forall f | f in {Online, Online2, Unknown, LastSeen} ::
              Find(after, f) == if f == c.key then Apply(Find(rec, f), now, c.op) else Find(rec, f)
  {}

  lemma {:induction false} SameStatus(env: Env, rec: Record, after: Record, now: nat, pc: Pc, next: Pc)
    requires Holds(env, rec, now, pc)
    requires forall f | f in {Online, Online2, Unknown, LastSeen} :: Find(after, f) == Find(rec, f)
    requires pc.OnlineDetails? ==> next.OnlineDetails? && forall i | 0 <= i < |next.todo| :: Plain(next.todo[i])
    requires pc.ReachableDetails? || pc.ReachableGeo? ==>
               (next.ReachableDetails? || next.ReachableGeo?) && forall i | 0 <= i < |next.todo| :: Plain(next.todo[i])
    requires pc.UnknownClear? ==> next.UnknownSeen?
    requires pc.OnlineDetails? || pc.ReachableDetails? || pc.ReachableGeo? || pc.UnknownClear?
    ensures Holds(env, after, now, next)
  {
    assert Find(after, Online) == Find(rec, Online) && Find(after, Online2) == Find(rec, Online2);
    assert Find(after, Unknown) == Find(rec, Unknown) && Find(after, LastSeen) == Find(rec, LastSeen);
    assert Seen(after) == Seen(rec);
  }

  predicate InOnlineArm(pc: Pc) {
    pc.OnlineGet? || pc.OnlineLease? || pc.OnlineDetails? || pc.OnlineSeen? || pc.OnlineDel?
  }

  predicate InUnknownArm(pc: Pc) {
    pc.UnknownGet? || pc.UnknownExpire? || pc.UnknownCount? || pc.UnknownSet? || pc.UnknownClear? || pc.UnknownSeen?
  }

  lemma {:induction false} LeaseHolds(env: Env, rec: Record, now: nat, o: PeerInfo, ip: Option<IpDetails>, found: bool)
    requires Holds(env, rec, now, OnlineLease(o, ip, found))
    ensures Holds(env, Exec(rec, now, LeaseCmd(env, found, o)), now,
                  OnlineDetails(o, AddressCmds(env, o, ip) + [Cmd(Full, Set(BoolText(o.full)))]))
  {
    Written(rec, now, LeaseCmd(env, found, o));
    AddressKeys(env, o, ip);
  }

  lemma {:induction false} DeleteHolds(env: Env, rec: Record, now: nat, o: PeerInfo)
    requires Holds(env, rec, now, OnlineDel(o))
    ensures Holds(env, Exec(rec, now, Cmd(Unknown, Del)), now, Idle)
  {
    Written(rec, now, Cmd(Unknown, Del));
    assert Seen(Exec(rec, now, Cmd(Unknown, Del))) == Seen(rec);
  }

  lemma {:induction false} OnlineArmHolds(env: Env, rec: Record, now: nat, pc: Pc)
    requires Holds(env, rec, now, pc) && InOnlineArm(pc)
    ensures Holds(env, ActOn(env, rec, now, pc), now, Act(env, rec, now, pc).next)
  {
    match pc {
      case OnlineLease(o, ip, found) => LeaseHolds(env, rec, now, o, ip, found);
      case OnlineDetails(o, todo) =>
        if todo != [] {
          PlainWrite(env, rec, now, todo[0]);
          SameStatus(env, rec, ActOn(env, rec, now, pc), now, pc, OnlineDetails(o, todo[1..]));
        }
      case OnlineSeen(_) =>
        Stamped(env, rec, now);
        Written(rec, now, Cmd(LastSeen, Set(Seconds(now))));
      case OnlineDel(o) => DeleteHolds(env, rec, now, o);
      case _ =>
    }
  }

  lemma {:induction false} AddressKeys(env: Env, o: PeerInfo, ip: Option<IpDetails>)
    ensures forall i | 0 <= i < |AddressCmds(env, o, ip)| :: Plain(AddressCmds(env, o, ip)[i])
  {}

  lemma {:induction false} RefreshHolds(env: Env, rec: Record, now: nat, m: NodeMetaInfo)
    requires Holds(env, rec, now, UnknownExpire(m))
    ensures Holds(env, Exec(rec, now, Cmd(Online, Expire(env.timeout))), now, UnknownSeen(m))
  {
    Written(rec, now, Cmd(Online, Expire(env.timeout)));
  }

  lemma {:induction false} UpgradeHolds(env: Env, rec: Record, now: nat, m: NodeMetaInfo)
    requires Holds(env, rec, now, UnknownSet(m))
    ensures Holds(env, Exec(rec, now, Cmd(Unknown, SetEx("unknown", env.unknownTimeout))), now, UnknownClear(m))
  {
    Written(rec, now, Cmd(Unknown, SetEx("unknown", env.unknownTimeout)));
  }

  lemma {:induction false} UnknownArmHolds(env: Env, rec: Record, now: nat, pc: Pc)
    requires Holds(env, rec, now, pc) && InUnknownArm(pc)
    ensures Holds(env, ActOn(env, rec, now, pc), now, Act(env, rec, now, pc).next)
  {
    match pc {
      case UnknownExpire(m) => RefreshHolds(env, rec, now, m);
      case UnknownSet(m) => UpgradeHolds(env, rec, now, m);
      case UnknownClear(m) =>
        PlainWrite(env, rec, now, Cmd(Reachable, Del));
        SameStatus(env, rec, ActOn(env, rec, now, pc), now, pc, UnknownSeen(m));
      case UnknownSeen(_) =>
        Stamped(env, rec, now);
        Written(rec, now, Cmd(LastSeen, Set(Seconds(now))));
      case _ =>
    }
  }

  lemma {:induction false} ReachableArmHolds(env: Env, rec: Record, now: nat, pc: Pc)
    requires Holds(env, rec, now, pc) && !InOnlineArm(pc) && !InUnknownArm(pc)
    ensures Holds(env, ActOn(env, rec, now, pc), now, Act(env, rec, now, pc).next)
  {
    match pc {
      case ReachableDetails(m, from, ip, todo) =>
        if todo != [] {
          PlainWrite(env, rec, now, todo[0]);
          SameStatus(env, rec, ActOn(env, rec, now, pc), now, pc, ReachableDetails(m, from, ip, todo[1..]));
        }
      case ReachableGeo(m, todo) =>
        if todo != [] {
          PlainWrite(env, rec, now, todo[0]);
          SameStatus(env, rec, ActOn(env, rec, now, pc), now, pc, ReachableGeo(m, todo[1..]));
        }
      case ReachableSeen(_, _) =>
        Stamped(env, rec, now);
        Written(rec, now, Cmd(LastSeen, Set(Seconds(now))));
      case _ =>
    }
  }

  /** Every command of every arm keeps the invariant of the peer it is about. */
  lemma {:induction false} ActHolds(env: Env, rec: Record, now: nat, pc: Pc)
    requires Holds(env, rec, now, pc)
    ensures Holds(env, ActOn(env, rec, now, pc), now, Act(env, rec, now, pc).next)
  {
    if InOnlineArm(pc) {
      OnlineArmHolds(env, rec, now, pc);
    } else if InUnknownArm(pc) {
      UnknownArmHolds(env, rec, now, pc);
    } else {
      ReachableArmHolds(env, rec, now, pc);
    }
  }

  // ---------- over every run ----------

  function PcOf(pc: Pc, p: string): Pc {
    if pc.About(p) then pc else Idle
  }

  lemma {:induction false} NextIsAbout(env: Env, rec: Record, now: nat, pc: Pc, p: string, q: string)
    requires pc.About(p)
    ensures PcOf(Act(env, rec, now, pc).next, q) ==
            if p == q && !Act(env, rec, now, pc).next.ServiceStamp? then Act(env, rec, now, pc).next else Idle
  {}

  /** An action acts on its own peer's record and leaves the others' alone. */
  lemma {:induction false} DidRefines(db: Db, now: nat, p: string, action: Action, q: string)
    ensures View(Did(db, now, p, action), q) == if p == q then DidOwn(View(db, p), now, action) else View(db, q)
  {
    match action
    case Nothing =>
    case Write(c) => ExecRefines(db, now, c, p, q);
    case Stamp => LastUpdateIsNobodys(db, now, Seconds(now), q);
  }

  lemma {:induction false} PerformOn(env: Env, s: State, p: string, q: string)
    requires s.pc.About(p) || s.pc.ServiceStamp?
    ensures View(Perform(env, s, p).db, q) ==
            if p == q then ActOn(env, View(s.db, p), s.now, s.pc) else View(s.db, q)
  {
    DidRefines(s.db, s.now, p, Act(env, View(s.db, p), s.now, s.pc).action, q);
  }

  lemma {:induction false} PerformHolds(env: Env, s: State, p: string, q: string)
    requires s.pc.About(p) || s.pc.ServiceStamp?
    requires Holds(env, View(s.db, q), s.now, PcOf(s.pc, q))
    ensures var t := Perform(env, s, p);
            t.now == s.now && Holds(env, View(t.db, q), t.now, PcOf(t.pc, q))
  {
    if s.pc.ServiceStamp? {
      PerformStamp(env, s, p, q);
    } else if p == q {
      PerformOwn(env, s, p);
    } else {
      PerformOther(env, s, p, q);
    }
  }

  lemma {:induction false} PerformStamp(env: Env, s: State, p: string, q: string)
    requires s.pc.ServiceStamp?
    ensures var t := Perform(env, s, p);
            t.now == s.now && View(t.db, q) == View(s.db, q) && PcOf(t.pc, q) == Idle == PcOf(s.pc, q)
  {
    StampTurn(env, View(s.db, p), s.now);
    DidRefines(s.db, s.now, p, Stamp, q);
  }

  /** The last command of a reachable report, and of the timer, writes the service time stamp: the time of
      that command in whole seconds. No other command touches it. */
  lemma {:induction false} ServiceStamps(env: Env, s: State, p: string)
    requires s.pc.About(p) || s.pc.ServiceStamp?
    ensures Find(Perform(env, s, p).db, "service.last_update") ==
            if s.pc.ServiceStamp? then Some(Entry(Text(Numerals.Decimal(s.now / 1000)), None))
            else Find(s.db, "service.last_update")
  {
    var a := Act(env, View(s.db, p), s.now, s.pc).action;
    if a.Write? {
      FormatIsNotLastUpdate(a.c.key, p);
      ExecOnly(s.db, s.now, Cmd(Format(a.c.key, p), a.c.op), LAST_UPDATE);
    }
  }

  lemma {:induction false} StampTurn(env: Env, rec: Record, now: nat)
    ensures Act(env, rec, now, ServiceStamp) == Turn(Stamp, Idle)
  {}

  lemma {:induction false} PerformOther(env: Env, s: State, p: string, q: string)
    requires s.pc.About(p) && p != q
    ensures var t := Perform(env, s, p);
            t.now == s.now && View(t.db, q) == View(s.db, q) && PcOf(t.pc, q) == Idle == PcOf(s.pc, q)
  {
    PerformOn(env, s, p, q);
    NextIsAbout(env, View(s.db, p), s.now, s.pc, p, q);
    AboutOne(s.pc, p, q);
  }

  lemma AboutOne(pc: Pc, p: string, q: string)
    ensures pc.About(p) && pc.About(q) ==> p == q
  {}

  lemma {:induction false} PerformOwn(env: Env, s: State, p: string)
    requires s.pc.About(p) && Holds(env, View(s.db, p), s.now, s.pc)
    ensures var t := Perform(env, s, p);
            t.now == s.now && Holds(env, View(t.db, p), t.now, PcOf(t.pc, p))
  {
    var rec := View(s.db, p);
    var next := Act(env, rec, s.now, s.pc).next;
    PerformOn(env, s, p, p);
    NextIsAbout(env, rec, s.now, s.pc, p, p);
    ActHolds(env, rec, s.now, s.pc);
    StampIsIdle(env, ActOn(env, rec, s.now, s.pc), s.now, next);
  }

  lemma {:induction false} StampIsIdle(env: Env, rec: Record, now: nat, pc: Pc)
    ensures pc.ServiceStamp? && Holds(env, rec, now, pc) ==> Holds(env, rec, now, Idle)
  {}

  lemma {:induction false} StepKeepsInv(env: Env, s: State, t: State)
    requires Inv(env, s) && Step(env, s, t)
    ensures Inv(env, t)
  {
    forall q
      ensures Holds(env, View(t.db, q), t.now, PcOf(t.pc, q))
    {
      assert Holds(env, View(s.db, q), s.now, PcOf(s.pc, q));
      StepKeepsOne(env, s, t, q);
    }
  }

  lemma {:induction false} StepKeepsOne(env: Env, s: State, t: State, q: string)
    requires Holds(env, View(s.db, q), s.now, PcOf(s.pc, q)) && Step(env, s, t)
    ensures Holds(env, View(t.db, q), t.now, PcOf(t.pc, q))
  {
    if t.db == s.db && t.pc == s.pc && t.now >= s.now {
      TimePasses(env, View(s.db, q), s.now, t.now, PcOf(s.pc, q));
    } else if p :| (s.pc.About(p) || s.pc.ServiceStamp?) && t == Perform(env, s, p) {
      PerformHolds(env, s, p, q);
    } else if report, ip :| t.pc == Start(env, report, ip) {
      StartHolds(env, View(s.db, q), s.now, report, ip);
    }
  }

  lemma {:induction false} RunKeepsInv(env: Env, run: seq<State>)
    requires IsRun(env, run)
    ensures Inv(env, run[|run| - 1])
    decreases |run|
  {
    if |run| == 1 {
      forall p
        ensures Holds(env, View(map[], p), run[0].now, Idle)
      {
        assert View(map[], p) == map[];
      }
    } else {
      RunPrefix(env, run);
      RunKeepsInv(env, run[..|run| - 1]);
      StepKeepsInv(env, run[|run| - 2], run[|run| - 1]);
    }
  }

  lemma {:induction false} RunPrefix(env: Env, run: seq<State>)
    requires IsRun(env, run) && |run| > 1
    ensures IsRun(env, run[..|run| - 1])
    ensures Step(env, run[|run| - 2], run[|run| - 1])
  {
    var front := run[..|run| - 1];
    forall i | 0 <= i < |front| - 1
      ensures Step(env, front[i], front[i + 1])
    {
      assert Step(env, run[i], run[i + 1]);
    }
    assert Step(env, run[|run| - 2], run[|run| - 2 + 1]);
  }

  /** At the granularity of Redis commands, with time passing anywhere: a reader can find a peer both
      online and unknown only while the online arm for that very peer is between setting its lease
      and deleting the unknown key; never at an arm boundary. */
  lemma {:induction false} StatusExclusion(env: Env, run: seq<State>, p: string)
    requires IsRun(env, run)
    ensures var s := run[|run| - 1];
            && Get(s.db, s.now, Format(Online, p)).Some?
            && Get(s.db, s.now, Format(Unknown, p)).Some?
            ==> s.pc.About(p) && BetweenSetAndDelete(s.pc)
  {
    var s := run[|run| - 1];
    RunKeepsInv(env, run);
    ViewFind(s.db, p, Online);
    ViewFind(s.db, p, Unknown);
    assert Holds(env, View(s.db, p), s.now, PcOf(s.pc, p));
  }

  /** Whatever status a reader finds between two arms, the peer's last sighting is no older, to the
      second, than the timeout that status lives by. */
  lemma {:induction false} DisplayFreshness(env: Env, run: seq<State>, p: string, f: Family)
    requires IsRun(env, run) && run[|run| - 1].pc == Idle
    requires f in {Online, Online2, Unknown}
    ensures var s := run[|run| - 1];
            Live(Find(s.db, Format(f, p)), s.now).Some? ==>
              && Seen(View(s.db, p)).Some?
              && s.now / 1000 <= Seen(View(s.db, p)).value
                                 + (if f == Unknown then env.unknownTimeout else env.timeout)
  {
    var s := run[|run| - 1];
    RunKeepsInv(env, run);
    ViewFind(s.db, p, f);
    assert Holds(env, View(s.db, p), s.now, PcOf(s.pc, p));
  }

  // ---------- an undisturbed arm is the arm at one instant ----------

  function Phase(pc: Pc): nat {
    match pc
    case Idle | ServiceStamp => 0
    case OnlineDel(_) | UnknownSeen(_) => 1
    case OnlineSeen(_) | UnknownExpire(_) | UnknownClear(_) | ReachableGeo(_, _) => 2
    case OnlineDetails(_, _) | UnknownSet(_) | ReachableCountry(_, _) => 3
    case OnlineLease(_, _, _) | UnknownCount(_) | ReachableSeen(_, _) => 4
    case OnlineGet(_, _) | UnknownGet(_) | ReachableDetails(_, _, _, _) => 5
  }

  function Left(pc: Pc): nat {
    if pc.OnlineDetails? || pc.ReachableDetails? || pc.ReachableGeo? then |pc.todo| else 0
  }

  /** The peer's record when the arm at `pc` runs to its end with no time passing. */
  function Finish(env: Env, rec: Record, now: nat, pc: Pc): Record
    decreases Phase(pc), Left(pc)
  {
    if pc.Idle? || pc.ServiceStamp? then rec
    else Finish(env, ActOn(env, rec, now, pc), now, Act(env, rec, now, pc).next)
  }

  lemma {:induction false} ExecFirst(rec: Record, now: nat, cmds: seq<Command>)
    requires cmds != []
    ensures ExecAll(rec, now, cmds) == ExecAll(Exec(rec, now, cmds[0]), now, cmds[1..])
  {
    assert cmds == [cmds[0]] + cmds[1..];
    ExecAppend(rec, now, [cmds[0]], cmds[1..]);
    assert [] + [cmds[0]] == [cmds[0]];
    ExecSnoc(rec, now, [], cmds[0]);
  }

  lemma {:induction false} FinishDetails(env: Env, rec: Record, now: nat, o: PeerInfo, todo: seq<Command>)
    ensures Finish(env, rec, now, OnlineDetails(o, todo)) ==
            Exec(Exec(ExecAll(rec, now, todo), now, Cmd(LastSeen, Set(Seconds(now)))), now, Cmd(Unknown, Del))
    decreases |todo|
  {
    if todo == [] {
      var r := Exec(rec, now, Cmd(LastSeen, Set(Seconds(now))));
      assert Finish(env, rec, now, OnlineSeen(o)) == Finish(env, r, now, OnlineDel(o));
      assert Finish(env, r, now, OnlineDel(o)) == Exec(r, now, Cmd(Unknown, Del));
    } else {
      FinishDetails(env, Exec(rec, now, todo[0]), now, o, todo[1..]);
      ExecFirst(rec, now, todo);
    }
  }

  lemma {:induction false} FinishStamp(env: Env, rec: Record, now: nat, m: NodeMetaInfo, ip: Option<IpDetails>)
    ensures Finish(env, rec, now, ReachableSeen(m, ip)) ==
            Finish(env, Exec(rec, now, Cmd(LastSeen, Set(Seconds(now)))), now, ReachableCountry(m, ip))
  {}

  lemma {:induction false} FinishFiling(env: Env, rec: Record, now: nat, m: NodeMetaInfo, from: NodeMetaInfo,
                                        ip: Option<IpDetails>, todo: seq<Command>)
    ensures Finish(env, rec, now, ReachableDetails(m, from, ip, todo)) ==
            Finish(env, Exec(ExecAll(rec, now, todo), now, Cmd(LastSeen, Set(Seconds(now)))), now,
                   ReachableCountry(m, ip))
    decreases |todo|
  {
    if todo == [] {
      assert Finish(env, rec, now, ReachableDetails(m, from, ip, todo)) == Finish(env, rec, now, ReachableSeen(m, ip));
      FinishStamp(env, rec, now, m, ip);
    } else {
      FinishFiling(env, Exec(rec, now, todo[0]), now, m, from, ip, todo[1..]);
      ExecFirst(rec, now, todo);
    }
  }

  lemma {:induction false} FinishGeo(env: Env, rec: Record, now: nat, m: NodeMetaInfo, todo: seq<Command>)
    ensures Finish(env, rec, now, ReachableGeo(m, todo)) == ExecAll(rec, now, todo)
    decreases |todo|
  {
    if todo != [] {
      FinishGeo(env, Exec(rec, now, todo[0]), now, m, todo[1..]);
      ExecFirst(rec, now, todo);
    } else {
      assert Finish(env, rec, now, ServiceStamp) == rec;
    }
  }

  lemma {:induction false} FinishOnline(env: Env, rec: Record, now: nat, o: PeerInfo, ip: Option<IpDetails>)
    ensures Finish(env, rec, now, OnlineGet(o, ip)) == ExecAll(rec, now, OnlineCmds(env, rec, now, o, ip))
  {
    var lease := LeaseCmd(env, Get(rec, now, Online).Some?, o);
    var mid := AddressCmds(env, o, ip);
    var full, seen, del := Cmd(Full, Set(BoolText(o.full))), Cmd(LastSeen, Set(Seconds(now))), Cmd(Unknown, Del);
    FinishLease(env, rec, now, o, ip);
    FinishDetails(env, Exec(rec, now, lease), now, o, mid + [full]);
    Surrounded(rec, now, lease, mid, full, seen, del);
    ExecSnoc(Exec(rec, now, lease), now, mid, full);
  }

  lemma {:induction false} FinishLease(env: Env, rec: Record, now: nat, o: PeerInfo, ip: Option<IpDetails>)
    ensures var lease := LeaseCmd(env, Get(rec, now, Online).Some?, o);
            Finish(env, rec, now, OnlineGet(o, ip)) ==
            Finish(env, Exec(rec, now, lease), now,
                   OnlineDetails(o, AddressCmds(env, o, ip) + [Cmd(Full, Set(BoolText(o.full)))]))
  {
    assert Finish(env, rec, now, OnlineGet(o, ip)) ==
           Finish(env, rec, now, OnlineLease(o, ip, Get(rec, now, Online).Some?));
  }

  lemma {:induction false} FinishSeen(env: Env, rec: Record, now: nat, m: NodeMetaInfo)
    ensures Finish(env, rec, now, UnknownSeen(m)) == Exec(rec, now, Cmd(LastSeen, Set(Seconds(now))))
  {}

  lemma {:induction false} FinishUpgrade(env: Env, rec: Record, now: nat, m: NodeMetaInfo)
    ensures var a, b := Cmd(Unknown, SetEx("unknown", env.unknownTimeout)), Cmd(Reachable, Del);
            Finish(env, rec, now, UnknownSet(m)) ==
            Exec(Exec(Exec(rec, now, a), now, b), now, Cmd(LastSeen, Set(Seconds(now))))
  {
    var a, b := Cmd(Unknown, SetEx("unknown", env.unknownTimeout)), Cmd(Reachable, Del);
    FinishSeen(env, Exec(Exec(rec, now, a), now, b), now, m);
    assert Finish(env, Exec(rec, now, a), now, UnknownClear(m)) ==
           Finish(env, Exec(Exec(rec, now, a), now, b), now, UnknownSeen(m));
  }

  lemma {:induction false} Execs(rec: Record, now: nat, cmds: seq<Command>)
    ensures |cmds| == 1 ==> ExecAll(rec, now, cmds) == Exec(rec, now, cmds[0])
    ensures |cmds| == 2 ==> ExecAll(rec, now, cmds) == Exec(Exec(rec, now, cmds[0]), now, cmds[1])
    ensures |cmds| == 3 ==> ExecAll(rec, now, cmds) == Exec(Exec(Exec(rec, now, cmds[0]), now, cmds[1]), now, cmds[2])
  {
    if |cmds| > 0 {
      ExecFirst(rec, now, cmds);
      if |cmds| > 1 {
        ExecFirst(Exec(rec, now, cmds[0]), now, cmds[1..]);
        if |cmds| > 2 {
          ExecFirst(Exec(Exec(rec, now, cmds[0]), now, cmds[1]), now, cmds[1..][1..]);
        }
      }
    }
  }

  lemma {:induction false} FinishUnknown(env: Env, rec: Record, now: nat, m: NodeMetaInfo)
    ensures Finish(env, rec, now, UnknownGet(m)) == ExecAll(rec, now, UnknownCmds(env, rec, now))
  {
    Execs(rec, now, UnknownCmds(env, rec, now));
    if Get(rec, now, Online).Some? {
      var e := Cmd(Online, Expire(env.timeout));
      FinishSeen(env, Exec(rec, now, e), now, m);
      assert Finish(env, rec, now, UnknownGet(m)) == Finish(env, rec, now, UnknownExpire(m));
    } else {
      assert Finish(env, rec, now, UnknownGet(m)) == Finish(env, rec, now, UnknownCount(m));
      if SCard(rec, now, Reachable) >= env.witnesses {
        FinishUpgrade(env, rec, now, m);
      } else {
        FinishSeen(env, rec, now, m);
      }
    }
  }

  lemma {:induction false} FinishReachable(env: Env, rec: Record, now: nat, m: NodeMetaInfo, from: NodeMetaInfo,
                                           ip: Option<IpDetails>)
    ensures Finish(env, rec, now, ReachableDetails(m, from, ip, Filing(env, m, from))) ==
            ExecAll(rec, now, ReachableCmds(env, rec, now, m, from, ip))
  {
    var geo := if Get(rec, now, Country).GetOr("") == "" then GeoCmds(ip) else [];
    var writes := ReachableWrites(env, now, m, from);
    FinishFiling(env, rec, now, m, from, ip, Filing(env, m, from));
    FiledAndSeen(env, rec, now, m, from);
    WritesKeepCountry(env, rec, now, m, from);
    FinishCountry(env, ExecAll(rec, now, writes), now, m, ip, geo);
    ExecAppend(rec, now, writes, geo);
  }

  lemma {:induction false} FiledAndSeen(env: Env, rec: Record, now: nat, m: NodeMetaInfo, from: NodeMetaInfo)
    ensures Exec(ExecAll(rec, now, Filing(env, m, from)), now, Cmd(LastSeen, Set(Seconds(now)))) ==
            ExecAll(rec, now, ReachableWrites(env, now, m, from))
  {
    var seen := Cmd(LastSeen, Set(Seconds(now)));
    ExecSnoc(rec, now, Filing(env, m, from), seen);
    assert Filing(env, m, from) + [seen] == ReachableWrites(env, now, m, from);
  }

  lemma {:induction false} FinishCountry(env: Env, rec: Record, now: nat, m: NodeMetaInfo, ip: Option<IpDetails>,
                                         geo: seq<Command>)
    requires geo == if Get(rec, now, Country).GetOr("") == "" then GeoCmds(ip) else []
    ensures Finish(env, rec, now, ReachableCountry(m, ip)) == ExecAll(rec, now, geo)
  {
    FinishGeo(env, rec, now, m, geo);
  }

  /** Command by command with no time passing, every arm leaves what the arm taken as one step leaves. */
  lemma {:induction false} FinishIsHandle(env: Env, rec: Record, i: Input)
    ensures Finish(env, rec, i.at, Start(env, i.report, i.ip)) == Handle(env, rec, i)
  {
    match i.report
    case OnlineReport(o) => FinishOnline(env, rec, i.at, o, i.ip);
    case UnknownReport(m) => FinishUnknown(env, rec, i.at, m);
    case ReachableReport(m, from) => FinishReachable(env, rec, i.at, m, from, i.ip);
  }
}
