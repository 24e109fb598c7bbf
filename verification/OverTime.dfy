/** Arms that take time. The histories of reports that the leases are told from give every report one
    instant; here each command of an arm has its own, and the question is when that makes a difference
    to a peer's status. It does in one case only: a lease that was found live and has ended by the time
    it is refreshed. */
module OverTime {
  import opened Wrappers
  import opened Redis
  import opened Keys
  import opened Types
  import opened Arms
  import opened Interleaving
  import Leases
  import Store
  import Witnesses

  /** One report's arm, and the times at which its commands so far ran. */
  datatype Arm = Arm(report: Report, ip: Option<IpDetails>, times: seq<nat>)

  /** A peer's record and where the loop stands in that peer's arm. */
  datatype Progress = Progress(rec: Record, pc: Pc)

  /** The commands of an arm, from its start, each at its own time. */
  function Played(env: Env, rec: Record, start: Pc, times: seq<nat>): Progress {
    if times == [] then Progress(rec, start)
    else
      var g, now := Played(env, rec, start, times[..|times| - 1]), times[|times| - 1];
      Progress(ActOn(env, g.rec, now, g.pc), Act(env, g.rec, now, g.pc).next)
  }

  function PlayedArm(env: Env, rec: Record, a: Arm): Progress {
    Played(env, rec, Start(env, a.report, a.ip), a.times)
  }

  /** A peer's record after its arms, the last of which may still be going on. */
  function RunOver(env: Env, arms: seq<Arm>): Record {
    if arms == [] then map[]
    else PlayedArm(env, RunOver(env, arms[..|arms| - 1]), arms[|arms| - 1]).rec
  }

  predicate IsOver(pc: Pc) {
    pc.Idle? || pc.ServiceStamp?
  }

  predicate AllOver(env: Env, arms: seq<Arm>) {
    arms == []
    || (AllOver(env, arms[..|arms| - 1])
        && IsOver(PlayedArm(env, RunOver(env, arms[..|arms| - 1]), arms[|arms| - 1]).pc))
  }

  predicate Rising(times: seq<nat>, t: nat) {
    (forall i, j | 0 <= i <= j < |times| :: times[i] <= times[j]) && forall i | 0 <= i < |times| :: times[i] <= t
  }

  function Begins(a: Arm, t: nat): nat {
    if a.times == [] then t else a.times[0]
  }

  /** The commands of all arms in the order they ran, none after `t`. */
  predicate Sequential(arms: seq<Arm>, t: nat) {
    arms == []
    || (Rising(arms[|arms| - 1].times, t)
        && Sequential(arms[..|arms| - 1], Begins(arms[|arms| - 1], t)))
  }

  // ---------- what an arm over time does to the status keys ----------

  predicate IsStatus(f: Family) {
    f == Online || f == Online2 || f == Unknown || f == Reachable
  }

  ghost predicate SameKeys(r: Record, s: Record) {
    forall f | IsStatus(f) :: Find(r, f) == Find(s, f)
  }

  function At(times: seq<nat>, i: nat): nat {
    if i < |times| then times[i] else 0
  }

  /** What each status key holds after the arm: the online key is looked at first, and what was seen
      then is acted on later. */
  function StatusAfter(env: Env, rec: Record, report: Report, times: seq<nat>, f: Family): Option<Entry> {
    match report
    case OnlineReport(o) => AfterOnlineOver(env, rec, o, times, f)
    case UnknownReport(_) => AfterUnknownOver(env, rec, times, f)
    case ReachableReport(_, from) =>
      if f == Reachable then Apply(Find(rec, f), At(times, 0), SAdd(from.peerId)) else Find(rec, f)
  }

  function AfterOnlineOver(env: Env, rec: Record, o: PeerInfo, times: seq<nat>, f: Family): Option<Entry> {
    var lease := LeaseCmd(env, Get(rec, At(times, 0), Online).Some?, o);
    if f == lease.key then Apply(Find(rec, f), At(times, 1), lease.op)
    else if f == Unknown then None
    else Find(rec, f)
  }

  predicate Upgrades(env: Env, rec: Record, times: seq<nat>) {
    Get(rec, At(times, 0), Online).None? && SCard(rec, At(times, 1), Reachable) >= env.witnesses
  }

  function AfterUnknownOver(env: Env, rec: Record, times: seq<nat>, f: Family): Option<Entry> {
    var was := Find(rec, f);
    if f == Online && Get(rec, At(times, 0), Online).Some? then Apply(was, At(times, 1), Expire(env.timeout))
    else if f == Unknown && Upgrades(env, rec, times) then
      Some(Entry(Text("unknown"), Some(At(times, 2) + Ms(env.unknownTimeout))))
    else if f == Reachable && Upgrades(env, rec, times) then None
    else was
  }

  predicate Aside(c: Command) {
    !IsStatus(c.key)
  }

  predicate AllAside(cmds: seq<Command>) {
    forall i | 0 <= i < |cmds| :: Aside(cmds[i])
  }

  /** The status keys are as the finished arm leaves them, but for `late`, which is as it was. */
  ghost predicate DoneBut(env: Env, rec: Record, report: Report, times: seq<nat>, r: Record, late: Option<Family>) {
    forall f | IsStatus(f) ::
      Find(r, f) == if late == Some(f) then Find(rec, f) else StatusAfter(env, rec, report, times, f)
  }

  /** What the status keys hold at each place of the online arm. */
  ghost predicate OnlineSoFar(env: Env, rec: Record, o: PeerInfo, ip: Option<IpDetails>, times: seq<nat>, g: Progress) {
    match g.pc
    case OnlineGet(x, y) => x == o && y == ip && times == [] && SameKeys(g.rec, rec)
    case OnlineLease(x, y, found) =>
      && x == o && y == ip && |times| == 1
      && found == Get(rec, times[0], Online).Some? && SameKeys(g.rec, rec)
    case OnlineDetails(x, todo) =>
      x == o && |times| >= 2 && AllAside(todo) && DoneBut(env, rec, OnlineReport(o), times, g.rec, Some(Unknown))
    case OnlineSeen(x) => x == o && |times| >= 2 && DoneBut(env, rec, OnlineReport(o), times, g.rec, Some(Unknown))
    case OnlineDel(x) => x == o && |times| >= 2 && DoneBut(env, rec, OnlineReport(o), times, g.rec, Some(Unknown))
    case Idle => |times| >= 3 && DoneBut(env, rec, OnlineReport(o), times, g.rec, None)
    case _ => false
  }

  /** The same in the unknown arm. */
  ghost predicate UnknownSoFar(env: Env, rec: Record, m: NodeMetaInfo, times: seq<nat>, g: Progress) {
    match g.pc
    case UnknownGet(x) => x == m && times == [] && SameKeys(g.rec, rec)
    case UnknownExpire(x) => x == m && |times| == 1 && Get(rec, times[0], Online).Some? && SameKeys(g.rec, rec)
    case UnknownCount(x) => x == m && |times| == 1 && Get(rec, times[0], Online).None? && SameKeys(g.rec, rec)
    case UnknownSet(x) => x == m && |times| == 2 && Upgrades(env, rec, times) && SameKeys(g.rec, rec)
    case UnknownClear(x) =>
      x == m && |times| == 3 && Upgrades(env, rec, times)
      && DoneBut(env, rec, UnknownReport(m), times, g.rec, Some(Reachable))
    case UnknownSeen(x) => x == m && |times| >= 2 && DoneBut(env, rec, UnknownReport(m), times, g.rec, None)
                           && (Upgrades(env, rec, times) ==> |times| >= 3)
    case Idle => |times| >= 3 && DoneBut(env, rec, UnknownReport(m), times, g.rec, None)
    case _ => false
  }

  /** The same in the reachable arm. */
  ghost predicate ReachableSoFar(env: Env, rec: Record, m: NodeMetaInfo, from: NodeMetaInfo, times: seq<nat>,
                                 g: Progress)
  {
    match g.pc
    case ReachableDetails(x, y, _, todo) =>
      && x == m && y == from
      && if times == [] then todo == Filing(env, m, from) && SameKeys(g.rec, rec)
         else AllAside(todo) && DoneBut(env, rec, ReachableReport(m, from), times, g.rec, None)
    case ReachableSeen(_, _) => times != [] && DoneBut(env, rec, ReachableReport(m, from), times, g.rec, None)
    case ReachableCountry(_, _) => times != [] && DoneBut(env, rec, ReachableReport(m, from), times, g.rec, None)
    case ReachableGeo(_, todo) =>
      times != [] && AllAside(todo) && DoneBut(env, rec, ReachableReport(m, from), times, g.rec, None)
    case ServiceStamp => times != [] && DoneBut(env, rec, ReachableReport(m, from), times, g.rec, None)
    case Idle => times != [] && DoneBut(env, rec, ReachableReport(m, from), times, g.rec, None)
    case _ => false
  }

  /** Times still to come change nothing that was decided. */
  lemma {:induction false} SettledStatus(env: Env, rec: Record, report: Report, times: seq<nat>, now: nat, f: Family)
    requires report.OnlineReport? ==> |times| >= 2
    requires report.UnknownReport? ==> |times| >= 2 && (Upgrades(env, rec, times) ==> |times| >= 3)
    requires report.ReachableReport? ==> |times| >= 1
    ensures StatusAfter(env, rec, report, times + [now], f) == StatusAfter(env, rec, report, times, f)
    ensures report.UnknownReport? ==> (Upgrades(env, rec, times + [now]) <==> Upgrades(env, rec, times))
  {
    assert At(times + [now], 0) == At(times, 0);
    if !report.ReachableReport? {
      assert At(times + [now], 1) == At(times, 1);
      if |times| >= 3 {
        assert At(times + [now], 2) == At(times, 2);
      }
    }
  }

  /** A command that touches no status key leaves the account as it is. */
  lemma {:induction false} AsideStep(env: Env, rec: Record, report: Report, times: seq<nat>, r: Record, now: nat,
                                     a: Action, late: Option<Family>)
    requires DoneBut(env, rec, report, times, r, late)
    requires a.Write? ==> Aside(a.c)
    requires report.OnlineReport? ==> |times| >= 2
    requires report.UnknownReport? ==> |times| >= 2 && (Upgrades(env, rec, times) ==> |times| >= 3)
    requires report.ReachableReport? ==> |times| >= 1
    ensures DoneBut(env, rec, report, times + [now], DidOwn(r, now, a), late)
  {
    forall f | IsStatus(f)
      ensures Find(DidOwn(r, now, a), f) == Find(r, f)
      ensures StatusAfter(env, rec, report, times + [now], f) == StatusAfter(env, rec, report, times, f)
    {
      if a.Write? {
        ExecOnly(r, now, a.c, f);
      }
      SettledStatus(env, rec, report, times, now, f);
    }
  }

  lemma {:induction false} AddressesAside(env: Env, o: PeerInfo, ip: Option<IpDetails>)
    ensures AllAside(AddressCmds(env, o, ip) + [Cmd(Full, Set(BoolText(o.full)))])
  {}

  lemma {:induction false} LeaseStep(env: Env, rec: Record, o: PeerInfo, ip: Option<IpDetails>, times: seq<nat>,
                                     r: Record, found: bool, now: nat)
    requires OnlineSoFar(env, rec, o, ip, times, Progress(r, OnlineLease(o, ip, found)))
    ensures DoneBut(env, rec, OnlineReport(o), times + [now], Exec(r, now, LeaseCmd(env, found, o)), Some(Unknown))
  {
    var c := LeaseCmd(env, found, o);
    assert At(times + [now], 0) == times[0] && At(times + [now], 1) == now;
    forall f | IsStatus(f)
      ensures Find(Exec(r, now, c), f) == if f == c.key then Apply(Find(rec, f), now, c.op) else Find(rec, f)
    {
      ExecOnly(r, now, c, f);
    }
  }

  lemma {:induction false} DeleteStep(env: Env, rec: Record, o: PeerInfo, times: seq<nat>, r: Record, now: nat)
    requires |times| >= 2 && DoneBut(env, rec, OnlineReport(o), times, r, Some(Unknown))
    ensures DoneBut(env, rec, OnlineReport(o), times + [now], Exec(r, now, Cmd(Unknown, Del)), None)
  {
    forall f | IsStatus(f)
      ensures Find(Exec(r, now, Cmd(Unknown, Del)), f) == StatusAfter(env, rec, OnlineReport(o), times + [now], f)
    {
      ExecOnly(r, now, Cmd(Unknown, Del), f);
      SettledStatus(env, rec, OnlineReport(o), times, now, f);
    }
  }

  lemma {:induction false} OnlineStep(env: Env, rec: Record, o: PeerInfo, ip: Option<IpDetails>, times: seq<nat>,
                                      g: Progress, now: nat)
    requires OnlineSoFar(env, rec, o, ip, times, g) && !g.pc.Idle?
    ensures OnlineSoFar(env, rec, o, ip, times + [now],
                        Progress(ActOn(env, g.rec, now, g.pc), Act(env, g.rec, now, g.pc).next))
  {
    match g.pc {
      case OnlineLease(_, _, found) =>
        LeaseStep(env, rec, o, ip, times, g.rec, found, now);
        AddressesAside(env, o, ip);
      case OnlineDetails(_, todo) =>
        AsideStep(env, rec, OnlineReport(o), times, g.rec, now, Act(env, g.rec, now, g.pc).action, Some(Unknown));
      case OnlineSeen(_) =>
        AsideStep(env, rec, OnlineReport(o), times, g.rec, now, Act(env, g.rec, now, g.pc).action, Some(Unknown));
      case OnlineDel(_) => DeleteStep(env, rec, o, times, g.rec, now);
      case _ =>
    }
  }

  lemma {:induction false} UpgradeSeen(env: Env, rec: Record, r: Record, times: seq<nat>, now: nat)
    requires |times| == 1 && Get(rec, times[0], Online).None? && SameKeys(r, rec)
    ensures Upgrades(env, rec, times + [now]) <==> SCard(r, now, Reachable) >= env.witnesses
  {
    assert At(times + [now], 0) == times[0] && At(times + [now], 1) == now;
  }

  lemma {:induction false} RefreshStep(env: Env, rec: Record, m: NodeMetaInfo, r: Record, times: seq<nat>, now: nat)
    requires |times| == 1 && Get(rec, times[0], Online).Some? && SameKeys(r, rec)
    ensures DoneBut(env, rec, UnknownReport(m), times + [now], Exec(r, now, Cmd(Online, Expire(env.timeout))), None)
    ensures !Upgrades(env, rec, times + [now])
  {
    assert At(times + [now], 0) == times[0] && At(times + [now], 1) == now;
    forall f | IsStatus(f)
      ensures Find(Exec(r, now, Cmd(Online, Expire(env.timeout))), f) ==
              if f == Online then Apply(Find(rec, f), now, Expire(env.timeout)) else Find(rec, f)
    {
      ExecOnly(r, now, Cmd(Online, Expire(env.timeout)), f);
    }
  }

  lemma {:induction false} SpareStep(env: Env, rec: Record, m: NodeMetaInfo, r: Record, times: seq<nat>, now: nat)
    requires |times| == 1 && Get(rec, times[0], Online).None? && SameKeys(r, rec)
    requires SCard(r, now, Reachable) < env.witnesses
    ensures DoneBut(env, rec, UnknownReport(m), times + [now], r, None)
    ensures !Upgrades(env, rec, times + [now])
  {
    UpgradeSeen(env, rec, r, times, now);
    assert At(times + [now], 0) == times[0];
  }

  lemma {:induction false} UpgradeStep(env: Env, rec: Record, m: NodeMetaInfo, r: Record, times: seq<nat>, now: nat)
    requires |times| == 2 && Upgrades(env, rec, times) && SameKeys(r, rec)
    ensures Upgrades(env, rec, times + [now])
    ensures DoneBut(env, rec, UnknownReport(m), times + [now],
                    Exec(r, now, Cmd(Unknown, SetEx("unknown", env.unknownTimeout))), Some(Reachable))
  {
    assert At(times + [now], 0) == At(times, 0) && At(times + [now], 1) == At(times, 1) && At(times + [now], 2) == now;
    var c := Cmd(Unknown, SetEx("unknown", env.unknownTimeout));
    forall f | IsStatus(f)
      ensures Find(Exec(r, now, c), f) == if f == Unknown then Apply(Find(rec, f), now, c.op) else Find(rec, f)
    {
      ExecOnly(r, now, c, f);
    }
  }

  lemma {:induction false} ClearStep(env: Env, rec: Record, m: NodeMetaInfo, r: Record, times: seq<nat>, now: nat)
    requires |times| == 3 && Upgrades(env, rec, times)
    requires DoneBut(env, rec, UnknownReport(m), times, r, Some(Reachable))
    ensures DoneBut(env, rec, UnknownReport(m), times + [now], Exec(r, now, Cmd(Reachable, Del)), None)
  {
    forall f | IsStatus(f)
      ensures Find(Exec(r, now, Cmd(Reachable, Del)), f) == StatusAfter(env, rec, UnknownReport(m), times + [now], f)
    {
      ExecOnly(r, now, Cmd(Reachable, Del), f);
      SettledStatus(env, rec, UnknownReport(m), times, now, f);
    }
  }

  lemma {:induction false} UnknownStep(env: Env, rec: Record, m: NodeMetaInfo, times: seq<nat>, g: Progress, now: nat)
    requires UnknownSoFar(env, rec, m, times, g) && !g.pc.Idle?
    ensures UnknownSoFar(env, rec, m, times + [now],
                         Progress(ActOn(env, g.rec, now, g.pc), Act(env, g.rec, now, g.pc).next))
  {
    match g.pc {
      case UnknownGet(_) =>
      case UnknownExpire(_) => RefreshStep(env, rec, m, g.rec, times, now);
      case UnknownCount(_) =>
        UpgradeSeen(env, rec, g.rec, times, now);
        if SCard(g.rec, now, Reachable) < env.witnesses {
          SpareStep(env, rec, m, g.rec, times, now);
        }
      case UnknownSet(_) => UpgradeStep(env, rec, m, g.rec, times, now);
      case UnknownClear(_) =>
        ClearStep(env, rec, m, g.rec, times, now);
        SettledStatus(env, rec, UnknownReport(m), times, now, Unknown);
      case UnknownSeen(_) =>
        AsideStep(env, rec, UnknownReport(m), times, g.rec, now, Act(env, g.rec, now, g.pc).action, None);
      case _ =>
    }
  }

  lemma {:induction false} FirstFiled(env: Env, rec: Record, m: NodeMetaInfo, from: NodeMetaInfo, r: Record, now: nat)
    requires SameKeys(r, rec)
    ensures DoneBut(env, rec, ReachableReport(m, from), [now], Exec(r, now, Filing(env, m, from)[0]), None)
    ensures AllAside(Filing(env, m, from)[1..])
  {
    forall f | IsStatus(f)
      ensures Find(Exec(r, now, Filing(env, m, from)[0]), f) ==
              if f == Reachable then Apply(Find(rec, f), now, SAdd(from.peerId)) else Find(rec, f)
    {
      ExecOnly(r, now, Filing(env, m, from)[0], f);
    }
  }

  lemma {:induction false} GeoAside(ip: Option<IpDetails>)
    ensures AllAside(GeoCmds(ip))
  {}

  lemma {:induction false} ReachableStep(env: Env, rec: Record, m: NodeMetaInfo, from: NodeMetaInfo, times: seq<nat>,
                                         g: Progress, now: nat)
    requires ReachableSoFar(env, rec, m, from, times, g) && !g.pc.Idle? && !g.pc.ServiceStamp?
    ensures ReachableSoFar(env, rec, m, from, times + [now],
                           Progress(ActOn(env, g.rec, now, g.pc), Act(env, g.rec, now, g.pc).next))
  {
    if g.pc.ReachableDetails? && times == [] {
      FirstFiled(env, rec, m, from, g.rec, now);
      assert times + [now] == [now];
    } else {
      if g.pc.ReachableCountry? {
        GeoAside(g.pc.ip);
      }
      AsideStep(env, rec, ReachableReport(m, from), times, g.rec, now, Act(env, g.rec, now, g.pc).action, None);
    }
  }

  ghost predicate SoFar(env: Env, rec: Record, report: Report, ip: Option<IpDetails>, times: seq<nat>, g: Progress) {
    match report
    case OnlineReport(o) => OnlineSoFar(env, rec, o, ip, times, g)
    case UnknownReport(m) => UnknownSoFar(env, rec, m, times, g)
    case ReachableReport(m, from) => ReachableSoFar(env, rec, m, from, times, g)
  }

  lemma {:induction false} SoFarStep(env: Env, rec: Record, report: Report, ip: Option<IpDetails>, times: seq<nat>,
                                     g: Progress, now: nat)
    requires SoFar(env, rec, report, ip, times, g)
    ensures SoFar(env, rec, report, ip, times + [now],
                  Progress(ActOn(env, g.rec, now, g.pc), Act(env, g.rec, now, g.pc).next))
  {
    if IsOver(g.pc) {
      AsideStep(env, rec, report, times, g.rec, now, Act(env, g.rec, now, g.pc).action, None);
    } else {
      match report
      case OnlineReport(o) => OnlineStep(env, rec, o, ip, times, g, now);
      case UnknownReport(m) => UnknownStep(env, rec, m, times, g, now);
      case ReachableReport(m, from) => ReachableStep(env, rec, m, from, times, g, now);
    }
  }

  lemma {:induction false} ArmSoFar(env: Env, rec: Record, report: Report, ip: Option<IpDetails>, times: seq<nat>)
    ensures SoFar(env, rec, report, ip, times, Played(env, rec, Start(env, report, ip), times))
    decreases |times|
  {
    if times != [] {
      var front, now := times[..|times| - 1], times[|times| - 1];
      ArmSoFar(env, rec, report, ip, front);
      SoFarStep(env, rec, report, ip, front, Played(env, rec, Start(env, report, ip), front), now);
      assert front + [now] == times;
    }
  }

  /** What a whole arm does to the status keys, whenever its commands ran. */
  lemma {:induction false} ArmEffect(env: Env, rec: Record, a: Arm, f: Family)
    requires IsOver(PlayedArm(env, rec, a).pc) && IsStatus(f)
    ensures Find(PlayedArm(env, rec, a).rec, f) == StatusAfter(env, rec, a.report, a.times, f)
    ensures a.times != [] && (!a.report.ReachableReport? ==> |a.times| >= 3)
  {
    ArmSoFar(env, rec, a.report, a.ip, a.times);
  }

  // ---------- when it is as if the arm took no time ----------

  /** The instant an arm's effect on status belongs to: that of the command that changes the lease. */
  function Instant(rec: Record, a: Arm): nat {
    match a.report
    case OnlineReport(_) => At(a.times, 1)
    case UnknownReport(_) => if Get(rec, At(a.times, 0), Online).Some? then At(a.times, 1) else At(a.times, 2)
    case ReachableReport(_, _) => At(a.times, 0)
  }

  /** The lease was found live and has ended by the time it is refreshed. */
  predicate Lapses(rec: Record, a: Arm) {
    && !a.report.ReachableReport?
    && Get(rec, At(a.times, 0), Online).Some?
    && Get(rec, At(a.times, 1), Online).None?
  }

  function AsInput(rec: Record, a: Arm): Input {
    Input(Instant(rec, a), a.report, a.ip)
  }

  /** Witness sets have no time to live. */
  predicate LastingWitnesses(rec: Record) {
    match Find(rec, Reachable)
    case None => true
    case Some(e) => e.value.Members? && e.expiry == None
  }

  lemma {:induction false} OnlineAgrees(env: Env, rec: Record, o: PeerInfo, ip: Option<IpDetails>, t0: nat, t1: nat,
                                        times: seq<nat>)
    requires At(times, 0) == t0 <= At(times, 1) == t1
    ensures (forall f | IsStatus(f) :: AfterOnlineOver(env, rec, o, times, f) == AfterOnline(env, rec, t1, o, ip, f))
            <==> !(Get(rec, t0, Online).Some? && Get(rec, t1, Online).None?)
  {
    if Get(rec, t0, Online).Some? && Get(rec, t1, Online).None? {
      assert AfterOnlineOver(env, rec, o, times, Online) == None;
      assert AfterOnline(env, rec, t1, o, ip, Online).Some?;
    }
  }

  lemma {:induction false} RefreshAgrees(env: Env, rec: Record, t0: nat, t1: nat, times: seq<nat>)
    requires At(times, 0) == t0 <= At(times, 1) == t1 && Get(rec, t0, Online).Some?
    ensures (forall f | IsStatus(f) :: AfterUnknownOver(env, rec, times, f) == AfterUnknown(env, rec, t1, f))
            <==> Get(rec, t1, Online).Some?
  {
    if Get(rec, t1, Online).None? {
      assert AfterUnknownOver(env, rec, times, Online) == None;
      assert AfterUnknown(env, rec, t1, Online).Some?;
    }
  }

  lemma {:induction false} UpgradeAgrees(env: Env, rec: Record, times: seq<nat>)
    requires At(times, 0) <= At(times, 1) <= At(times, 2) && Get(rec, At(times, 0), Online).None?
    requires LastingWitnesses(rec)
    ensures forall f | IsStatus(f) :: AfterUnknownOver(env, rec, times, f) == AfterUnknown(env, rec, At(times, 2), f)
    ensures Get(rec, At(times, 1), Online).None?
  {
    assert SCard(rec, At(times, 1), Reachable) == SCard(rec, At(times, 2), Reachable);
    assert Get(rec, At(times, 2), Online).None?;
  }

  lemma {:induction false} RisingAt(times: seq<nat>, t: nat)
    requires Rising(times, t) && |times| >= 3
    ensures At(times, 0) <= At(times, 1) <= At(times, 2) <= t
  {}

  /** An arm over time leaves the status keys as the same arm at one instant does, exactly when no lease
      ends between being found and being refreshed. */
  lemma {:induction false} ArmAgrees(env: Env, rec: Record, a: Arm, t: nat)
    requires IsOver(PlayedArm(env, rec, a).pc) && Rising(a.times, t) && LastingWitnesses(rec)
    ensures (forall f | IsStatus(f) :: Find(PlayedArm(env, rec, a).rec, f) == After(env, rec, AsInput(rec, a), f))
            <==> !Lapses(rec, a)
  {
    forall f | IsStatus(f)
      ensures Find(PlayedArm(env, rec, a).rec, f) == StatusAfter(env, rec, a.report, a.times, f)
    {
      ArmEffect(env, rec, a, f);
    }
    ArmEffect(env, rec, a, Online);
    StatusAgrees(env, rec, a, t);
  }

  lemma {:induction false} StatusAgrees(env: Env, rec: Record, a: Arm, t: nat)
    requires Rising(a.times, t) && LastingWitnesses(rec)
    requires a.times != [] && (!a.report.ReachableReport? ==> |a.times| >= 3)
    ensures (forall f | IsStatus(f) ::
              StatusAfter(env, rec, a.report, a.times, f) == After(env, rec, AsInput(rec, a), f))
            <==> !Lapses(rec, a)
  {
    if !a.report.ReachableReport? {
      RisingAt(a.times, t);
    }
    match a.report {
      case OnlineReport(o) => OnlineAgrees(env, rec, o, a.ip, At(a.times, 0), At(a.times, 1), a.times);
      case UnknownReport(_) =>
        if Get(rec, At(a.times, 0), Online).Some? {
          RefreshAgrees(env, rec, At(a.times, 0), At(a.times, 1), a.times);
        } else {
          UpgradeAgrees(env, rec, a.times);
        }
      case ReachableReport(_, _) =>
    }
  }

  /** What a lapse leaves: no online key, and after an online report no unknown key either, for a peer
      that was reported on just now. */
  lemma {:induction false} LapseLeavesNothing(env: Env, rec: Record, a: Arm)
    requires IsOver(PlayedArm(env, rec, a).pc) && Lapses(rec, a)
    ensures Find(PlayedArm(env, rec, a).rec, Online) == None
    ensures a.report.OnlineReport? ==> Find(PlayedArm(env, rec, a).rec, Unknown) == None
  {
    ArmEffect(env, rec, a, Online);
    ArmEffect(env, rec, a, Unknown);
  }

  /** It can happen: a peer reported online once, and found unreachable as its lease ends. */
  lemma {:induction false} LapseHappens(env: Env, o: PeerInfo, u: nat)
    requires env.Sound() && !o.isEx
    ensures var rec := Run(env, [Input(u, OnlineReport(o), None)]);
            var end := u + Ms(env.timeout);
            var a := Arm(UnknownReport(o.info), None, [u, end, end]);
            Rising(a.times, end) && Lapses(rec, a) && IsOver(PlayedArm(env, rec, a).pc)
  {
    var x := Input(u, OnlineReport(o), None);
    var end := u + Ms(env.timeout);
    var rec := Run(env, [x]);
    assert [] + [x] == [x];
    OnlineKey(env, [], x);
    assert Find(rec, Online) == Some(Entry(Text(o.version), Some(end)));
    RefreshPlays(env, rec, o.info, u, end);
  }

  lemma {:induction false} RefreshPlays(env: Env, rec: Record, m: NodeMetaInfo, u: nat, end: nat)
    requires Get(rec, u, Online).Some?
    ensures Played(env, rec, UnknownGet(m), [u, end, end]).pc == Idle
  {
    var start := UnknownGet(m);
    assert [u, end, end][..2] == [u, end] && [u, end][..1] == [u] && [u][..0] == [];
    assert Played(env, rec, start, []) == Progress(rec, start);
    assert Played(env, rec, start, [u]) == Progress(rec, UnknownExpire(m));
    assert Played(env, rec, start, [u, end]).pc == UnknownSeen(m);
  }

  // ---------- over a peer's whole history ----------

  /** The history of reports that the arms stand for, each at the instant its effect belongs to. A report
      whose arm lapsed is not in it. */
  function History(env: Env, arms: seq<Arm>): seq<Input> {
    if arms == [] then []
    else
      var front, last := arms[..|arms| - 1], arms[|arms| - 1];
      if Lapses(RunOver(env, front), last) then History(env, front)
      else History(env, front) + [AsInput(RunOver(env, front), last)]
  }

  /** How much of that history lies before the last online report whose arm lapsed: all that such an arm
      does is end the unknown lease. */
  function Ended(env: Env, arms: seq<Arm>): (n: nat)
    ensures n <= |History(env, arms)|
  {
    if arms == [] then 0
    else
      var front, last := arms[..|arms| - 1], arms[|arms| - 1];
      if Lapses(RunOver(env, front), last) && last.report.OnlineReport? then |History(env, front)|
      else Ended(env, front)
  }

  /** No upgrade from the `n`-th report on is standing. */
  ghost predicate Cleared(env: Env, h: seq<Input>, n: nat) {
    forall u: nat | n <= u :: !Witnesses.OpensUnknown(env, h, u)
  }

  predicate SameLease(e: Option<Entry>, f: Option<Entry>, t: nat) {
    e == f || (e == None && Live(f, t) == None)
  }

  /** The record shows what the history leaves, but that an ended online lease may be gone altogether,
      and that upgrades before the `n`-th report no longer count. */
  ghost predicate Tracks(env: Env, rec: Record, h: seq<Input>, n: nat, t: nat) {
    && n <= |h|
    && SameLease(Find(rec, Online), Find(Run(env, h), Online), t)
    && Find(rec, Online2) == Find(Run(env, h), Online2)
    && Find(rec, Reachable) == Find(Run(env, h), Reachable)
    && Find(rec, Unknown) == if Cleared(env, h, n) then None else Find(Run(env, h), Unknown)
  }

  lemma {:induction false} WitnessesLast(env: Env, h: seq<Input>, t: nat, rec: Record)
    requires env.Sound() && Leases.Ordered(h, t) && Find(rec, Reachable) == Find(Run(env, h), Reachable)
    ensures LastingWitnesses(rec)
  {
    Witnesses.WitnessSet(env, h, t);
  }

  lemma {:induction false} InstantWithin(rec: Record, a: Arm, t: nat)
    requires Rising(a.times, t) && a.times != [] && (!a.report.ReachableReport? ==> |a.times| >= 3)
    ensures Begins(a, t) <= Instant(rec, a) <= t
  {
    if !a.report.ReachableReport? {
      RisingAt(a.times, t);
    }
  }

  lemma {:induction false} NextLease(env: Env, e: Option<Entry>, f: Option<Entry>, x: Input, b: nat, t: nat)
    requires SameLease(e, f, b) && b <= x.at <= t
    ensures SameLease(OnlineNext(env, e, x), OnlineNext(env, f, x), t)
    ensures Alive(e, x.at) <==> Alive(f, x.at)
  {}

  lemma {:induction false} ClearedSnoc(env: Env, h: seq<Input>, x: Input, n: nat)
    requires n <= |h|
    ensures Cleared(env, h + [x], n) <==>
            !Witnesses.IsUpgrade(env, h + [x], |h|) && (Leases.IsOnline(x) || Cleared(env, h, n))
  {
    var g := h + [x];
    assert Witnesses.OpensUnknown(env, g, |h|) <==> Witnesses.IsUpgrade(env, g, |h|);
    forall u: nat | u < |h|
      ensures Witnesses.OpensUnknown(env, g, u) <==> Witnesses.OpensUnknown(env, h, u) && !Leases.IsOnline(x)
    {
      OpensSnoc(env, h, x, u);
    }
  }

  lemma {:induction false} OpensSnoc(env: Env, h: seq<Input>, x: Input, u: nat)
    requires u < |h|
    ensures Witnesses.OpensUnknown(env, h + [x], u) <==> Witnesses.OpensUnknown(env, h, u) && !Leases.IsOnline(x)
  {
    Witnesses.UpgradePrefix(env, h, x, u);
    var g := h + [x];
    if Witnesses.OpensUnknown(env, g, u) {
      assert !Leases.IsOnline(g[|h|]);
      forall k | u < k < |h|
        ensures !Leases.IsOnline(h[k])
      {
        assert g[k] == h[k];
      }
    }
  }

  /** A report moves record and history on alike. */
  lemma {:induction false} TracksNext(env: Env, rec: Record, next: Record, h: seq<Input>, n: nat, x: Input,
                                      b: nat, t: nat)
    requires env.Sound() && Leases.Ordered(h, x.at) && Tracks(env, rec, h, n, b) && b <= x.at <= t
    requires forall f | IsStatus(f) :: Find(next, f) == After(env, rec, x, f)
    ensures Tracks(env, next, h + [x], n, t)
  {
    assert Find(next, Online) == After(env, rec, x, Online) && Find(next, Online2) == After(env, rec, x, Online2);
    assert Find(next, Unknown) == After(env, rec, x, Unknown) && Find(next, Reachable) == After(env, rec, x, Reachable);
    NextLease(env, Find(rec, Online), Find(Run(env, h), Online), x, b, t);
    OnlineTracks(env, rec, h, x, b, t);
    OthersTrack(env, rec, h, x);
    UnknownTracks(env, rec, h, n, x);
  }

  lemma {:induction false} OnlineTracks(env: Env, rec: Record, h: seq<Input>, x: Input, b: nat, t: nat)
    requires SameLease(Find(rec, Online), Find(Run(env, h), Online), b) && b <= x.at <= t
    ensures SameLease(After(env, rec, x, Online), Find(Run(env, h + [x]), Online), t)
  {
    NextLease(env, Find(rec, Online), Find(Run(env, h), Online), x, b, t);
    OnlineAfter(env, rec, x);
    OnlineKey(env, h, x);
  }

  lemma {:induction false} OthersTrack(env: Env, rec: Record, h: seq<Input>, x: Input)
    requires Alive(Find(rec, Online), x.at) <==> Alive(Find(Run(env, h), Online), x.at)
    requires Find(rec, Online2) == Find(Run(env, h), Online2) && Find(rec, Reachable) == Find(Run(env, h), Reachable)
    ensures After(env, rec, x, Online2) == Find(Run(env, h + [x]), Online2)
    ensures After(env, rec, x, Reachable) == Find(Run(env, h + [x]), Reachable)
  {
    Online2After(env, rec, x);
    ReachableAfter(env, rec, x);
    Online2Key(env, h, x);
    ReachableKey(env, h, x);
  }

  lemma {:induction false} UnknownTracks(env: Env, rec: Record, h: seq<Input>, n: nat, x: Input)
    requires env.Sound() && Leases.Ordered(h, x.at) && n <= |h|
    requires Alive(Find(rec, Online), x.at) <==> Alive(Find(Run(env, h), Online), x.at)
    requires Find(rec, Reachable) == Find(Run(env, h), Reachable)
    requires Find(rec, Unknown) == if Cleared(env, h, n) then None else Find(Run(env, h), Unknown)
    ensures After(env, rec, x, Unknown) ==
            if Cleared(env, h + [x], n) then None else Find(Run(env, h + [x]), Unknown)
  {
    UnknownAfter(env, rec, x);
    UnknownKey(env, h, x);
    Witnesses.WitnessSet(env, h, x.at);
    Witnesses.UpgradeGuard(env, h, x);
    ClearedSnoc(env, h, x, n);
  }

  lemma {:induction false} HistoryStep(env: Env, rec: Record, a: Arm, h: seq<Input>, n: nat, t: nat)
    requires env.Sound() && Leases.Ordered(h, Begins(a, t)) && Tracks(env, rec, h, n, Begins(a, t))
    requires IsOver(PlayedArm(env, rec, a).pc) && Rising(a.times, t) && !Lapses(rec, a)
    ensures Leases.Ordered(h + [AsInput(rec, a)], t)
    ensures Tracks(env, PlayedArm(env, rec, a).rec, h + [AsInput(rec, a)], n, t)
  {
    var x := AsInput(rec, a);
    ArmEffect(env, rec, a, Online);
    InstantWithin(rec, a, t);
    assert (h + [x])[..|h|] == h;
    Leases.OrderedLater(h, Begins(a, t), x.at);
    WitnessesLast(env, h, Begins(a, t), rec);
    ArmAgrees(env, rec, a, t);
    TracksNext(env, rec, PlayedArm(env, rec, a).rec, h, n, x, Begins(a, t), t);
  }

  lemma {:induction false} LapseStep(env: Env, rec: Record, a: Arm, h: seq<Input>, n: nat, t: nat)
    requires env.Sound() && Leases.Ordered(h, Begins(a, t)) && Tracks(env, rec, h, n, Begins(a, t))
    requires IsOver(PlayedArm(env, rec, a).pc) && Rising(a.times, t) && Lapses(rec, a)
    ensures Leases.Ordered(h, t)
    ensures Tracks(env, PlayedArm(env, rec, a).rec, h, if a.report.OnlineReport? then |h| else n, t)
  {
    ArmEffect(env, rec, a, Online);
    RisingAt(a.times, t);
    Leases.OrderedLater(h, Begins(a, t), t);
    LapsedKeys(env, rec, a);
    assert Live(Find(rec, Online), At(a.times, 1)) == None;
    assert Live(Find(Run(env, h), Online), t) == None;
  }

  lemma {:induction false} LapsedKeys(env: Env, rec: Record, a: Arm)
    requires IsOver(PlayedArm(env, rec, a).pc) && Lapses(rec, a)
    ensures var r := PlayedArm(env, rec, a).rec;
            && Find(r, Online) == None
            && Find(r, Online2) == Find(rec, Online2) && Find(r, Reachable) == Find(rec, Reachable)
            && Find(r, Unknown) == if a.report.OnlineReport? then None else Find(rec, Unknown)
  {
    ArmEffect(env, rec, a, Online);
    ArmEffect(env, rec, a, Online2);
    ArmEffect(env, rec, a, Reachable);
    ArmEffect(env, rec, a, Unknown);
  }

  /** Whatever the timing, arms leave the status keys as their history of instants does. */
  lemma {:induction false} HistoryStands(env: Env, arms: seq<Arm>, t: nat)
    requires env.Sound() && AllOver(env, arms) && Sequential(arms, t)
    ensures Leases.Ordered(History(env, arms), t)
    ensures Tracks(env, RunOver(env, arms), History(env, arms), Ended(env, arms), t)
  {
    if arms != [] {
      var front, a := arms[..|arms| - 1], arms[|arms| - 1];
      HistoryStands(env, front, Begins(a, t));
      if Lapses(RunOver(env, front), a) {
        LapseStep(env, RunOver(env, front), a, History(env, front), Ended(env, front), t);
      } else {
        HistoryStep(env, RunOver(env, front), a, History(env, front), Ended(env, front), t);
      }
    }
  }

  // ---------- the arms of a run ----------

  /** The report an arm is about to handle when it has just been taken up. */
  function ReportAt(pc: Pc): Option<Arm> {
    match pc
    case OnlineGet(o, ip) => Some(Arm(OnlineReport(o), ip, []))
    case UnknownGet(m) => Some(Arm(UnknownReport(m), None, []))
    case ReachableDetails(m, from, ip, _) => Some(Arm(ReachableReport(m, from), ip, []))
    case _ => None
  }

  /** What one step of the loop adds to the arms of `p`: a new arm, or the time of one more command. */
  function Extended(s: State, t: State, p: string, arms: seq<Arm>): seq<Arm> {
    if t.pc == s.pc then arms
    else if s.pc == Idle then (if t.pc.About(p) && ReportAt(t.pc).Some? then arms + [ReportAt(t.pc).value] else arms)
    else if s.pc.About(p) && arms != [] then
      var a := arms[|arms| - 1];
      arms[..|arms| - 1] + [a.(times := a.times + [s.now])]
    else arms
  }

  /** The arms a run of the loop has taken up for one peer, with the times their commands ran at. */
  function ArmsOf(run: seq<State>, p: string): seq<Arm> {
    if |run| <= 1 then []
    else Extended(run[|run| - 2], run[|run| - 1], p, ArmsOf(run[..|run| - 1], p))
  }

  /** The peer's record is what its arms make of it; the last of them is at `pc` if that is about the
      peer, and over if it is not. */
  ghost predicate Follows(env: Env, rec: Record, now: nat, pc: Pc, p: string, arms: seq<Arm>) {
    && rec == RunOver(env, arms) && Sequential(arms, now)
    && if pc.About(p) then
         && arms != [] && AllOver(env, arms[..|arms| - 1])
         && PlayedArm(env, RunOver(env, arms[..|arms| - 1]), arms[|arms| - 1]).pc == pc
       else AllOver(env, arms)
  }

  lemma {:induction false} LaterIsFine(arms: seq<Arm>, t: nat, u: nat)
    requires Sequential(arms, t) && t <= u
    ensures Sequential(arms, u)
    decreases |arms|
  {
    if arms != [] {
      var a := arms[|arms| - 1];
      if a.times == [] {
        LaterIsFine(arms[..|arms| - 1], t, u);
      }
    }
  }

  lemma {:induction false} Waits(env: Env, rec: Record, now: nat, later: nat, pc: Pc, p: string, arms: seq<Arm>)
    requires Follows(env, rec, now, pc, p, arms) && now <= later
    ensures Follows(env, rec, later, pc, p, arms)
  {
    LaterIsFine(arms, now, later);
  }

  lemma {:induction false} StartIsReport(env: Env, report: Report, ip: Option<IpDetails>)
    ensures var a := ReportAt(Start(env, report, ip));
            a.Some? && a.value.times == [] && Start(env, a.value.report, a.value.ip) == Start(env, report, ip)
  {}

  lemma {:induction false} TakesUp(env: Env, rec: Record, now: nat, p: string, arms: seq<Arm>, report: Report,
                                   ip: Option<IpDetails>)
    requires Follows(env, rec, now, Idle, p, arms)
    requires Start(env, report, ip).About(p)
    ensures Follows(env, rec, now, Start(env, report, ip), p, arms + [ReportAt(Start(env, report, ip)).value])
  {
    StartIsReport(env, report, ip);
    var a := ReportAt(Start(env, report, ip)).value;
    assert (arms + [a])[..|arms|] == arms;
    assert PlayedArm(env, rec, a) == Progress(rec, Start(env, report, ip));
  }

  lemma {:induction false} PlaysOn(env: Env, rec: Record, a: Arm, now: nat)
    ensures PlayedArm(env, rec, a.(times := a.times + [now])) ==
            var g := PlayedArm(env, rec, a);
            Progress(ActOn(env, g.rec, now, g.pc), Act(env, g.rec, now, g.pc).next)
  {
    assert (a.times + [now])[..|a.times|] == a.times;
  }

  lemma {:induction false} StillSequential(arms: seq<Arm>, now: nat)
    requires arms != [] && Sequential(arms, now)
    ensures var a := arms[|arms| - 1];
            Sequential(arms[..|arms| - 1] + [a.(times := a.times + [now])], now)
  {
    var a := arms[|arms| - 1];
    var later := arms[..|arms| - 1] + [a.(times := a.times + [now])];
    assert later[..|later| - 1] == arms[..|arms| - 1];
  }

  lemma {:induction false} GoesOn(env: Env, rec: Record, now: nat, pc: Pc, p: string, arms: seq<Arm>)
    requires Follows(env, rec, now, pc, p, arms) && pc.About(p)
    ensures var a := arms[|arms| - 1];
            Follows(env, ActOn(env, rec, now, pc), now, Act(env, rec, now, pc).next, p,
                    arms[..|arms| - 1] + [a.(times := a.times + [now])])
  {
    var front, a := arms[..|arms| - 1], arms[|arms| - 1];
    var later := front + [a.(times := a.times + [now])];
    PlaysOn(env, RunOver(env, front), a, now);
    StillSequential(arms, now);
    assert later[..|later| - 1] == front;
    NextIsAbout(env, rec, now, pc, p, p);
    OverOrAbout(env, rec, now, pc, p);
  }

  lemma {:induction false} OverOrAbout(env: Env, rec: Record, now: nat, pc: Pc, p: string)
    requires pc.About(p)
    ensures Act(env, rec, now, pc).next.About(p) || IsOver(Act(env, rec, now, pc).next)
    ensures Act(env, rec, now, pc).next != pc
  {}

  lemma {:induction false} TakenUp(env: Env, s: State, t: State, p: string, arms: seq<Arm>, report: Report,
                                   ip: Option<IpDetails>)
    requires Follows(env, Store.View(s.db, p), s.now, Idle, p, arms)
    requires s.pc == Idle && t == s.(pc := Start(env, report, ip))
    ensures Follows(env, Store.View(t.db, p), t.now, t.pc, p, Extended(s, t, p, arms))
  {
    StartIsReport(env, report, ip);
    if t.pc.About(p) {
      TakesUp(env, Store.View(s.db, p), s.now, p, arms, report, ip);
    }
  }

  lemma {:induction false} FollowsStep(env: Env, s: State, t: State, p: string, arms: seq<Arm>)
    requires Step(env, s, t) && Follows(env, Store.View(s.db, p), s.now, s.pc, p, arms)
    ensures Follows(env, Store.View(t.db, p), t.now, t.pc, p, Extended(s, t, p, arms))
  {
    if t.db == s.db && t.pc == s.pc && t.now >= s.now {
      Waits(env, Store.View(s.db, p), s.now, t.now, s.pc, p, arms);
    } else if q :| (s.pc.About(q) || s.pc.ServiceStamp?) && t == Perform(env, s, q) {
      Performed(env, s, p, q, arms);
    } else if t.pc != ServiceStamp {
      var report, ip :| t.pc == Start(env, report, ip);
      TakenUp(env, s, t, p, arms, report, ip);
    }
  }

  lemma {:induction false} Performed(env: Env, s: State, p: string, q: string, arms: seq<Arm>)
    requires s.pc.About(q) || s.pc.ServiceStamp?
    requires Follows(env, Store.View(s.db, p), s.now, s.pc, p, arms)
    ensures var t := Perform(env, s, q); Follows(env, Store.View(t.db, p), t.now, t.pc, p, Extended(s, t, p, arms))
  {
    if s.pc.ServiceStamp? {
      PerformStamp(env, s, q, p);
      StampTurn(env, Store.View(s.db, q), s.now);
    } else if p == q {
      OwnGoesOn(env, s, p, arms);
    } else {
      OtherGoesOn(env, s, p, q, arms);
    }
  }

  lemma {:induction false} OwnGoesOn(env: Env, s: State, p: string, arms: seq<Arm>)
    requires s.pc.About(p)
    requires Follows(env, Store.View(s.db, p), s.now, s.pc, p, arms)
    ensures var t := Perform(env, s, p); Follows(env, Store.View(t.db, p), t.now, t.pc, p, Extended(s, t, p, arms))
  {
    OverOrAbout(env, Store.View(s.db, p), s.now, s.pc, p);
    PerformOn(env, s, p, p);
    GoesOn(env, Store.View(s.db, p), s.now, s.pc, p, arms);
  }

  lemma {:induction false} OtherGoesOn(env: Env, s: State, p: string, q: string, arms: seq<Arm>)
    requires s.pc.About(q) && p != q
    requires Follows(env, Store.View(s.db, p), s.now, s.pc, p, arms)
    ensures var t := Perform(env, s, q); Follows(env, Store.View(t.db, p), t.now, t.pc, p, Extended(s, t, p, arms))
  {
    PerformOther(env, s, q, p);
    AboutOne(s.pc, p, q);
    OverOrAbout(env, Store.View(s.db, q), s.now, s.pc, q);
    AboutOne(Perform(env, s, q).pc, p, q);
  }

  /** Over every run at the granularity of commands, a peer's record is what its own arms make of it. */
  lemma {:induction false} RunFollows(env: Env, run: seq<State>, p: string)
    requires IsRun(env, run)
    ensures var s := run[|run| - 1]; Follows(env, Store.View(s.db, p), s.now, s.pc, p, ArmsOf(run, p))
    decreases |run|
  {
    if |run| == 1 {
      assert Store.View(map[], p) == map[];
    } else {
      RunPrefix(env, run);
      RunFollows(env, run[..|run| - 1], p);
      FollowsStep(env, run[|run| - 2], run[|run| - 1], p, ArmsOf(run[..|run| - 1], p));
    }
  }

  /** The status keys of a record mean what a history of reports says they should, with upgrades before
      the `n`-th report no longer counting. */
  ghost predicate Means(env: Env, rec: Record, h: seq<Input>, n: nat, t: nat, version: string) {
    && (Get(rec, t, Online) == Some(version) <==>
          exists j: nat :: Leases.FirstAnchor(env, Leases.Beats(h), j, t)
                           && Leases.Beats(h)[j].report.online.version == version)
    && (Get(rec, t, Online2) == Some(version) <==>
          exists i: nat :: Leases.LastOpensEx(env, h, i) && t < h[i].at + 1000 * env.timeout
                           && h[i].report.online.version == version)
    && (Live(Find(rec, Unknown), t).Some? <==>
          exists u: nat :: n <= u && Witnesses.OpensUnknown(env, h, u) && t < h[u].at + 1000 * env.unknownTimeout)
    && SMembers(rec, t, Reachable) == Witnesses.Since(env, h)
  }

  lemma {:induction false} UnknownMeans(env: Env, h: seq<Input>, n: nat, t: nat, e: Option<Entry>)
    requires env.Sound() && Leases.Ordered(h, t)
    requires e == if Cleared(env, h, n) then None else Find(Run(env, h), Unknown)
    ensures Live(e, t).Some? <==>
            exists u: nat :: n <= u && Witnesses.OpensUnknown(env, h, u) && t < h[u].at + 1000 * env.unknownTimeout
  {
    Witnesses.UnknownLease(env, h, t);
    if !Cleared(env, h, n) {
      Witnesses.UnknownTracksHistory(env, h, t);
      var v: nat :| n <= v && Witnesses.OpensUnknown(env, h, v);
      var u: nat :| Witnesses.UnknownEntry(env, h, Find(Run(env, h), Unknown).value, u);
      assert v <= u;
    }
  }

  lemma {:induction false} ReadAlike(rec: Record, s: Record, t: nat)
    requires SameLease(Find(rec, Online), Find(s, Online), t)
    requires Find(rec, Online2) == Find(s, Online2) && Find(rec, Reachable) == Find(s, Reachable)
    ensures Get(rec, t, Online) == Get(s, t, Online) && Get(rec, t, Online2) == Get(s, t, Online2)
    ensures SMembers(rec, t, Reachable) == SMembers(s, t, Reachable)
  {}

  lemma {:induction false} HistoryMeans(env: Env, h: seq<Input>, t: nat, version: string)
    requires env.Sound() && Leases.Ordered(h, t)
    ensures var s := Run(env, h);
            && (Get(s, t, Online) == Some(version) <==>
                  exists j: nat :: Leases.FirstAnchor(env, Leases.Beats(h), j, t)
                                   && Leases.Beats(h)[j].report.online.version == version)
            && (Get(s, t, Online2) == Some(version) <==>
                  exists i: nat :: Leases.LastOpensEx(env, h, i) && t < h[i].at + 1000 * env.timeout
                                   && h[i].report.online.version == version)
            && SMembers(s, t, Reachable) == Witnesses.Since(env, h)
  {
    Leases.OnlineLease(env, h, t, version);
    Leases.ExLease(env, h, t, version);
    Witnesses.WitnessSet(env, h, t);
  }

  lemma {:induction false} TracksMeans(env: Env, rec: Record, h: seq<Input>, n: nat, t: nat, version: string)
    requires env.Sound() && Leases.Ordered(h, t) && Tracks(env, rec, h, n, t)
    ensures Means(env, rec, h, n, t, version)
  {
    HistoryMeans(env, h, t, version);
    ReadAlike(rec, Run(env, h), t);
    UnknownMeans(env, h, n, t, Find(rec, Unknown));
  }

  /** The lease theorems at the granularity of commands, whatever the timing: read while no command of the
      peer's own arms is pending, the peer's share of the store means what its history says, a history
      without the reports whose arms lapsed. */
  lemma {:induction false} StatusOverTime(env: Env, run: seq<State>, p: string, version: string)
    requires env.Sound() && IsRun(env, run) && !run[|run| - 1].pc.About(p)
    ensures var s, arms := run[|run| - 1], ArmsOf(run, p);
            Means(env, Store.View(s.db, p), History(env, arms), Ended(env, arms), s.now, version)
  {
    var s, arms := run[|run| - 1], ArmsOf(run, p);
    RunFollows(env, run, p);
    HistoryStands(env, arms, s.now);
    TracksMeans(env, Store.View(s.db, p), History(env, arms), Ended(env, arms), s.now, version);
  }
}
