/** Arms that take time, and the keys without a time to live: network, filing, addresses, geo fields and
    fullness. For these the timing of an arm's commands makes no difference at all. */
module FactsOverTime {
  import opened Wrappers
  import opened Redis
  import opened Keys
  import opened Types
  import opened Arms
  import opened Interleaving
  import opened OverTime
  import Facts
  import Store
  import Witnesses

  /** The families whose keys are never given a time to live. */
  predicate Lasts(f: Family) {
    f in {Ip, Country, City, Region, Pos, Full, Stored, QuickMirana, QuickPudge, QuickDev}
  }

  ghost predicate NoExpiry(rec: Record) {
    forall f | Lasts(f) && f in rec :: rec[f].expiry == None
  }

  ghost predicate SameLasting(r: Record, s: Record) {
    forall f | Lasts(f) :: Find(r, f) == Find(s, f)
  }

  /** On a lasting key, nothing but SET and SADD. */
  predicate Steady(c: Command) {
    Lasts(c.key) ==> c.op.Set? || c.op.SAdd?
  }

  predicate AllSteady(cmds: seq<Command>) {
    forall i | 0 <= i < |cmds| :: Steady(cmds[i])
  }

  lemma {:induction false} TimelessApply(e: Option<Entry>, t: nat, u: nat, op: Op)
    requires e.Some? ==> e.value.expiry == None
    requires op.Set? || op.SAdd?
    ensures Apply(e, t, op) == Apply(e, u, op)
    ensures Apply(e, t, op).Some? && Apply(e, t, op).value.expiry == None
  {}

  lemma {:induction false} ExecSteady(r: Record, s: Record, t: nat, u: nat, c: Command)
    requires NoExpiry(r) && SameLasting(r, s) && Steady(c)
    ensures SameLasting(Exec(r, t, c), Exec(s, u, c)) && NoExpiry(Exec(r, t, c))
  {
    forall f | Lasts(f)
      ensures Find(Exec(r, t, c), f) == Find(Exec(s, u, c), f)
      ensures Find(Exec(r, t, c), f).Some? ==> Find(Exec(r, t, c), f).value.expiry == None
    {
      ExecOnly(r, t, c, f);
      ExecOnly(s, u, c, f);
      assert Find(r, f) == Find(s, f);
      if f == c.key {
        TimelessApply(Find(r, f), t, u, c.op);
      }
    }
    LastingFound(Exec(r, t, c));
  }

  lemma {:induction false} LastingFound(rec: Record)
    requires forall f | Lasts(f) :: Find(rec, f).Some? ==> Find(rec, f).value.expiry == None
    ensures NoExpiry(rec)
  {
    forall f | Lasts(f) && f in rec
      ensures rec[f].expiry == None
    {
      assert Find(rec, f) == Some(rec[f]);
    }
  }

  lemma {:induction false} ExecAllSteady(r: Record, s: Record, t: nat, u: nat, cmds: seq<Command>)
    requires NoExpiry(r) && SameLasting(r, s) && AllSteady(cmds)
    ensures SameLasting(ExecAll(r, t, cmds), ExecAll(s, u, cmds)) && NoExpiry(ExecAll(r, t, cmds))
    decreases |cmds|
  {
    if cmds != [] {
      var front, c := cmds[..|cmds| - 1], cmds[|cmds| - 1];
      ExecAllSteady(r, s, t, u, front);
      ExecSteady(ExecAll(r, t, front), ExecAll(s, u, front), t, u, c);
    }
  }

  lemma {:induction false} Besides(r: Record, t: nat, c: Command)
    requires !Lasts(c.key)
    ensures SameLasting(Exec(r, t, c), r)
  {
    forall f | Lasts(f)
      ensures Find(Exec(r, t, c), f) == Find(r, f)
    {
      ExecOnly(r, t, c, f);
    }
  }

  // ---------- what is still to be written ----------

  /** The geo writes a reachable report owes a record as it was at its start. */
  function GeoDue(rec: Record, ip: Option<IpDetails>): seq<Command> {
    if Get(rec, 0, Country).GetOr("") == "" then GeoCmds(ip) else []
  }

  /** The writes to lasting keys that an arm standing at `pc` has before it. */
  function Due(env: Env, rec: Record, ip: Option<IpDetails>, pc: Pc): seq<Command> {
    match pc
    case OnlineGet(o, _) => AddressCmds(env, o, ip) + [Cmd(Full, Set(BoolText(o.full)))]
    case OnlineLease(o, _, _) => AddressCmds(env, o, ip) + [Cmd(Full, Set(BoolText(o.full)))]
    case OnlineDetails(_, todo) => todo
    case ReachableDetails(_, _, _, todo) => todo + GeoDue(rec, ip)
    case ReachableSeen(_, _) => GeoDue(rec, ip)
    case ReachableCountry(_, _) => GeoDue(rec, ip)
    case ReachableGeo(_, todo) => todo
    case _ => []
  }

  /** The country is not written before it is read. */
  predicate CountryWaits(pc: Pc) {
    match pc
    case ReachableDetails(_, _, _, todo) => forall i | 0 <= i < |todo| :: todo[i].key != Country
    case _ => true
  }

  predicate ReadsCountry(pc: Pc) {
    pc.ReachableDetails? || pc.ReachableSeen? || pc.ReachableCountry?
  }

  predicate CarriesIp(pc: Pc, ip: Option<IpDetails>) {
    match pc
    case OnlineGet(_, y) => y == ip
    case OnlineLease(_, y, _) => y == ip
    case ReachableDetails(_, _, y, _) => y == ip
    case ReachableSeen(_, y) => y == ip
    case ReachableCountry(_, y) => y == ip
    case _ => true
  }

  /** With what is due still written, the lasting keys are as the arm at one instant leaves them. */
  ghost predicate OnTrack(env: Env, rec: Record, report: Report, ip: Option<IpDetails>, g: Progress) {
    && NoExpiry(rec) && NoExpiry(g.rec) && AllSteady(Due(env, rec, ip, g.pc))
    && CarriesIp(g.pc, ip) && CountryWaits(g.pc)
    && (ReadsCountry(g.pc) ==> Find(g.rec, Country) == Find(rec, Country))
    && (forall f | Lasts(f) ::
          Find(ExecAll(g.rec, 0, Due(env, rec, ip, g.pc)), f) == After(env, rec, Input(0, report, ip), f))
  }

  /** Replacing the record by one with the same lasting keys, and what is due by the same. */
  lemma {:induction false} StaysOnTrack(env: Env, rec: Record, report: Report, ip: Option<IpDetails>, g: Progress,
                                        next: Progress)
    requires OnTrack(env, rec, report, ip, g) && SameLasting(next.rec, g.rec)
    requires Due(env, rec, ip, next.pc) == Due(env, rec, ip, g.pc)
    requires CarriesIp(next.pc, ip) && CountryWaits(next.pc) && (ReadsCountry(next.pc) ==> ReadsCountry(g.pc))
    ensures OnTrack(env, rec, report, ip, next)
  {
    var due := Due(env, rec, ip, g.pc);
    ExecAllSteady(g.rec, next.rec, 0, 0, due);
    forall f | Lasts(f)
      ensures Find(next.rec, f).Some? ==> Find(next.rec, f).value.expiry == None
      ensures Find(ExecAll(next.rec, 0, due), f) == Find(ExecAll(g.rec, 0, due), f)
    {
      assert Find(next.rec, f) == Find(g.rec, f);
    }
    LastingFound(next.rec);
    assert Find(next.rec, Country) == Find(g.rec, Country);
  }

  /** Writing the first of what is due. */
  lemma {:induction false} WritesDue(env: Env, rec: Record, report: Report, ip: Option<IpDetails>, g: Progress,
                                     next: Pc, now: nat)
    requires OnTrack(env, rec, report, ip, g) && Due(env, rec, ip, g.pc) != []
    requires Due(env, rec, ip, next) == Due(env, rec, ip, g.pc)[1..]
    requires CarriesIp(next, ip) && CountryWaits(next)
    requires ReadsCountry(next) ==> ReadsCountry(g.pc) && Due(env, rec, ip, g.pc)[0].key != Country
    ensures OnTrack(env, rec, report, ip, Progress(Exec(g.rec, now, Due(env, rec, ip, g.pc)[0]), next))
  {
    var due := Due(env, rec, ip, g.pc);
    var c := due[0];
    assert Steady(c);
    ExecSteady(g.rec, g.rec, now, 0, c);
    ExecFirst(g.rec, 0, due);
    ExecAllSteady(Exec(g.rec, now, c), Exec(g.rec, 0, c), 0, 0, due[1..]);
    ExecOnly(g.rec, now, c, Country);
    assert AllSteady(due[1..]);
  }

  lemma {:induction false} GeoSteady(ip: Option<IpDetails>)
    ensures AllSteady(GeoCmds(ip))
  {}

  /** The country is read late, but reads as it would have at the start. */
  lemma {:induction false} CountryReadLate(rec: Record, r: Record, now: nat)
    requires NoExpiry(rec) && Find(r, Country) == Find(rec, Country)
    ensures Get(r, now, Country) == Get(rec, 0, Country)
  {
    if Country in rec {
      assert rec[Country].expiry == None;
    }
  }

  lemma {:induction false} OnlineOnTrack(env: Env, rec: Record, report: Report, ip: Option<IpDetails>, g: Progress,
                                         now: nat)
    requires OnTrack(env, rec, report, ip, g) && InOnlineArm(g.pc)
    ensures OnTrack(env, rec, report, ip, Progress(ActOn(env, g.rec, now, g.pc), Act(env, g.rec, now, g.pc).next))
  {
    if g.pc.OnlineLease? {
      LeaseOnTrack(env, rec, report, ip, g, now);
    } else if g.pc.OnlineDetails? && g.pc.todo != [] {
      WritesDue(env, rec, report, ip, g, OnlineDetails(g.pc.o, g.pc.todo[1..]), now);
    } else {
      AsideOnTrack(env, rec, report, ip, g, now);
    }
  }

  lemma {:induction false} LeaseOnTrack(env: Env, rec: Record, report: Report, ip: Option<IpDetails>, g: Progress,
                                        now: nat)
    requires OnTrack(env, rec, report, ip, g) && g.pc.OnlineLease?
    ensures OnTrack(env, rec, report, ip, Progress(ActOn(env, g.rec, now, g.pc), Act(env, g.rec, now, g.pc).next))
  {
    var next := Progress(ActOn(env, g.rec, now, g.pc), Act(env, g.rec, now, g.pc).next);
    Besides(g.rec, now, LeaseCmd(env, g.pc.found, g.pc.o));
    StaysOnTrack(env, rec, report, ip, g, next);
  }

  /** The commands that write no lasting key, or nothing. */
  lemma {:induction false} AsideOnTrack(env: Env, rec: Record, report: Report, ip: Option<IpDetails>, g: Progress,
                                        now: nat)
    requires OnTrack(env, rec, report, ip, g)
    requires g.pc.OnlineGet? || (g.pc.OnlineDetails? && g.pc.todo == []) || g.pc.OnlineSeen? || g.pc.OnlineDel?
    ensures OnTrack(env, rec, report, ip, Progress(ActOn(env, g.rec, now, g.pc), Act(env, g.rec, now, g.pc).next))
  {
    var next := Progress(ActOn(env, g.rec, now, g.pc), Act(env, g.rec, now, g.pc).next);
    var action := Act(env, g.rec, now, g.pc).action;
    if action.Write? {
      Besides(g.rec, now, action.c);
    }
    StaysOnTrack(env, rec, report, ip, g, next);
  }

  lemma {:induction false} UnknownOnTrack(env: Env, rec: Record, report: Report, ip: Option<IpDetails>, g: Progress,
                                          now: nat)
    requires OnTrack(env, rec, report, ip, g) && (InUnknownArm(g.pc) || IsOver(g.pc))
    ensures OnTrack(env, rec, report, ip, Progress(ActOn(env, g.rec, now, g.pc), Act(env, g.rec, now, g.pc).next))
  {
    var next := Progress(ActOn(env, g.rec, now, g.pc), Act(env, g.rec, now, g.pc).next);
    var action := Act(env, g.rec, now, g.pc).action;
    if action.Write? {
      Besides(g.rec, now, action.c);
    }
    StaysOnTrack(env, rec, report, ip, g, next);
  }

  lemma {:induction false} FilingOnTrack(env: Env, rec: Record, report: Report, g: Progress,
                                         m: NodeMetaInfo, from: NodeMetaInfo, ip: Option<IpDetails>, todo: seq<Command>,
                                         now: nat)
    requires g.pc == ReachableDetails(m, from, ip, todo) && OnTrack(env, rec, report, ip, g) && todo != []
    ensures OnTrack(env, rec, report, ip,
                    Progress(Exec(g.rec, now, todo[0]), ReachableDetails(m, from, ip, todo[1..])))
  {
    var due := Due(env, rec, ip, g.pc);
    assert due == todo + GeoDue(rec, ip) && due[0] == todo[0];
    assert due[1..] == todo[1..] + GeoDue(rec, ip);
    WritesDue(env, rec, report, ip, g, ReachableDetails(m, from, ip, todo[1..]), now);
  }

  lemma {:induction false} FiledOnTrack(env: Env, rec: Record, report: Report, g: Progress,
                                        m: NodeMetaInfo, from: NodeMetaInfo, ip: Option<IpDetails>)
    requires g.pc == ReachableDetails(m, from, ip, []) && OnTrack(env, rec, report, ip, g)
    ensures OnTrack(env, rec, report, ip, Progress(g.rec, ReachableSeen(m, ip)))
  {
    assert [] + GeoDue(rec, ip) == GeoDue(rec, ip);
    StaysOnTrack(env, rec, report, ip, g, Progress(g.rec, ReachableSeen(m, ip)));
  }

  lemma {:induction false} DetailsOnTrack(env: Env, rec: Record, report: Report, g: Progress,
                                          m: NodeMetaInfo, from: NodeMetaInfo, ip: Option<IpDetails>,
                                          todo: seq<Command>, now: nat)
    requires g.pc == ReachableDetails(m, from, ip, todo) && OnTrack(env, rec, report, ip, g)
    ensures OnTrack(env, rec, report, ip, Progress(ActOn(env, g.rec, now, g.pc), Act(env, g.rec, now, g.pc).next))
  {
    if todo == [] {
      FiledOnTrack(env, rec, report, g, m, from, ip);
    } else {
      FilingOnTrack(env, rec, report, g, m, from, ip, todo, now);
    }
  }

  lemma {:induction false} GeoOnTrack(env: Env, rec: Record, report: Report, ip: Option<IpDetails>, g: Progress,
                                      m: NodeMetaInfo, now: nat)
    requires g.pc == ReachableCountry(m, ip) && OnTrack(env, rec, report, ip, g)
    ensures OnTrack(env, rec, report, ip, Progress(ActOn(env, g.rec, now, g.pc), Act(env, g.rec, now, g.pc).next))
  {
    CountryReadLate(rec, g.rec, now);
    assert Act(env, g.rec, now, g.pc).next == ReachableGeo(m, GeoDue(rec, ip));
    StaysOnTrack(env, rec, report, ip, g, Progress(g.rec, ReachableGeo(m, GeoDue(rec, ip))));
  }

  lemma {:induction false} SeenOnTrack(env: Env, rec: Record, report: Report, ip: Option<IpDetails>, g: Progress,
                                       m: NodeMetaInfo, now: nat)
    requires g.pc == ReachableSeen(m, ip) && OnTrack(env, rec, report, ip, g)
    ensures OnTrack(env, rec, report, ip, Progress(ActOn(env, g.rec, now, g.pc), Act(env, g.rec, now, g.pc).next))
  {
    Besides(g.rec, now, Cmd(LastSeen, Set(Seconds(now))));
    StaysOnTrack(env, rec, report, ip, g,
                 Progress(Exec(g.rec, now, Cmd(LastSeen, Set(Seconds(now)))), ReachableCountry(m, ip)));
  }

  lemma {:induction false} GeoWritten(env: Env, rec: Record, report: Report, ip: Option<IpDetails>, g: Progress,
                                      m: NodeMetaInfo, todo: seq<Command>, now: nat)
    requires g.pc == ReachableGeo(m, todo) && OnTrack(env, rec, report, ip, g)
    ensures OnTrack(env, rec, report, ip, Progress(ActOn(env, g.rec, now, g.pc), Act(env, g.rec, now, g.pc).next))
  {
    if todo == [] {
      StaysOnTrack(env, rec, report, ip, g, Progress(g.rec, ServiceStamp));
    } else {
      WritesDue(env, rec, report, ip, g, ReachableGeo(m, todo[1..]), now);
    }
  }

  lemma {:induction false} ReachableOnTrack(env: Env, rec: Record, report: Report, ip: Option<IpDetails>, g: Progress,
                                            now: nat)
    requires OnTrack(env, rec, report, ip, g) && (ReadsCountry(g.pc) || g.pc.ReachableGeo?)
    ensures OnTrack(env, rec, report, ip, Progress(ActOn(env, g.rec, now, g.pc), Act(env, g.rec, now, g.pc).next))
  {
    match g.pc {
      case ReachableDetails(m, from, _, todo) => DetailsOnTrack(env, rec, report, g, m, from, ip, todo, now);
      case ReachableSeen(m, _) => SeenOnTrack(env, rec, report, ip, g, m, now);
      case ReachableCountry(m, _) => GeoOnTrack(env, rec, report, ip, g, m, now);
      case ReachableGeo(m, todo) => GeoWritten(env, rec, report, ip, g, m, todo, now);
      case _ =>
    }
  }

  lemma {:induction false} StepOnTrack(env: Env, rec: Record, report: Report, ip: Option<IpDetails>, g: Progress,
                                       now: nat)
    requires OnTrack(env, rec, report, ip, g)
    ensures OnTrack(env, rec, report, ip, Progress(ActOn(env, g.rec, now, g.pc), Act(env, g.rec, now, g.pc).next))
  {
    if InOnlineArm(g.pc) {
      OnlineOnTrack(env, rec, report, ip, g, now);
    } else if InUnknownArm(g.pc) || IsOver(g.pc) {
      UnknownOnTrack(env, rec, report, ip, g, now);
    } else {
      ReachableOnTrack(env, rec, report, ip, g, now);
    }
  }

  // ---------- an arm starts on track ----------

  lemma {:induction false} OnlineStarts(env: Env, rec: Record, o: PeerInfo, ip: Option<IpDetails>)
    requires NoExpiry(rec)
    ensures OnTrack(env, rec, OnlineReport(o), ip, Progress(rec, OnlineGet(o, ip)))
  {
    var mid, full := AddressCmds(env, o, ip), Cmd(Full, Set(BoolText(o.full)));
    ExecSnoc(rec, 0, mid, full);
    AddressesSteady(env, o, ip);
    forall f | Lasts(f)
      ensures Find(ExecAll(rec, 0, mid + [full]), f) == AfterOnline(env, rec, 0, o, ip, f)
    {
      AddressEffect(env, rec, 0, o, ip, f);
      ExecOnly(ExecAll(rec, 0, mid), 0, full, f);
    }
  }

  lemma {:induction false} AddressesSteady(env: Env, o: PeerInfo, ip: Option<IpDetails>)
    ensures AllSteady(AddressCmds(env, o, ip) + [Cmd(Full, Set(BoolText(o.full)))])
  {}

  lemma {:induction false} UnknownStarts(env: Env, rec: Record, m: NodeMetaInfo, ip: Option<IpDetails>)
    requires NoExpiry(rec)
    ensures OnTrack(env, rec, UnknownReport(m), ip, Progress(rec, UnknownGet(m)))
  {}

  lemma {:induction false} FilingSteady(env: Env, m: NodeMetaInfo, from: NodeMetaInfo)
    ensures AllSteady(Filing(env, m, from))
    ensures forall i | 0 <= i < |Filing(env, m, from)| :: Filing(env, m, from)[i].key != Country
  {}

  lemma {:induction false} ReachableStarts(env: Env, rec: Record, m: NodeMetaInfo, from: NodeMetaInfo,
                                           ip: Option<IpDetails>)
    requires NoExpiry(rec)
    ensures OnTrack(env, rec, ReachableReport(m, from), ip,
                    Progress(rec, ReachableDetails(m, from, ip, Filing(env, m, from))))
  {
    var filing, geo := Filing(env, m, from), GeoDue(rec, ip);
    FilingSteady(env, m, from);
    GeoSteady(ip);
    forall f | Lasts(f)
      ensures Find(ExecAll(rec, 0, filing + geo), f) == AfterReachable(env, rec, 0, m, from, ip, f)
    {
      ReachableDue(env, rec, m, from, ip, f);
    }
  }

  lemma {:induction false} ReachableDue(env: Env, rec: Record, m: NodeMetaInfo, from: NodeMetaInfo,
                                        ip: Option<IpDetails>, f: Family)
    requires NoExpiry(rec) && Lasts(f)
    ensures Find(ExecAll(rec, 0, Filing(env, m, from) + GeoDue(rec, ip)), f) ==
            AfterReachable(env, rec, 0, m, from, ip, f)
  {
    var filed := ExecAll(rec, 0, Filing(env, m, from));
    ExecAppend(rec, 0, Filing(env, m, from), GeoDue(rec, ip));
    FiledAndSeen(env, rec, 0, m, from);
    ExecOnly(filed, 0, Cmd(LastSeen, Set(Seconds(0))), f);
    ReachableWritesEffect(env, rec, 0, m, from, f);
    GeoEffect(filed, 0, ip, f);
    GeoOnTop(env, rec, 0, m, from, ip, f);
  }

  lemma {:induction false} StartsOnTrack(env: Env, rec: Record, report: Report, ip: Option<IpDetails>)
    requires NoExpiry(rec)
    ensures OnTrack(env, rec, report, ip, Progress(rec, Start(env, report, ip)))
  {
    match report
    case OnlineReport(o) => OnlineStarts(env, rec, o, ip);
    case UnknownReport(m) => UnknownStarts(env, rec, m, ip);
    case ReachableReport(m, from) => ReachableStarts(env, rec, m, from, ip);
  }

  lemma {:induction false} PlayedOnTrack(env: Env, rec: Record, report: Report, ip: Option<IpDetails>, times: seq<nat>)
    requires NoExpiry(rec)
    ensures OnTrack(env, rec, report, ip, Played(env, rec, Start(env, report, ip), times))
    decreases |times|
  {
    if times == [] {
      StartsOnTrack(env, rec, report, ip);
    } else {
      var front, now := times[..|times| - 1], times[|times| - 1];
      PlayedOnTrack(env, rec, report, ip, front);
      StepOnTrack(env, rec, report, ip, Played(env, rec, Start(env, report, ip), front), now);
    }
  }

  /** What a report leaves under a lasting key does not depend on when. */
  lemma {:induction false} AfterTimeless(env: Env, rec: Record, report: Report, ip: Option<IpDetails>, t: nat, u: nat,
                                         f: Family)
    requires NoExpiry(rec) && Lasts(f)
    ensures After(env, rec, Input(t, report, ip), f) == After(env, rec, Input(u, report, ip), f)
  {
    match report
    case OnlineReport(o) => OnlineTimeless(env, rec, o, ip, t, u, f);
    case UnknownReport(_) =>
    case ReachableReport(m, from) => ReachableTimeless(env, rec, m, from, ip, t, u, f);
  }

  lemma {:induction false} OnlineTimeless(env: Env, rec: Record, o: PeerInfo, ip: Option<IpDetails>, t: nat, u: nat,
                                          f: Family)
    requires Lasts(f)
    ensures AfterOnline(env, rec, t, o, ip, f) == AfterOnline(env, rec, u, o, ip, f)
  {
    assert f != LeaseCmd(env, Get(rec, t, Online).Some?, o).key && f != LeaseCmd(env, Get(rec, u, Online).Some?, o).key;
  }

  lemma {:induction false} ReachableTimeless(env: Env, rec: Record, m: NodeMetaInfo, from: NodeMetaInfo,
                                             ip: Option<IpDetails>, t: nat, u: nat, f: Family)
    requires NoExpiry(rec) && Lasts(f)
    ensures AfterReachable(env, rec, t, m, from, ip, f) == AfterReachable(env, rec, u, m, from, ip, f)
  {
    CountryReadLate(rec, rec, t);
    CountryReadLate(rec, rec, u);
    if f in rec {
      WidenTimeless(Find(rec, f), t, u, Encoded(env, m.addresses));
    }
  }

  lemma {:induction false} WidenTimeless(e: Option<Entry>, t: nat, u: nat, ms: set<string>)
    requires e.Some? ==> e.value.expiry == None
    ensures Widen(e, t, ms) == Widen(e, u, ms)
  {}

  /** Whenever its commands run, a whole arm leaves every lasting key as the same arm at any one instant. */
  lemma {:induction false} ArmLasts(env: Env, rec: Record, a: Arm, t: nat, f: Family)
    requires NoExpiry(rec) && IsOver(PlayedArm(env, rec, a).pc) && Lasts(f)
    ensures Find(PlayedArm(env, rec, a).rec, f) == After(env, rec, Input(t, a.report, a.ip), f)
    ensures NoExpiry(PlayedArm(env, rec, a).rec)
  {
    PlayedOnTrack(env, rec, a.report, a.ip, a.times);
    AfterTimeless(env, rec, a.report, a.ip, 0, t, f);
  }

  // ---------- over every run ----------

  /** Every report of the arms, lapsed or not, at the time its first command ran. */
  function Reports(arms: seq<Arm>): seq<Input> {
    if arms == [] then []
    else
      var a := arms[|arms| - 1];
      Reports(arms[..|arms| - 1]) + [Input(At(a.times, 0), a.report, a.ip)]
  }

  lemma {:induction false} AfterOnLasting(env: Env, r: Record, s: Record, x: Input, f: Family)
    requires SameLasting(r, s) && Lasts(f)
    ensures After(env, r, x, f) == After(env, s, x, f)
  {
    assert Find(r, Country) == Find(s, Country) && Find(r, f) == Find(s, f);
    match x.report
    case OnlineReport(o) => OnlineOnLasting(env, r, s, x.at, o, x.ip, f);
    case UnknownReport(_) =>
    case ReachableReport(m, from) =>
  }

  lemma {:induction false} OnlineOnLasting(env: Env, r: Record, s: Record, at: nat, o: PeerInfo, ip: Option<IpDetails>,
                                           f: Family)
    requires Find(r, f) == Find(s, f) && Lasts(f)
    ensures AfterOnline(env, r, at, o, ip, f) == AfterOnline(env, s, at, o, ip, f)
  {
    assert f != LeaseCmd(env, Get(r, at, Online).Some?, o).key && f != LeaseCmd(env, Get(s, at, Online).Some?, o).key;
  }

  lemma {:induction false} ReportsStand(env: Env, arms: seq<Arm>)
    requires AllOver(env, arms)
    ensures NoExpiry(RunOver(env, arms)) && SameLasting(RunOver(env, arms), Run(env, Reports(arms)))
  {
    if arms != [] {
      var front, a := arms[..|arms| - 1], arms[|arms| - 1];
      var h, x := Reports(front), Input(At(a.times, 0), a.report, a.ip);
      ReportsStand(env, front);
      ArmLasts(env, RunOver(env, front), a, x.at, Ip);
      forall f | Lasts(f)
        ensures Find(RunOver(env, arms), f) == Find(Run(env, h + [x]), f)
      {
        ArmLasts(env, RunOver(env, front), a, x.at, f);
        AfterOnLasting(env, RunOver(env, front), Run(env, h), x, f);
        RunEffect(env, h, x, f);
      }
    }
  }

  /** The lasting facts at the granularity of commands, whatever the timing: read while no command of the
      peer's own arms is pending, its network, filing, addresses and geo fields are those of its reports. */
  lemma {:induction false} FactsStand(env: Env, run: seq<State>, p: string, n: Network, f: Family)
    requires IsRun(env, run) && !run[|run| - 1].pc.About(p) && IsGeo(f)
    ensures var rec, h := Store.View(run[|run| - 1].db, p), Reports(ArmsOf(run, p));
            && Find(rec, Stored) == (match Facts.LatestNetwork(h) case None => None case Some(l) => Stay(l.IntoStr()))
            && Find(rec, Quick(n)) == (if Facts.ReportedUnder(h, n) then Stay("0") else None)
            && Witnesses.HoldsSet(Find(rec, Ip), Facts.KnownAddresses(env, h))
            && Find(rec, f) == Facts.GeoEntry(Facts.GeoSource(h), f)
  {
    var h := Reports(ArmsOf(run, p));
    RunFollows(env, run, p);
    ReportsStand(env, ArmsOf(run, p));
    Facts.StoredNetwork(env, h);
    Facts.NetworkFiling(env, h, n);
    Facts.AddressSet(env, h);
    Facts.GeoFromOneSource(env, h, f);
    assert Lasts(Quick(n)) && Lasts(f) && Lasts(Stored) && Lasts(Ip);
  }
}
