/** What marci does to one peer's keys on each kind of report: the Redis commands of the three
    arms of its main loop, in the order it issues them, against that peer's own record. */
module Arms {
  import opened Wrappers
  import opened Redis
  import opened Keys
  import opened Types
  import Numerals

  /** The deployment's settings, and the JSON text of an endpoint as an abstract pair. */
  datatype Env = Env(timeout: nat, unknownTimeout: nat, witnesses: nat,
                     encode: EndpointInfo -> string, decode: string -> Option<EndpointInfo>)
  {
    /** Positive timeouts and threshold, and JSON reads back what it wrote. */
    ghost predicate Sound() {
      && timeout > 0 && unknownTimeout > 0 && witnesses > 0
      && forall e :: decode(encode(e)) == Some(e)
    }
  }

  datatype Report =
    | OnlineReport(online: PeerInfo)
    | UnknownReport(unknown: NodeMetaInfo)
    | ReachableReport(peer: NodeMetaInfo, from: NodeMetaInfo)
  {
    /** The peer a report is about. */
    function Subject(): string {
      match this
      case OnlineReport(o) => o.info.peerId
      case UnknownReport(u) => u.peerId
      case ReachableReport(p, _) => p.peerId
    }
  }

  /** A delivered report, when marci handles it, and the answer its address lookup gives then. */
  datatype Input = Input(at: nat, report: Report, ip: Option<IpDetails>)

  /** A peer's keys, by the kind of fact they hold. */
  type Record = map<Family, Entry>
  type Command = Cmd<Family>

  function Seconds(now: nat): string {
    Numerals.Decimal(now / 1000)
  }

  function BoolText(b: bool): string {
    if b then "1" else "0"
  }

  // ---------- the commands of each arm ----------

  /** A live online key is only refreshed, even by an ex report; a dead one is set, under the key
      that fits the report. */
  function LeaseCmd(env: Env, found: bool, o: PeerInfo): Command {
    if found then Cmd(Online, Expire(env.timeout))
    else if o.isEx then Cmd(Online2, SetEx(o.version, env.timeout))
    else Cmd(Online, SetEx(o.version, env.timeout))
  }

  function GeoCmds(ip: Option<IpDetails>): seq<Command> {
    match ip
    case None => []
    case Some(d) => [Cmd(Country, Set(d.country)), Cmd(City, Set(d.city)),
                     Cmd(Region, Set(d.region)), Cmd(Pos, Set(d.loc))]
  }

  function AddressCmds(env: Env, o: PeerInfo, ip: Option<IpDetails>): seq<Command> {
    if o.info.addresses == [] then []
    else [Cmd(OnlineIp, SetEx(env.encode(o.info.addresses[0]), env.timeout))] + GeoCmds(ip)
  }

  function OnlineCmds(env: Env, rec: Record, at: nat, o: PeerInfo, ip: Option<IpDetails>): seq<Command> {
    [LeaseCmd(env, Get(rec, at, Online).Some?, o)]
    + AddressCmds(env, o, ip)
    + [Cmd(Full, Set(BoolText(o.full))), Cmd(LastSeen, Set(Seconds(at))), Cmd(Unknown, Del)]
  }

  function UnknownCmds(env: Env, rec: Record, at: nat): seq<Command> {
    (if Get(rec, at, Online).Some? then [Cmd(Online, Expire(env.timeout))]
     else if SCard(rec, at, Reachable) >= env.witnesses then
       [Cmd(Unknown, SetEx("unknown", env.unknownTimeout)), Cmd(Reachable, Del)]
     else [])
    + [Cmd(LastSeen, Set(Seconds(at)))]
  }

  function IpCmds(env: Env, addresses: seq<EndpointInfo>): (cmds: seq<Command>)
    ensures |cmds| == |addresses|
    ensures forall i | 0 <= i < |cmds| :: cmds[i] == Cmd(Ip, SAdd(env.encode(addresses[i])))
  {
    seq(|addresses|, i requires 0 <= i < |addresses| => Cmd(Ip, SAdd(env.encode(addresses[i]))))
  }

  function ReachableWrites(env: Env, at: nat, p: NodeMetaInfo, from: NodeMetaInfo): seq<Command> {
    [Cmd(Reachable, SAdd(from.peerId)), Cmd(Quick(p.network), Set("0"))]
    + IpCmds(env, p.addresses)
    + [Cmd(Stored, Set(p.network.IntoStr())), Cmd(LastSeen, Set(Seconds(at)))]
  }

  /** The geo fields are asked for again only while the country is missing or empty. */
  function ReachableCmds(env: Env, rec: Record, at: nat, p: NodeMetaInfo, from: NodeMetaInfo,
                         ip: Option<IpDetails>): seq<Command>
  {
    ReachableWrites(env, at, p, from)
    + (if Get(rec, at, Country).GetOr("") == "" then GeoCmds(ip) else [])
  }

  function Commands(env: Env, rec: Record, i: Input): seq<Command> {
    match i.report
    case OnlineReport(o) => OnlineCmds(env, rec, i.at, o, i.ip)
    case UnknownReport(_) => UnknownCmds(env, rec, i.at)
    case ReachableReport(p, from) => ReachableCmds(env, rec, i.at, p, from, i.ip)
  }

  /** One report, handled at one instant. */
  function Handle(env: Env, rec: Record, i: Input): Record {
    ExecAll(rec, i.at, Commands(env, rec, i))
  }

  // ---------- what a report means for the record ----------

  predicate IsGeo(f: Family) {
    f in {Country, City, Region, Pos}
  }

  function GeoField(d: IpDetails, f: Family): string {
    match f
    case Country => d.country
    case City => d.city
    case Region => d.region
    case _ => d.loc
  }

  function Stay(text: string): Option<Entry> {
    Some(Entry(Text(text), None))
  }

  function Encoded(env: Env, addresses: seq<EndpointInfo>): set<string> {
    set e | e in addresses :: env.encode(e)
  }

  /** A set key after members are added to it. */
  function Widen(e: Option<Entry>, now: nat, ms: set<string>): Option<Entry> {
    if ms == {} then e
    else
      match Live(e, now)
      case Some(Members(had)) => Some(Entry(Members(had + ms), e.value.expiry))
      case Some(Text(_)) => e
      case None => Some(Entry(Members(ms), None))
  }

  /** What one report leaves under each key of its peer. */
  function After(env: Env, rec: Record, x: Input, f: Family): Option<Entry> {
    match x.report
    case OnlineReport(o) => AfterOnline(env, rec, x.at, o, x.ip, f)
    case UnknownReport(_) => AfterUnknown(env, rec, x.at, f)
    case ReachableReport(p, from) => AfterReachable(env, rec, x.at, p, from, x.ip, f)
  }

  function AfterOnline(env: Env, rec: Record, at: nat, o: PeerInfo, ip: Option<IpDetails>, f: Family): Option<Entry> {
    var was := Find(rec, f);
    var lease := LeaseCmd(env, Get(rec, at, Online).Some?, o);
    if f == lease.key then Apply(was, at, lease.op)
    else if f == LastSeen then Stay(Seconds(at))
    else if f == Full then Stay(BoolText(o.full))
    else if f == Unknown then None
    else if o.info.addresses == [] then was
    else if f == OnlineIp then Some(Entry(Text(env.encode(o.info.addresses[0])), Some(at + Ms(env.timeout))))
    else if IsGeo(f) && ip.Some? then Stay(GeoField(ip.value, f))
    else was
  }

  function AfterUnknown(env: Env, rec: Record, at: nat, f: Family): Option<Entry> {
    var was := Find(rec, f);
    var alive := Get(rec, at, Online).Some?;
    var upgrade := !alive && SCard(rec, at, Reachable) >= env.witnesses;
    if f == LastSeen then Stay(Seconds(at))
    else if f == Online && alive then Apply(was, at, Expire(env.timeout))
    else if f == Unknown && upgrade then Some(Entry(Text("unknown"), Some(at + Ms(env.unknownTimeout))))
    else if f == Reachable && upgrade then None
    else was
  }

  function AfterReachable(env: Env, rec: Record, at: nat, p: NodeMetaInfo, from: NodeMetaInfo,
                          ip: Option<IpDetails>, f: Family): Option<Entry>
  {
    var was := Find(rec, f);
    if f == Reachable then Apply(was, at, SAdd(from.peerId))
    else if f == Quick(p.network) then Stay("0")
    else if f == Stored then Stay(p.network.IntoStr())
    else if f == LastSeen then Stay(Seconds(at))
    else if f == Ip then Widen(was, at, Encoded(env, p.addresses))
    else if IsGeo(f) && ip.Some? && Get(rec, at, Country).GetOr("") == "" then Stay(GeoField(ip.value, f))
    else was
  }

  /** The record after one report. */
  function Next(env: Env, rec: Record, x: Input): (r: Record)
    ensures forall f :: Find(r, f) == After(env, rec, x, f)
  {
    map f: Family | After(env, rec, x, f).Some? :: After(env, rec, x, f).value
  }

  /** A peer's record after its own reports, in order, from nothing. */
  function Run(env: Env, h: seq<Input>): Record {
    if h == [] then map[] else Next(env, Run(env, h[..|h| - 1]), h[|h| - 1])
  }

  lemma {:induction false} RunEffect(env: Env, g: seq<Input>, x: Input, f: Family)
    ensures Find(Run(env, g + [x]), f) == After(env, Run(env, g), x, f)
  {
    assert (g + [x])[..|g|] == g;
  }

  // ---------- the same, one key at a time ----------

  predicate Alive(e: Option<Entry>, now: nat) {
    Live(e, now).Some? && Live(e, now).value.Text?
  }

  function OnlineNext(env: Env, e: Option<Entry>, x: Input): Option<Entry> {
    if x.report.ReachableReport? then e
    else if Alive(e, x.at) then Apply(e, x.at, Expire(env.timeout))
    else if x.report.OnlineReport? && !x.report.online.isEx then
      Some(Entry(Text(x.report.online.version), Some(x.at + Ms(env.timeout))))
    else e
  }

  lemma {:induction false} OnlineAfter(env: Env, rec: Record, x: Input)
    ensures After(env, rec, x, Online) == OnlineNext(env, Find(rec, Online), x)
  {}

  lemma {:induction false} OnlineKey(env: Env, g: seq<Input>, x: Input)
    ensures Find(Run(env, g + [x]), Online) ==
            OnlineNext(env, Find(Run(env, g), Online), x)
  {
    RunEffect(env, g, x, Online);
    OnlineAfter(env, Run(env, g), x);
  }

  function Online2Next(env: Env, online: Option<Entry>, e: Option<Entry>, x: Input): Option<Entry> {
    if x.report.OnlineReport? && x.report.online.isEx && !Alive(online, x.at) then
      Some(Entry(Text(x.report.online.version), Some(x.at + Ms(env.timeout))))
    else e
  }

  lemma {:induction false} Online2After(env: Env, rec: Record, x: Input)
    ensures After(env, rec, x, Online2) == Online2Next(env, Find(rec, Online), Find(rec, Online2), x)
  {}

  lemma {:induction false} Online2Key(env: Env, g: seq<Input>, x: Input)
    ensures Find(Run(env, g + [x]), Online2) ==
            Online2Next(env, Find(Run(env, g), Online), Find(Run(env, g), Online2), x)
  {
    RunEffect(env, g, x, Online2);
    Online2After(env, Run(env, g), x);
  }

  /** An unknown report finds the peer offline and its witnesses at the threshold. */
  predicate UpgradesOn(env: Env, online: Option<Entry>, reachable: Option<Entry>, x: Input) {
    && x.report.UnknownReport?
    && !Alive(online, x.at)
    && (match Live(reachable, x.at) case Some(Members(ms)) => |ms| case _ => 0) >= env.witnesses
  }

  function ReachableNext(env: Env, online: Option<Entry>, e: Option<Entry>, x: Input): Option<Entry> {
    if UpgradesOn(env, online, e, x) then None
    else if x.report.ReachableReport? then Apply(e, x.at, SAdd(x.report.from.peerId))
    else e
  }

  lemma {:induction false} ReachableAfter(env: Env, rec: Record, x: Input)
    ensures After(env, rec, x, Reachable) == ReachableNext(env, Find(rec, Online), Find(rec, Reachable), x)
  {}

  lemma {:induction false} ReachableKey(env: Env, g: seq<Input>, x: Input)
    ensures Find(Run(env, g + [x]), Reachable) ==
            ReachableNext(env, Find(Run(env, g), Online), Find(Run(env, g), Reachable), x)
  {
    RunEffect(env, g, x, Reachable);
    ReachableAfter(env, Run(env, g), x);
  }

  function UnknownNext(env: Env, online: Option<Entry>, reachable: Option<Entry>, e: Option<Entry>, x: Input):
    Option<Entry>
  {
    if UpgradesOn(env, online, reachable, x) then Some(Entry(Text("unknown"), Some(x.at + Ms(env.unknownTimeout))))
    else if x.report.OnlineReport? then None
    else e
  }

  lemma {:induction false} UnknownAfter(env: Env, rec: Record, x: Input)
    ensures After(env, rec, x, Unknown) ==
            UnknownNext(env, Find(rec, Online), Find(rec, Reachable), Find(rec, Unknown), x)
  {}

  lemma {:induction false} UnknownKey(env: Env, g: seq<Input>, x: Input)
    ensures Find(Run(env, g + [x]), Unknown) ==
            UnknownNext(env, Find(Run(env, g), Online), Find(Run(env, g), Reachable), Find(Run(env, g), Unknown), x)
  {
    RunEffect(env, g, x, Unknown);
    UnknownAfter(env, Run(env, g), x);
  }

  // ---------- the commands carry out what the report means ----------

  lemma {:induction false} OnlineEffect(env: Env, rec: Record, at: nat, o: PeerInfo, ip: Option<IpDetails>, f: Family)
    ensures Find(ExecAll(rec, at, OnlineCmds(env, rec, at, o, ip)), f) == AfterOnline(env, rec, at, o, ip, f)
  {
    var lease := LeaseCmd(env, Get(rec, at, Online).Some?, o);
    var mid := AddressCmds(env, o, ip);
    var full, seen, del := Cmd(Full, Set(BoolText(o.full))), Cmd(LastSeen, Set(Seconds(at))), Cmd(Unknown, Del);
    var r1 := Exec(rec, at, lease);
    var r2 := ExecAll(r1, at, mid);
    Surrounded(rec, at, lease, mid, full, seen, del);
    AddressEffect(env, r1, at, o, ip, f);
    ExecOnly(rec, at, lease, f);
    ExecOnly(r2, at, full, f);
    ExecOnly(Exec(r2, at, full), at, seen, f);
    ExecOnly(Exec(Exec(r2, at, full), at, seen), at, del, f);
  }

  lemma {:induction false} AddressEffect(env: Env, rec: Record, at: nat, o: PeerInfo, ip: Option<IpDetails>, f: Family)
    ensures Find(ExecAll(rec, at, AddressCmds(env, o, ip)), f) ==
            if o.info.addresses == [] then Find(rec, f)
            else if f == OnlineIp then Some(Entry(Text(env.encode(o.info.addresses[0])), Some(at + Ms(env.timeout))))
            else if IsGeo(f) && ip.Some? then Stay(GeoField(ip.value, f))
            else Find(rec, f)
  {
    if o.info.addresses != [] {
      var first := Cmd(OnlineIp, SetEx(env.encode(o.info.addresses[0]), env.timeout));
      ExecAppend(rec, at, [first], GeoCmds(ip));
      assert [] + [first] == [first];
      ExecSnoc(rec, at, [], first);
      GeoEffect(Exec(rec, at, first), at, ip, f);
    }
  }

  lemma {:induction false} GeoEffect(rec: Record, at: nat, ip: Option<IpDetails>, f: Family)
    ensures Find(ExecAll(rec, at, GeoCmds(ip)), f) ==
            if IsGeo(f) && ip.Some? then Stay(GeoField(ip.value, f)) else Find(rec, f)
  {
    if ip.Some? {
      var d := ip.value;
      var a, b := Cmd(Country, Set(d.country)), Cmd(City, Set(d.city));
      var c, e := Cmd(Region, Set(d.region)), Cmd(Pos, Set(d.loc));
      var r1 := Exec(rec, at, a);
      var r2 := Exec(r1, at, b);
      Between(rec, at, a, b, [], c, e);
      assert [a, b] + [] + [c, e] == GeoCmds(ip);
      ExecOnly(rec, at, a, f);
      ExecOnly(r1, at, b, f);
      ExecOnly(r2, at, c, f);
      ExecOnly(Exec(r2, at, c), at, e, f);
    }
  }

  lemma Surrounded(rec: Record, at: nat, first: Command, mid: seq<Command>, a: Command, b: Command, c: Command)
    ensures ExecAll(rec, at, [first] + mid + [a, b, c]) ==
            Exec(Exec(Exec(ExecAll(Exec(rec, at, first), at, mid), at, a), at, b), at, c)
  {
    var head := [first] + mid;
    assert head + [a, b, c] == head + [a] + [b] + [c];
    ExecSnoc(rec, at, head + [a] + [b], c);
    ExecSnoc(rec, at, head + [a], b);
    ExecSnoc(rec, at, head, a);
    ExecAppend(rec, at, [first], mid);
    assert [] + [first] == [first];
    ExecSnoc(rec, at, [], first);
  }

  lemma {:induction false} UnknownEffect(env: Env, rec: Record, at: nat, f: Family)
    ensures Find(ExecAll(rec, at, UnknownCmds(env, rec, at)), f) == AfterUnknown(env, rec, at, f)
  {
    var all := UnknownCmds(env, rec, at);
    var head, seen := all[..|all| - 1], all[|all| - 1];
    assert all == head + [seen] + [];
    if f == LastSeen {
      ExecOnce(rec, at, head, seen, []);
    } else if |head| == 2 && f == Unknown {
      assert all == [] + [head[0]] + [head[1], seen];
      ExecOnce(rec, at, [], head[0], [head[1], seen]);
    } else if |head| == 2 && f == Reachable {
      assert all == [head[0]] + [head[1]] + [seen];
      ExecOnce(rec, at, [head[0]], head[1], [seen]);
    } else if |head| == 1 && f == Online {
      assert all == [] + [head[0]] + [seen];
      ExecOnce(rec, at, [], head[0], [seen]);
    } else {
      ExecFrame(rec, at, all, f);
    }
  }

  lemma WidenMore(e: Option<Entry>, at: nat, ms: set<string>, m: string)
    ensures Apply(Widen(e, at, ms), at, SAdd(m)) == Widen(e, at, ms + {m})
  {
    assert {} + {m} == {m};
    match Live(e, at) {
      case Some(Members(had)) => assert had + ms + {m} == had + (ms + {m});
      case _ =>
    }
  }

  lemma {:induction false} IpEffect(env: Env, rec: Record, at: nat, addresses: seq<EndpointInfo>, f: Family)
    ensures Find(ExecAll(rec, at, IpCmds(env, addresses)), f) ==
            if f == Ip then Widen(Find(rec, f), at, Encoded(env, addresses)) else Find(rec, f)
  {
    if addresses == [] {
      assert Encoded(env, addresses) == {};
    } else {
      var front, last := addresses[..|addresses| - 1], addresses[|addresses| - 1];
      var c := Cmd(Ip, SAdd(env.encode(last)));
      assert addresses == front + [last];
      IpEffect(env, rec, at, front, f);
      WidenMore(Find(rec, Ip), at, Encoded(env, front), env.encode(last));
      IpCmdsSnoc(env, front, last);
      ExecSnoc(rec, at, IpCmds(env, front), c);
      ExecOnly(ExecAll(rec, at, IpCmds(env, front)), at, c, f);
    }
  }

  lemma {:induction false} IpCmdsSnoc(env: Env, front: seq<EndpointInfo>, last: EndpointInfo)
    ensures IpCmds(env, front + [last]) == IpCmds(env, front) + [Cmd(Ip, SAdd(env.encode(last)))]
    ensures Encoded(env, front + [last]) == Encoded(env, front) + {env.encode(last)}
  {}

  lemma {:induction false} ReachableWritesEffect(env: Env, rec: Record, at: nat, p: NodeMetaInfo, from: NodeMetaInfo,
                                                 f: Family)
    ensures Find(ExecAll(rec, at, ReachableWrites(env, at, p, from)), f) ==
            AfterReachable(env, rec, at, p, from, None, f)
  {
    var w, q := Cmd(Reachable, SAdd(from.peerId)), Cmd(Quick(p.network), Set("0"));
    var s, seen := Cmd(Stored, Set(p.network.IntoStr())), Cmd(LastSeen, Set(Seconds(at)));
    var r1 := Exec(rec, at, w);
    var r2 := Exec(r1, at, q);
    var r3 := ExecAll(r2, at, IpCmds(env, p.addresses));
    var r4 := Exec(r3, at, s);
    Between(rec, at, w, q, IpCmds(env, p.addresses), s, seen);
    ExecOnly(rec, at, w, f);
    ExecOnly(r1, at, q, f);
    IpEffect(env, r2, at, p.addresses, f);
    ExecOnly(r3, at, s, f);
    ExecOnly(r4, at, seen, f);
  }

  lemma {:induction false} Between(rec: Record, at: nat, a: Command, b: Command, mid: seq<Command>,
                                   c: Command, d: Command)
    ensures ExecAll(rec, at, [a, b] + mid + [c, d]) ==
            Exec(Exec(ExecAll(Exec(Exec(rec, at, a), at, b), at, mid), at, c), at, d)
  {
    var head := [] + [a] + [b] + mid;
    assert [a, b] + mid + [c, d] == head + [c] + [d];
    ExecSnoc(rec, at, head + [c], d);
    ExecSnoc(rec, at, head, c);
    ExecAppend(rec, at, [] + [a] + [b], mid);
    ExecSnoc(rec, at, [] + [a], b);
    ExecSnoc(rec, at, [], a);
  }

  lemma {:induction false} ReachableEffect(env: Env, rec: Record, at: nat, p: NodeMetaInfo, from: NodeMetaInfo,
                                           ip: Option<IpDetails>, f: Family)
    ensures Find(ExecAll(rec, at, ReachableCmds(env, rec, at, p, from, ip)), f) ==
            AfterReachable(env, rec, at, p, from, ip, f)
  {
    var writes := ReachableWrites(env, at, p, from);
    var geo := if Get(rec, at, Country).GetOr("") == "" then GeoCmds(ip) else [];
    ReachableWritesEffect(env, rec, at, p, from, f);
    ExecAppend(rec, at, writes, geo);
    GeoEffect(ExecAll(rec, at, writes), at, ip, f);
    GeoOnTop(env, rec, at, p, from, ip, f);
  }

  lemma {:induction false} GeoOnTop(env: Env, rec: Record, at: nat, p: NodeMetaInfo, from: NodeMetaInfo,
                                    ip: Option<IpDetails>, f: Family)
    ensures AfterReachable(env, rec, at, p, from, ip, f) ==
            if IsGeo(f) && ip.Some? && Get(rec, at, Country).GetOr("") == "" then Stay(GeoField(ip.value, f))
            else AfterReachable(env, rec, at, p, from, None, f)
  {}

  /** The writes before the geo fields are asked for leave the country as it was. */
  lemma {:induction false} WritesKeepCountry(env: Env, rec: Record, at: nat, p: NodeMetaInfo, from: NodeMetaInfo)
    ensures Get(ExecAll(rec, at, ReachableWrites(env, at, p, from)), at, Country) == Get(rec, at, Country)
  {
    ReachableWritesEffect(env, rec, at, p, from, Country);
  }

  /** Each arm, command by command, makes of the record exactly what the report means. */
  lemma {:induction false} HandleIsNext(env: Env, rec: Record, x: Input)
    ensures Handle(env, rec, x) == Next(env, rec, x)
  {
    var r, s := Handle(env, rec, x), Next(env, rec, x);
    forall f: Family
      ensures Find(r, f) == Find(s, f)
    {
      match x.report
      case OnlineReport(o) => OnlineEffect(env, rec, x.at, o, x.ip, f);
      case UnknownReport(_) => UnknownEffect(env, rec, x.at, f);
      case ReachableReport(p, from) => ReachableEffect(env, rec, x.at, p, from, x.ip, f);
    }
    SameRecord(r, s);
  }

  lemma SameRecord(r: Record, s: Record)
    requires forall f: Family :: Find(r, f) == Find(s, f)
    ensures r == s
  {
    forall f: Family
      ensures f in r <==> f in s
      ensures f in r ==> r[f] == s[f]
    {
      assert Find(r, f) == Find(s, f);
    }
  }
}
