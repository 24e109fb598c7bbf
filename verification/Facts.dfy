/** The lasting facts in a peer's record, told from its history: the network, the addresses, the
    network filing, the last sighting, and the type of every value. */
module Facts {
  import opened Wrappers
  import opened Redis
  import opened Keys
  import opened Types
  import opened Arms
  import opened Witnesses
  import Store

  /** The network of the latest reachable report. */
  function LatestNetwork(h: seq<Input>): Option<Network> {
    if h == [] then None
    else
      var last := h[|h| - 1];
      if IsReachable(last) then Some(last.report.peer.network) else LatestNetwork(h[..|h| - 1])
  }

  ghost predicate Named(h: seq<Input>, e: EndpointInfo) {
    exists i :: 0 <= i < |h| && IsReachable(h[i]) && e in h[i].report.peer.addresses
  }

  /** All endpoints any reachable report gave the peer, as stored. */
  ghost function KnownAddresses(env: Env, h: seq<Input>): set<string> {
    if h == [] then {}
    else
      var last := h[|h| - 1];
      KnownAddresses(env, h[..|h| - 1])
      + (if IsReachable(last) then Encoded(env, last.report.peer.addresses) else {})
  }

  lemma {:induction false} KnownAddressesAre(env: Env, h: seq<Input>, m: string)
    ensures m in KnownAddresses(env, h) <==> exists e :: Named(h, e) && env.encode(e) == m
  {
    if h != [] {
      var g, x := h[..|h| - 1], h[|h| - 1];
      KnownAddressesAre(env, g, m);
      forall e
        ensures Named(h, e) <==> Named(g, e) || (IsReachable(x) && e in x.report.peer.addresses)
      {
        NamedSnoc(g, x, e);
        assert h == g + [x];
      }
    }
  }

  lemma {:induction false} NamedSnoc(g: seq<Input>, x: Input, e: EndpointInfo)
    ensures Named(g + [x], e) <==> Named(g, e) || (IsReachable(x) && e in x.report.peer.addresses)
  {
    var h := g + [x];
    assert h[|g|] == x;
    if Named(g, e) {
      var i :| 0 <= i < |g| && IsReachable(g[i]) && e in g[i].report.peer.addresses;
      assert h[i] == g[i];
    }
  }

  /** The network key holds the network of the latest reachable report. */
  lemma {:induction false} StoredNetwork(env: Env, h: seq<Input>)
    ensures Find(Run(env, h), Stored) ==
            (match LatestNetwork(h) case None => None case Some(n) => Stay(n.IntoStr()))
  {
    if h != [] {
      var g, x := h[..|h| - 1], h[|h| - 1];
      StoredNetwork(env, g);
      RunEffect(env, g, x, Stored);
      assert h == g + [x];
    }
  }

  lemma {:induction false} IpKey(env: Env, g: seq<Input>, x: Input)
    ensures Find(Run(env, g + [x]), Ip) ==
            if IsReachable(x) then Widen(Find(Run(env, g), Ip), x.at, Encoded(env, x.report.peer.addresses))
            else Find(Run(env, g), Ip)
  {
    RunEffect(env, g, x, Ip);
  }

  lemma WidenHolds(e: Option<Entry>, s: set<string>, at: nat, ms: set<string>)
    requires HoldsSet(e, s)
    ensures HoldsSet(Widen(e, at, ms), s + ms)
  {
    if ms == {} {
      assert s + ms == s;
    } else if s == {} {
      assert s + ms == ms;
    }
  }

  /** The address set never forgets: it is every endpoint of every reachable report. */
  lemma {:induction false} AddressSet(env: Env, h: seq<Input>)
    ensures HoldsSet(Find(Run(env, h), Ip), KnownAddresses(env, h))
  {
    if h != [] {
      var g, x := h[..|h| - 1], h[|h| - 1];
      assert h == g + [x];
      AddressSet(env, g);
      IpKey(env, g, x);
      if IsReachable(x) {
        WidenHolds(Find(Run(env, g), Ip), KnownAddresses(env, g), x.at, Encoded(env, x.report.peer.addresses));
      } else {
        assert KnownAddresses(env, h) == KnownAddresses(env, g);
      }
    }
  }

  lemma {:induction false} QuickKey(env: Env, g: seq<Input>, x: Input, n: Network)
    ensures Find(Run(env, g + [x]), Quick(n)) ==
            if IsReachable(x) && x.report.peer.network == n then Stay("0") else Find(Run(env, g), Quick(n))
  {
    RunEffect(env, g, x, Quick(n));
    QuickAfter(env, Run(env, g), x, n);
  }

  lemma {:induction false} QuickAfter(env: Env, rec: Record, x: Input, n: Network)
    ensures After(env, rec, x, Quick(n)) ==
            if IsReachable(x) && x.report.peer.network == n then Stay("0") else Find(rec, Quick(n))
  {
    match x.report
    case OnlineReport(_) =>
    case UnknownReport(_) =>
    case ReachableReport(p, _) => assert Quick(p.network) == Quick(n) <==> p.network == n;
  }

  ghost predicate ReportedUnder(h: seq<Input>, n: Network) {
    exists i :: 0 <= i < |h| && IsReachable(h[i]) && h[i].report.peer.network == n
  }

  /** A peer is filed under a network, for good, by its first reachable report there. */
  lemma {:induction false} NetworkFiling(env: Env, h: seq<Input>, n: Network)
    ensures Find(Run(env, h), Quick(n)) == if ReportedUnder(h, n) then Stay("0") else None
  {
    if h != [] {
      var g, x := h[..|h| - 1], h[|h| - 1];
      NetworkFiling(env, g, n);
      QuickKey(env, g, x, n);
      assert h == g + [x];
      assert h[|g|] == x;
      if ReportedUnder(g, n) {
        var i :| 0 <= i < |g| && IsReachable(g[i]) && g[i].report.peer.network == n;
        assert h[i] == g[i];
      }
    }
  }

  /** A witness key exists only for peers some reachable report was about. */
  lemma {:induction false} WitnessedIsReported(env: Env, h: seq<Input>)
    ensures Find(Run(env, h), Reachable).Some? ==> LatestNetwork(h).Some?
  {
    if h != [] {
      var g, x := h[..|h| - 1], h[|h| - 1];
      assert h == g + [x];
      WitnessedIsReported(env, g);
      ReachableKey(env, g, x);
    }
  }

  /** Someone who is vouched for, or was upgraded, has been reported reachable somewhere. */
  lemma {:induction false} VouchedFor(env: Env, h: seq<Input>)
    requires env.Sound()
    requires Since(env, h) != {} || exists u: nat :: OpensUnknown(env, h, u)
    ensures exists n :: ReportedUnder(h, n)
    ensures LatestNetwork(h).Some?
  {
    if exists u: nat :: OpensUnknown(env, h, u) {
      var u: nat :| OpensUnknown(env, h, u);
      assert Since(env, h[..u]) != {};
      Vouched(env, h[..u]);
      var i :| 0 <= i < u && IsReachable(h[i]);
      assert ReportedUnder(h, h[i].report.peer.network);
      SomeLatest(h, i);
    } else {
      Vouched(env, h);
      var i :| 0 <= i < |h| && IsReachable(h[i]);
      assert ReportedUnder(h, h[i].report.peer.network);
      SomeLatest(h, i);
    }
  }

  lemma {:induction false} Vouched(env: Env, h: seq<Input>)
    requires Since(env, h) != {}
    ensures exists i :: 0 <= i < |h| && IsReachable(h[i])
  {
    var p :| p in Since(env, h);
    SinceMember(env, h, p);
    var k: nat :| k < |h| && Counts(env, h, k);
  }

  lemma {:induction false} SomeLatest(h: seq<Input>, i: nat)
    requires i < |h| && IsReachable(h[i])
    ensures LatestNetwork(h).Some?
  {
    if i < |h| - 1 {
      SomeLatest(h[..|h| - 1], i);
    }
  }

  // ---------- fullness, and the address of the last online report ----------

  /** The latest online report, or the latest that has an address. */
  function LatestOnline(h: seq<Input>, placed: bool): (r: Option<Input>)
    ensures r.Some? ==> IsOnlineReport(r.value, placed)
  {
    if h == [] then None
    else if IsOnlineReport(h[|h| - 1], placed) then Some(h[|h| - 1])
    else LatestOnline(h[..|h| - 1], placed)
  }

  predicate IsOnlineReport(x: Input, placed: bool) {
    x.report.OnlineReport? && (placed ==> x.report.online.info.addresses != [])
  }

  lemma {:induction false} LatestOnlineIs(h: seq<Input>, placed: bool)
    ensures match LatestOnline(h, placed)
            case None => forall i | 0 <= i < |h| :: !IsOnlineReport(h[i], placed)
            case Some(x) => exists i :: 0 <= i < |h| && h[i] == x && IsLatest(h, i, placed)
  {
    if h != [] {
      var g := h[..|h| - 1];
      if IsOnlineReport(h[|h| - 1], placed) {
        assert IsLatest(h, |g|, placed);
      } else {
        LatestOnlineIs(g, placed);
        if LatestOnline(g, placed).Some? {
          var i :| 0 <= i < |g| && g[i] == LatestOnline(g, placed).value && IsLatest(g, i, placed);
          StillLatest(h, i, placed);
        }
      }
    }
  }

  /** Report `i` is such a report, and none after it is. */
  predicate IsLatest(h: seq<Input>, i: nat, placed: bool) {
    i < |h| && IsOnlineReport(h[i], placed) && forall k | i < k < |h| :: !IsOnlineReport(h[k], placed)
  }

  lemma {:induction false} StillLatest(h: seq<Input>, i: nat, placed: bool)
    requires h != [] && IsLatest(h[..|h| - 1], i, placed) && !IsOnlineReport(h[|h| - 1], placed)
    ensures IsLatest(h, i, placed)
  {
    var g := h[..|h| - 1];
    forall k | i < k < |h|
      ensures !IsOnlineReport(h[k], placed)
    {
      if k < |g| {
        assert h[k] == g[k];
      }
    }
  }

  /** The fullness key says what the latest online report said. */
  lemma {:induction false} FullKey(env: Env, h: seq<Input>)
    ensures Find(Run(env, h), Full) ==
            match LatestOnline(h, false)
            case None => None
            case Some(x) => Some(Entry(Text(if x.report.online.full then "1" else "0"), None))
  {
    if h != [] {
      var g, x := h[..|h| - 1], h[|h| - 1];
      assert h == g + [x];
      FullKey(env, g);
      RunEffect(env, g, x, Full);
      FullAfter(env, Run(env, g), x);
    }
  }

  lemma {:induction false} FullAfter(env: Env, rec: Record, x: Input)
    ensures After(env, rec, x, Full) ==
            if x.report.OnlineReport? then Stay(BoolText(x.report.online.full)) else Find(rec, Full)
  {}

  /** The online address is the first one of the latest online report that has any, for one timeout. */
  lemma {:induction false} OnlineAddress(env: Env, h: seq<Input>)
    ensures Find(Run(env, h), OnlineIp) ==
            match LatestOnline(h, true)
            case None => None
            case Some(x) => AddressEntry(env, x)
  {
    if h != [] {
      var g, x := h[..|h| - 1], h[|h| - 1];
      assert h == g + [x];
      OnlineAddress(env, g);
      RunEffect(env, g, x, OnlineIp);
      OnlineIpAfter(env, Run(env, g), x);
    }
  }

  function AddressEntry(env: Env, x: Input): Option<Entry>
    requires IsOnlineReport(x, true)
  {
    Some(Entry(Text(env.encode(x.report.online.info.addresses[0])), Some(x.at + 1000 * env.timeout)))
  }

  lemma {:induction false} OnlineIpAfter(env: Env, rec: Record, x: Input)
    ensures After(env, rec, x, OnlineIp) ==
            if IsOnlineReport(x, true) then AddressEntry(env, x) else Find(rec, OnlineIp)
  {}

  // ---------- types of values ----------

  predicate IsSetKey(f: Family) {
    f == Reachable || f == Ip
  }

  predicate Typed(rec: Record) {
    forall f: Family | f in rec :: rec[f].value.Members? <==> IsSetKey(f)
  }

  /** Each command fits the kind of value its key holds. */
  predicate Fits(c: Command) {
    if IsSetKey(c.key) then c.op.SAdd? || c.op.Del? else !c.op.SAdd?
  }

  /** No arm ever applies a string command to a set key, or a set command to a string key. */
  lemma {:induction false} CommandsFit(env: Env, rec: Record, x: Input, i: nat)
    requires i < |Commands(env, rec, x)|
    ensures Fits(Commands(env, rec, x)[i])
  {
    var c := Commands(env, rec, x)[i];
    assert c in Commands(env, rec, x);
    match x.report {
      case OnlineReport(o) => OnlineFits(env, rec, x.at, o, x.ip, c);
      case UnknownReport(_) =>
      case ReachableReport(p, from) => ReachableFits(env, rec, x.at, p, from, x.ip, c);
    }
  }

  lemma {:induction false} OnlineFits(env: Env, rec: Record, at: nat, o: PeerInfo, ip: Option<IpDetails>, c: Command)
    requires c in OnlineCmds(env, rec, at, o, ip)
    ensures Fits(c)
  {
    if c in AddressCmds(env, o, ip) {
      AddressFits(env, o, ip, c);
    }
  }

  lemma {:induction false} AddressFits(env: Env, o: PeerInfo, ip: Option<IpDetails>, c: Command)
    requires c in AddressCmds(env, o, ip)
    ensures Fits(c)
  {}

  lemma {:induction false} ReachableFits(env: Env, rec: Record, at: nat, p: NodeMetaInfo, from: NodeMetaInfo,
                                         ip: Option<IpDetails>, c: Command)
    requires c in ReachableCmds(env, rec, at, p, from, ip)
    ensures Fits(c)
  {
    if c in ReachableWrites(env, at, p, from) {
      WritesFit(env, at, p, from, c);
    }
  }

  lemma {:induction false} WritesFit(env: Env, at: nat, p: NodeMetaInfo, from: NodeMetaInfo, c: Command)
    requires c in ReachableWrites(env, at, p, from)
    ensures Fits(c)
  {}

  predicate RightType(e: Option<Entry>, f: Family) {
    e.Some? ==> (e.value.value.Members? <==> IsSetKey(f))
  }

  lemma {:induction false} ApplyTyped(e: Option<Entry>, at: nat, c: Command)
    requires RightType(e, c.key) && Fits(c)
    ensures RightType(Apply(e, at, c.op), c.key)
    ensures WellTyped(e, at, c.op)
  {}

  lemma {:induction false} ExecTyped(rec: Record, at: nat, cmds: seq<Command>)
    requires Typed(rec) && forall i | 0 <= i < |cmds| :: Fits(cmds[i])
    ensures Typed(ExecAll(rec, at, cmds))
    decreases |cmds|
  {
    if cmds != [] {
      var front, c := cmds[..|cmds| - 1], cmds[|cmds| - 1];
      ExecTyped(rec, at, front);
      ApplyTyped(Find(ExecAll(rec, at, front), c.key), at, c);
    }
  }

  /** Sets are stored under the witness and address keys, text everywhere else, so no command of any
      run meets a value of the wrong type. */
  lemma {:induction false} RunTyped(env: Env, h: seq<Input>)
    ensures Typed(Run(env, h))
  {
    if h != [] {
      var rec, x := Run(env, h[..|h| - 1]), h[|h| - 1];
      RunTyped(env, h[..|h| - 1]);
      HandleIsNext(env, rec, x);
      forall i | 0 <= i < |Commands(env, rec, x)|
        ensures Fits(Commands(env, rec, x)[i])
      {
        CommandsFit(env, rec, x, i);
      }
      ExecTyped(rec, x.at, Commands(env, rec, x));
    }
  }

  /** The same seen from a command about to run: it fits its key, and finds a value of its type. */
  lemma {:induction false} NoTypeErrors(env: Env, h: seq<Input>, x: Input, k: nat)
    requires k < |Commands(env, Run(env, h), x)|
    ensures var cmds := Commands(env, Run(env, h), x);
            var before := ExecAll(Run(env, h), x.at, cmds[..k]);
            && Fits(cmds[k])
            && RightType(Find(before, cmds[k].key), cmds[k].key)
            && WellTyped(Find(before, cmds[k].key), x.at, cmds[k].op)
  {
    var rec := Run(env, h);
    var cmds := Commands(env, rec, x);
    RunTyped(env, h);
    forall i | 0 <= i < |cmds|
      ensures Fits(cmds[i])
    {
      CommandsFit(env, rec, x, i);
    }
    ExecTyped(rec, x.at, cmds[..k]);
    ApplyTyped(Find(ExecAll(rec, x.at, cmds[..k]), cmds[k].key), x.at, cmds[k]);
  }

  /** The commands that read one peer's keys: GET expects text, SCARD and SMEMBERS a set. */
  datatype Read = GetOf(key: Family) | CountOf(key: Family) | MembersOf(key: Family)

  /** What the arm of a report reads of its peer. */
  function ArmReads(report: Report): set<Read> {
    match report
    case OnlineReport(_) => {GetOf(Online)}
    case UnknownReport(_) => {GetOf(Online), CountOf(Reachable)}
    case ReachableReport(_, _) => {GetOf(Country)}
  }

  /** What the broadcast timer reads of each listed peer, and what the queries do. */
  const TIMER_READS: set<Read> := {MembersOf(Ip), GetOf(Stored)}
  const QUERY_READS: set<Read> :=
    {GetOf(Online), GetOf(Online2), GetOf(Country), GetOf(City), GetOf(Pos), GetOf(Full), GetOf(LastSeen)}

  ghost predicate IsRead(r: Read) {
    r in TIMER_READS || r in QUERY_READS || exists report :: r in ArmReads(report)
  }

  /** No redis error: what the command finds, if anything, is of the type it reads. */
  predicate ReadFits(e: Option<Entry>, now: nat, r: Read) {
    Live(e, now).Some? ==> (Live(e, now).value.Text? <==> r.GetOf?)
  }

  lemma {:induction false} TypedReadFits(rec: Record, now: nat, r: Read)
    requires Typed(rec) && IsRead(r)
    ensures ReadFits(Find(rec, r.key), now, r)
  {
    assert r.GetOf? <==> !IsSetKey(r.key);
  }

  lemma {:induction false} MidArmTyped(env: Env, h: seq<Input>, x: Input, k: nat)
    requires k <= |Commands(env, Run(env, h), x)|
    ensures Typed(ExecAll(Run(env, h), x.at, Commands(env, Run(env, h), x)[..k]))
  {
    var rec := Run(env, h);
    RunTyped(env, h);
    forall i | 0 <= i < k
      ensures Fits(Commands(env, rec, x)[i])
    {
      CommandsFit(env, rec, x, i);
    }
    ExecTyped(rec, x.at, Commands(env, rec, x)[..k]);
  }

  /** On the string-keyed store, after any run and any number of the next arm's writes: every read of
      either program, of any peer's key and at any time, finds a value of its type or none. */
  lemma {:induction false} NoReadErrors(env: Env, es: seq<Store.Event>, x: Input, k: nat, now: nat, q: string, r: Read)
    requires var own := Commands(env, Store.View(Store.RunStore(env, es), x.report.Subject()), x); k <= |own|
    requires IsRead(r)
    ensures var own := Commands(env, Store.View(Store.RunStore(env, es), x.report.Subject()), x);
            var mid := ExecAll(Store.RunStore(env, es), x.at, Store.Named(x.report.Subject(), own[..k]));
            ReadFits(Find(mid, Format(r.key, q)), now, r)
  {
    var p, db := x.report.Subject(), Store.RunStore(env, es);
    var own := Commands(env, Store.View(db, p), x);
    var mid := ExecAll(db, x.at, Store.Named(p, own[..k]));
    Store.Locality(env, es, p);
    Store.Locality(env, es, q);
    Store.ExecAllRefines(db, x.at, own[..k], p, q);
    if p == q {
      MidArmTyped(env, Store.Own(es, p), x, k);
    } else {
      RunTyped(env, Store.Own(es, q));
    }
    TypedReadFits(Store.View(mid, q), now, r);
    Store.ViewFind(mid, q, r.key);
  }

  // ---------- the geo fields ----------

  /** The answer whose fields the peer shows: an online report with an address always brings a new
      one, a reachable report only while the country is missing or empty. */
  function GeoSource(h: seq<Input>): Option<IpDetails> {
    if h == [] then None
    else
      var x, was := h[|h| - 1], GeoSource(h[..|h| - 1]);
      if x.ip == None then was
      else
        match x.report
        case OnlineReport(o) => if o.info.addresses == [] then was else x.ip
        case UnknownReport(_) => was
        case ReachableReport(_, _) => if was == None || was.value.country == "" then x.ip else was
  }

  function GeoEntry(d: Option<IpDetails>, f: Family): Option<Entry> {
    match d
    case None => None
    case Some(ip) => Stay(GeoField(ip, f))
  }

  function GeoNext(was: Option<Entry>, country: Option<Entry>, x: Input, f: Family): Option<Entry> {
    if x.ip == None then was
    else
      match x.report
      case OnlineReport(o) => if o.info.addresses == [] then was else Stay(GeoField(x.ip.value, f))
      case UnknownReport(_) => was
      case ReachableReport(_, _) =>
        if !Alive(country, x.at) || country == Stay("") then Stay(GeoField(x.ip.value, f)) else was
  }

  lemma {:induction false} GeoKey(env: Env, g: seq<Input>, x: Input, f: Family, d: Option<IpDetails>)
    requires IsGeo(f) && Find(Run(env, g), Country) == GeoEntry(d, Country)
    ensures Find(Run(env, g + [x]), f) == GeoNext(Find(Run(env, g), f), Find(Run(env, g), Country), x, f)
  {
    RunEffect(env, g, x, f);
    GeoAfter(env, Run(env, g), x, f, d);
  }

  lemma {:induction false} GeoAfter(env: Env, rec: Record, x: Input, f: Family, d: Option<IpDetails>)
    requires IsGeo(f) && Find(rec, Country) == GeoEntry(d, Country)
    ensures After(env, rec, x, f) == GeoNext(Find(rec, f), Find(rec, Country), x, f)
  {}

  /** Country, city, region and position always come from one single answer. */
  lemma {:induction false} GeoFromOneSource(env: Env, h: seq<Input>, f: Family)
    requires IsGeo(f)
    ensures Find(Run(env, h), f) == GeoEntry(GeoSource(h), f)
  {
    if h != [] {
      var g, x := h[..|h| - 1], h[|h| - 1];
      assert h == g + [x];
      GeoFromOneSource(env, g, f);
      GeoFromOneSource(env, g, Country);
      GeoKey(env, g, x, f, GeoSource(g));
      GeoSourceSnoc(g, x, f);
    }
  }

  lemma {:induction false} GeoSourceSnoc(g: seq<Input>, x: Input, f: Family)
    requires IsGeo(f)
    ensures GeoEntry(GeoSource(g + [x]), f) ==
            GeoNext(GeoEntry(GeoSource(g), f), GeoEntry(GeoSource(g), Country), x, f)
  {
    assert (g + [x])[..|g|] == g;
  }

  /** The last sighting is the time of the latest report of any kind, in whole seconds. */
  lemma {:induction false} LastSighting(env: Env, h: seq<Input>)
    requires h != []
    ensures Find(Run(env, h), LastSeen) == Stay(Seconds(h[|h| - 1].at))
  {
    var g, x := h[..|h| - 1], h[|h| - 1];
    RunEffect(env, g, x, LastSeen);
    SeenAfter(env, Run(env, g), x);
    assert h == g + [x];
  }

  lemma {:induction false} SeenAfter(env: Env, rec: Record, x: Input)
    ensures After(env, rec, x, LastSeen) == Stay(Seconds(x.at))
  {}
}
