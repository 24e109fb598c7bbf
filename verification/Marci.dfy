/** marci: the loop's arms as they run, command by command, over the connection and the address
    memo. Whatever arrives, the store and the memo stay what `Geo.Drive` says of the arrivals. */
module Marci {
  import opened Wrappers
  import opened Redis
  import opened Keys
  import opened Types
  import opened Arms
  import opened Store
  import opened Geo
  import opened Connection

  /** The static memo in front of the ipinfo.io client. */
  class IpInfoCache {
    const service: Oracle
    var cache: map<string, IpDetails>
    var asked: seq<string>

    constructor (service: Oracle)
      ensures this.service == service && Remembered() == Memo(map[], [])
    {
      this.service := service;
      cache, asked := map[], [];
    }

    function Remembered(): Memo
      reads this
    {
      Memo(cache, asked)
    }

    method LookupIpInfo(ip: string) returns (r: Option<IpDetails>)
      modifies this
      ensures Answer(r, Remembered()) == Lookup(service, old(Remembered()), ip)
    {
      if ip in cache {
        return Some(cache[ip]);
      }
      r := service(|asked|, ip);
      asked := asked + [ip];
      if r.Some? {
        cache := cache[ip := r.value];
      }
    }

    method QueryByReachable(ips: seq<string>) returns (r: Option<IpDetails>)
      modifies this
      ensures Answer(r, Remembered()) == LookupFirst(service, old(Remembered()), ips)
      ensures FirstDecides(service, old(Remembered()), ips, Answer(r, Remembered()))
    {
      LookupFirstMeaning(service, Remembered(), ips);
      for i := 0 to |ips|
        invariant LookupFirst(service, Remembered(), ips[i..]) == LookupFirst(service, old(Remembered()), ips)
      {
        assert ips[i..][1..] == ips[i + 1..];
        r := LookupIpInfo(ips[i]);
        if r.Some? {
          return;
        }
      }
      assert ips[|ips|..] == [];
      r := None;
    }
  }

  /** Reading a list of texts: those that decode, at the places `at`, in their order, and no others. */
  ghost predicate DecodesTo(env: Env, raw: seq<string>, addresses: seq<EndpointInfo>, at: seq<nat>) {
    && |at| == |addresses|
    && (forall i, j | 0 <= i < j < |at| :: at[i] < at[j])
    && (forall i | 0 <= i < |at| :: at[i] < |raw| && env.decode(raw[at[i]]) == Some(addresses[i]))
    && (forall k | 0 <= k < |raw| && env.decode(raw[k]).Some? :: k in at)
  }

  lemma {:induction false} OneMoreText(env: Env, raw: seq<string>, x: string, addresses: seq<EndpointInfo>,
                                       at: seq<nat>)
    requires DecodesTo(env, raw, addresses, at)
    ensures match env.decode(x)
            case None => DecodesTo(env, raw + [x], addresses, at)
            case Some(e) => DecodesTo(env, raw + [x], addresses + [e], at + [|raw|])
  {
    var more := raw + [x];
    forall k | 0 <= k < |more| && env.decode(more[k]).Some?
      ensures k in at || (k == |raw| && env.decode(x).Some?)
    {
      assert k < |raw| ==> more[k] == raw[k];
    }
  }

  lemma {:induction false} DecodedAre(env: Env, raw: seq<string>, addresses: seq<EndpointInfo>, at: seq<nat>)
    requires DecodesTo(env, raw, addresses, at)
    ensures forall e :: e in addresses <==> exists x :: x in raw && env.decode(x) == Some(e)
  {
    forall x, e | x in raw && env.decode(x) == Some(e)
      ensures e in addresses
    {
      var k :| 0 <= k < |raw| && raw[k] == x;
      var i :| 0 <= i < |at| && at[i] == k;
      assert addresses[i] == e;
    }
    forall e | e in addresses
      ensures exists x :: x in raw && env.decode(x) == Some(e)
    {
      var i :| 0 <= i < |addresses| && addresses[i] == e;
      assert raw[at[i]] in raw;
    }
  }

  /** Each member of the set once, in some order, and what they decode to in that order. */
  ghost predicate ReadsOnce(env: Env, members: set<string>, addresses: seq<EndpointInfo>) {
    exists raw, at ::
      NoDuplicates(raw) && (forall x :: x in raw <==> x in members) && DecodesTo(env, raw, addresses, at)
  }

  /** What the broadcast says of a peer: the endpoints its address set decodes to, each member of the
      set read once, and its network. */
  ghost predicate Announces(env: Env, db: Db, now: nat, m: NodeMetaInfo) {
    && m.network == Network.From(Get(db, now, Format(Stored, m.peerId)).GetOr(""))
    && ReadsOnce(env, SMembers(db, now, Format(Ip, m.peerId)), m.addresses)
  }

  lemma {:induction false} OnceRead(env: Env, members: set<string>, addresses: seq<EndpointInfo>)
    requires ReadsOnce(env, members, addresses)
    ensures forall e :: e in addresses <==> exists x :: x in members && env.decode(x) == Some(e)
  {
    var raw, at :|
      NoDuplicates(raw) && (forall x :: x in raw <==> x in members) && DecodesTo(env, raw, addresses, at);
    DecodedAre(env, raw, addresses, at);
  }

  /** If no two members decode to the same endpoint, no endpoint is announced twice. */
  lemma {:induction false} NoneTwice(env: Env, members: set<string>, addresses: seq<EndpointInfo>)
    requires ReadsOnce(env, members, addresses)
    requires forall x | x in members :: env.decode(x).Some? ==> env.encode(env.decode(x).value) == x
    ensures NoDuplicates(addresses)
  {
    var raw, at :|
      NoDuplicates(raw) && (forall x :: x in raw <==> x in members) && DecodesTo(env, raw, addresses, at);
    forall i, j | 0 <= i < j < |addresses|
      ensures addresses[i] != addresses[j]
    {
      assert raw[at[i]] in members && raw[at[j]] in members && at[i] < at[j];
    }
  }

  /** Every peer with a live witness key is addressed by exactly one message, and nobody else is. */
  ghost predicate OneEach(db: Db, now: nat, sent: seq<NodeMetaInfo>) {
    && (forall i, j | 0 <= i < j < |sent| :: sent[i].peerId != sent[j].peerId)
    && (forall i | 0 <= i < |sent| :: Live(Find(db, Format(Reachable, sent[i].peerId)), now).Some?)
    && (forall p | Live(Find(db, Format(Reachable, p)), now).Some? ::
          exists i :: 0 <= i < |sent| && sent[i].peerId == p)
  }

  lemma {:induction false} SentToEach(db: Db, now: nat, ids: seq<string>, sent: seq<NodeMetaInfo>)
    requires |sent| == |ids| && forall i | 0 <= i < |sent| :: sent[i].peerId == ids[i]
    requires NoDuplicates(ids) && forall p :: p in ids <==> Live(Find(db, Format(Reachable, p)), now).Some?
    ensures OneEach(db, now, sent)
  {
    forall i | 0 <= i < |sent|
      ensures Live(Find(db, Format(Reachable, sent[i].peerId)), now).Some?
    {
      assert ids[i] in ids;
    }
    forall p | Live(Find(db, Format(Reachable, p)), now).Some?
      ensures exists i :: 0 <= i < |sent| && sent[i].peerId == p
    {
      assert p in ids;
      var i :| 0 <= i < |ids| && ids[i] == p;
      assert sent[i].peerId == p;
    }
  }

  class Marci {
    const con: RedisConnection
    const info: IpInfoCache
    const env: Env
    const show: Printer
    ghost var arrivals: seq<Arrival>

    ghost predicate Valid()
      reads this, con, info
    {
      IsOutcome(env, info.service, show, arrivals, con.now, con.data, info.Remembered())
    }

    constructor (env: Env, show: Printer, service: Oracle)
      ensures Valid() && fresh(con) && fresh(info)
      ensures arrivals == [] && this.env == env && this.show == show && info.service == service
    {
      this.con := new RedisConnection();
      this.info := new IpInfoCache(service);
      this.env, this.show := env, show;
      arrivals := [];
    }

    /** Time passes while the loop waits for its queues. */
    method Wait(ms: nat)
      requires Valid()
      modifies con`now
      ensures Valid() && con.now == old(con.now) + ms
    {
      con.Wait(ms);
    }

    /** SET-like commands on the keys of one peer, one after the other. */
    lemma {:induction false} Two(db: Db, p: string, a: Command, b: Command)
      ensures ExecAll(db, con.now, Named(p, [a, b])) ==
              Exec(Exec(db, con.now, Cmd(Format(a.key, p), a.op)), con.now, Cmd(Format(b.key, p), b.op))
    {
      One(db, p, a);
      NamedSnoc(db, con.now, p, [a], b);
      assert [a] + [b] == [a, b];
    }

    lemma {:induction false} One(db: Db, p: string, a: Command)
      ensures ExecAll(db, con.now, Named(p, [a])) == Exec(db, con.now, Cmd(Format(a.key, p), a.op))
    {
      NamedSnoc(db, con.now, p, [], a);
      assert [] + [a] == [a] && Named(p, []) == [];
    }

    lemma {:induction false} Then(db: Db, p: string, a: seq<Command>, b: seq<Command>)
      ensures ExecAll(db, con.now, Named(p, a + b)) ==
              ExecAll(ExecAll(db, con.now, Named(p, a)), con.now, Named(p, b))
    {
      assert Named(p, a + b) == Named(p, a) + Named(p, b);
      ExecAppend(db, con.now, Named(p, a), Named(p, b));
    }

    /** The four writes of an answered lookup. */
    method WriteGeo(p: string, d: IpDetails)
      modifies con`data
      ensures con.data == ExecAll(old(con.data), con.now, Named(p, GeoCmds(Some(d))))
    {
      var c1, c2 := Cmd(Country, Set(d.country)), Cmd(City, Set(d.city));
      var c3, c4 := Cmd(Region, Set(d.region)), Cmd(Pos, Set(d.loc));
      Two(con.data, p, c1, c2);
      con.Set(Format(Country, p), d.country);
      con.Set(Format(City, p), d.city);
      Two(con.data, p, c3, c4);
      con.Set(Format(Region, p), d.region);
      con.Set(Format(Pos, p), d.loc);
      Then(old(con.data), p, [c1, c2], [c3, c4]);
      assert [c1, c2] + [c3, c4] == GeoCmds(Some(d));
    }

    method WriteLease(o: PeerInfo)
      modifies con`data
      ensures con.data == ExecAll(old(con.data), con.now, Named(o.info.peerId,
                [LeaseCmd(env, Get(old(con.data), con.now, Format(Online, o.info.peerId)).Some?, o)]))
    {
      var p := o.info.peerId;
      var onlineKey := Format(Online, p);
      var found := con.Get(onlineKey);
      One(con.data, p, LeaseCmd(env, found.Some?, o));
      if found.Some? {
        con.Expire(onlineKey, env.timeout);
      } else if o.isEx {
        con.SetEx(Format(Online2, p), o.version, env.timeout);
      } else {
        con.SetEx(onlineKey, o.version, env.timeout);
      }
    }

    /** The address of an online report, and what the memo or the service knows about it. */
    method WriteAddress(o: PeerInfo) returns (ghost ip: Option<IpDetails>)
      modifies con`data, info
      ensures Answer(ip, info.Remembered()) ==
              if o.info.addresses == [] then Answer(None, old(info.Remembered()))
              else Lookup(info.service, old(info.Remembered()), show(o.info.addresses[0]))
      ensures con.data == ExecAll(old(con.data), con.now, Named(o.info.peerId, AddressCmds(env, o, ip)))
    {
      var p := o.info.peerId;
      ip := None;
      if o.info.addresses != [] {
        var addr := o.info.addresses[0];
        ghost var c := Cmd(OnlineIp, SetEx(env.encode(addr), env.timeout));
        One(con.data, p, c);
        con.SetEx(Format(OnlineIp, p), env.encode(addr), env.timeout);
        var d := info.LookupIpInfo(show(addr));
        Then(old(con.data), p, [c], GeoCmds(d));
        if d.Some? {
          WriteGeo(p, d.value);
        } else {
          assert Named(p, GeoCmds(d)) == [];
        }
        ip := d;
      } else {
        assert Named(p, AddressCmds(env, o, ip)) == [];
      }
    }

    /** The online arm. */
    method HandleOnline(o: PeerInfo)
      requires Valid()
      modifies this`arrivals, con`data, info
      ensures Valid() && arrivals == old(arrivals) + [Arrived(con.now, OnlineReport(o))]
    {
      ghost var ip := WriteOnline(o);
      ReportHandled(old(con.data), old(info.Remembered()), OnlineReport(o), ip);
      arrivals := arrivals + [Arrived(con.now, OnlineReport(o))];
    }

    method WriteOnline(o: PeerInfo) returns (ghost ip: Option<IpDetails>)
      modifies con`data, info
      ensures Answer(ip, info.Remembered()) ==
              if o.info.addresses == [] then Answer(None, old(info.Remembered()))
              else Lookup(info.service, old(info.Remembered()), show(o.info.addresses[0]))
      ensures con.data == ExecAll(old(con.data), con.now, Named(o.info.peerId,
                OnlineCmds(env, View(old(con.data), o.info.peerId), con.now, o, ip)))
    {
      ghost var rec := View(con.data, o.info.peerId);
      ghost var lease := LeaseCmd(env, Get(rec, con.now, Online).Some?, o);
      ViewFind(con.data, o.info.peerId, Online);
      WriteLease(o);
      ip := WriteAddress(o);
      ghost var c1, c2, c3 := Cmd(Full, Set(BoolText(o.full))), Cmd(LastSeen, Set(Seconds(con.now))), Cmd(Unknown, Del);
      WriteTail(o, c1, c2, c3);
      OnlineCmdsInPieces(old(con.data), o, ip, lease, c1, c2, c3);
    }

    /** The last three writes of the online arm. */
    method WriteTail(o: PeerInfo, ghost c1: Command, ghost c2: Command, ghost c3: Command)
      requires c1 == Cmd(Full, Set(BoolText(o.full))) && c2 == Cmd(LastSeen, Set(Seconds(con.now)))
      requires c3 == Cmd(Unknown, Del)
      modifies con`data
      ensures con.data == ExecAll(ExecAll(old(con.data), con.now, Named(o.info.peerId, [c1, c2])), con.now,
                                  Named(o.info.peerId, [c3]))
    {
      var p := o.info.peerId;
      Two(con.data, p, c1, c2);
      con.Set(Format(Full, p), BoolText(o.full));
      con.Set(Format(LastSeen, p), Seconds(con.now));
      One(con.data, p, c3);
      con.Del(Format(Unknown, p));
    }

    lemma {:induction false} OnlineCmdsInPieces(d0: Db, o: PeerInfo, ip: Option<IpDetails>, lease: Command,
                                                c1: Command, c2: Command, c3: Command)
      requires lease == LeaseCmd(env, Get(View(d0, o.info.peerId), con.now, Online).Some?, o)
      requires c1 == Cmd(Full, Set(BoolText(o.full))) && c2 == Cmd(LastSeen, Set(Seconds(con.now)))
      requires c3 == Cmd(Unknown, Del)
      ensures var p := o.info.peerId;
              var d1 := ExecAll(d0, con.now, Named(p, [lease]));
              var d2 := ExecAll(d1, con.now, Named(p, AddressCmds(env, o, ip)));
              var d3 := ExecAll(d2, con.now, Named(p, [c1, c2]));
              ExecAll(d0, con.now, Named(p, OnlineCmds(env, View(d0, p), con.now, o, ip)))
              == ExecAll(d3, con.now, Named(p, [c3]))
    {
      var p, mid := o.info.peerId, AddressCmds(env, o, ip);
      assert OnlineCmds(env, View(d0, p), con.now, o, ip) == [lease] + mid + [c1, c2] + [c3];
      Then(d0, p, [lease] + mid + [c1, c2], [c3]);
      Then(d0, p, [lease] + mid, [c1, c2]);
      Then(d0, p, [lease], mid);
    }

    /** Once a report's commands are all issued, the run of the loop is one arrival longer. */
    lemma {:induction false} ReportHandled(d0: Db, m0: Memo, report: Report, ip: Option<IpDetails>)
      requires IsOutcome(env, info.service, show, arrivals, con.now, d0, m0)
      requires Answer(ip, info.Remembered()) ==
               Consult(info.service, show, m0, View(d0, report.Subject()), Arrived(con.now, report))
      ensures IsOutcome(env, info.service, show, arrivals + [Arrived(con.now, report)], con.now,
                        Serve(env, d0, Reported(Input(con.now, report, ip))), info.Remembered())
    {
      var a := Arrived(con.now, report);
      var before := Drive(env, info.service, show, arrivals);
      assert (arrivals + [a])[..|arrivals|] == arrivals;
      var e := Reported(Input(con.now, report, ip));
      assert (before.events + [e])[..|before.events|] == before.events;
    }

    // ---------- the unknown arm ----------

    /** A live online lease is refreshed; failing that, enough witnesses are spent on an upgrade. */
    method RefreshOrUpgrade(p: string) returns (ghost cmds: seq<Command>)
      modifies con`data
      ensures con.data == ExecAll(old(con.data), con.now, Named(p, cmds))
      ensures cmds ==
              if Get(old(con.data), con.now, Format(Online, p)).Some? then [Cmd(Online, Expire(env.timeout))]
              else if SCard(old(con.data), con.now, Format(Reachable, p)) >= env.witnesses then
                [Cmd(Unknown, SetEx("unknown", env.unknownTimeout)), Cmd(Reachable, Del)]
              else []
    {
      var onlineKey, reachableKey, unknownKey := Format(Online, p), Format(Reachable, p), Format(Unknown, p);
      assert Named(p, []) == [];
      cmds := [];
      var version := con.Get(onlineKey);
      if version.Some? {
        cmds := [Cmd(Online, Expire(env.timeout))];
        One(con.data, p, cmds[0]);
        con.Expire(onlineKey, env.timeout);
      } else {
        var witnesses := con.SCard(reachableKey);
        if witnesses >= env.witnesses {
          cmds := [Cmd(Unknown, SetEx("unknown", env.unknownTimeout)), Cmd(Reachable, Del)];
          Two(con.data, p, cmds[0], cmds[1]);
          con.SetEx(unknownKey, "unknown", env.unknownTimeout);
          con.Del(reachableKey);
        }
      }
    }

    method HandleUnknown(m: NodeMetaInfo)
      requires Valid()
      modifies this`arrivals, con`data
      ensures Valid() && arrivals == old(arrivals) + [Arrived(con.now, UnknownReport(m))]
    {
      WriteUnknown(m.peerId);
      ReportHandled(old(con.data), info.Remembered(), UnknownReport(m), None);
      arrivals := arrivals + [Arrived(con.now, UnknownReport(m))];
    }

    method WriteUnknown(p: string)
      modifies con`data
      ensures con.data == ExecAll(old(con.data), con.now, Named(p, UnknownCmds(env, View(old(con.data), p), con.now)))
    {
      ghost var d0 := con.data;
      ViewFind(d0, p, Online);
      ViewFind(d0, p, Reachable);
      ghost var head := RefreshOrUpgrade(p);
      ghost var seen := Cmd(LastSeen, Set(Seconds(con.now)));
      One(con.data, p, seen);
      con.Set(Format(LastSeen, p), Seconds(con.now));
      Then(d0, p, head, [seen]);
      assert head + [seen] == UnknownCmds(env, View(d0, p), con.now);
    }

    // ---------- the reachable arm ----------

    lemma {:induction false} OneMoreAddress(d0: Db, p: string, addresses: seq<EndpointInfo>, i: nat)
      requires i < |addresses|
      ensures ExecAll(d0, con.now, Named(p, IpCmds(env, addresses[..i + 1]))) ==
              Exec(ExecAll(d0, con.now, Named(p, IpCmds(env, addresses[..i]))), con.now,
                   Cmd(Format(Ip, p), SAdd(env.encode(addresses[i]))))
    {
      var c := Cmd(Ip, SAdd(env.encode(addresses[i])));
      assert IpCmds(env, addresses[..i + 1]) == IpCmds(env, addresses[..i]) + [c];
      NamedSnoc(d0, con.now, p, IpCmds(env, addresses[..i]), c);
    }

    method WriteAddresses(p: string, addresses: seq<EndpointInfo>)
      modifies con`data
      ensures con.data == ExecAll(old(con.data), con.now, Named(p, IpCmds(env, addresses)))
    {
      assert Named(p, IpCmds(env, addresses[..0])) == [];
      for i := 0 to |addresses|
        invariant con.data == ExecAll(old(con.data), con.now, Named(p, IpCmds(env, addresses[..i])))
      {
        OneMoreAddress(old(con.data), p, addresses, i);
        con.SAdd(Format(Ip, p), env.encode(addresses[i]));
      }
      assert addresses[..|addresses|] == addresses;
    }

    method WriteReachable(m: NodeMetaInfo, from: NodeMetaInfo)
      modifies con`data
      ensures con.data == ExecAll(old(con.data), con.now, Named(m.peerId, ReachableWrites(env, con.now, m, from)))
    {
      var p := m.peerId;
      ghost var w, q := Cmd(Reachable, SAdd(from.peerId)), Cmd(Quick(m.network), Set("0"));
      ghost var s, seen := Cmd(Stored, Set(m.network.IntoStr())), Cmd(LastSeen, Set(Seconds(con.now)));
      Two(con.data, p, w, q);
      con.SAdd(Format(Reachable, p), from.peerId);
      con.Set(Format(Quick(m.network), p), "0");
      WriteAddresses(p, m.addresses);
      Two(con.data, p, s, seen);
      con.Set(Format(Stored, p), m.network.IntoStr());
      con.Set(Format(LastSeen, p), Seconds(con.now));
      ghost var ips := IpCmds(env, m.addresses);
      Then(old(con.data), p, [w, q] + ips, [s, seen]);
      Then(old(con.data), p, [w, q], ips);
      assert [w, q] + ips + [s, seen] == ReachableWrites(env, con.now, m, from);
    }

    /** The lookups of a reachable report, made only while the peer has no country. */
    method WriteMissingGeo(m: NodeMetaInfo) returns (ghost ip: Option<IpDetails>)
      modifies con`data, info
      ensures var bare := Get(old(con.data), con.now, Format(Country, m.peerId)).GetOr("") == "";
              && Answer(ip, info.Remembered()) ==
                 (if bare then LookupFirst(info.service, old(info.Remembered()), Addresses(show, m.addresses))
                  else Answer(None, old(info.Remembered())))
              && con.data == ExecAll(old(con.data), con.now, Named(m.peerId, if bare then GeoCmds(ip) else []))
    {
      var p := m.peerId;
      assert Named(p, []) == [];
      ip := None;
      var country := con.Get(Format(Country, p));
      if country.GetOr("") == "" {
        var d := info.QueryByReachable(Addresses(show, m.addresses));
        if d.Some? {
          WriteGeo(p, d.value);
        }
        ip := d;
      }
    }

    method HandleReachable(m: NodeMetaInfo, from: NodeMetaInfo)
      requires Valid()
      modifies this`arrivals, con`data, info
      ensures Valid() && arrivals == old(arrivals) + [Arrived(con.now, ReachableReport(m, from))]
    {
      ghost var ip := ServeReachable(m, from);
      ReportHandled(old(con.data), old(info.Remembered()), ReachableReport(m, from), ip);
      arrivals := arrivals + [Arrived(con.now, ReachableReport(m, from))];
    }

    method ServeReachable(m: NodeMetaInfo, from: NodeMetaInfo) returns (ghost ip: Option<IpDetails>)
      modifies con`data, info
      ensures Answer(ip, info.Remembered()) ==
              Consult(info.service, show, old(info.Remembered()), View(old(con.data), m.peerId),
                      Arrived(con.now, ReachableReport(m, from)))
      ensures con.data == Serve(env, old(con.data), Reported(Input(con.now, ReachableReport(m, from), ip)))
    {
      ghost var d0 := con.data;
      ip := WriteReachableAndGeo(m, from);
      StampServed(d0, m, from, ip);
      con.Set(LAST_UPDATE, Seconds(con.now));
    }

    /** The stamp after a reachable report's own writes completes what the event writes. */
    lemma {:induction false} StampServed(d0: Db, m: NodeMetaInfo, from: NodeMetaInfo, ip: Option<IpDetails>)
      ensures Serve(env, d0, Reported(Input(con.now, ReachableReport(m, from), ip))) ==
              Exec(ExecAll(d0, con.now, Named(m.peerId, ReachableCmds(env, View(d0, m.peerId), con.now, m, from, ip))),
                   con.now, Cmd(LAST_UPDATE, Set(Seconds(con.now))))
    {
      ServeStamped(env, d0, Input(con.now, ReachableReport(m, from), ip),
                   ReachableCmds(env, View(d0, m.peerId), con.now, m, from, ip));
    }

    method WriteReachableAndGeo(m: NodeMetaInfo, from: NodeMetaInfo) returns (ghost ip: Option<IpDetails>)
      modifies con`data, info
      ensures Answer(ip, info.Remembered()) ==
              if Get(View(old(con.data), m.peerId), con.now, Country).GetOr("") == "" then
                LookupFirst(info.service, old(info.Remembered()), Addresses(show, m.addresses))
              else Answer(None, old(info.Remembered()))
      ensures con.data == ExecAll(old(con.data), con.now, Named(m.peerId,
                ReachableCmds(env, View(old(con.data), m.peerId), con.now, m, from, ip)))
    {
      ghost var d0 := con.data;
      CountryUntouched(d0, m, from);
      WriteReachable(m, from);
      ip := WriteMissingGeo(m);
      ghost var bare := Get(View(d0, m.peerId), con.now, Country).GetOr("") == "";
      Then(d0, m.peerId, ReachableWrites(env, con.now, m, from), if bare then GeoCmds(ip) else []);
    }

    /** The country read after the writes is the country from before them. */
    lemma {:induction false} CountryUntouched(d0: Db, m: NodeMetaInfo, from: NodeMetaInfo)
      ensures var d1 := ExecAll(d0, con.now, Named(m.peerId, ReachableWrites(env, con.now, m, from)));
              Get(d1, con.now, Format(Country, m.peerId)) == Get(View(d0, m.peerId), con.now, Country)
    {
      GetThrough(d0, m.peerId, ReachableWrites(env, con.now, m, from), Country);
      WritesKeepCountry(env, View(d0, m.peerId), con.now, m, from);
    }

    lemma {:induction false} GetThrough(d0: Db, p: string, cmds: seq<Command>, f: Family)
      ensures Get(ExecAll(d0, con.now, Named(p, cmds)), con.now, Format(f, p)) ==
              Get(ExecAll(View(d0, p), con.now, cmds), con.now, f)
    {
      ExecAllRefines(d0, con.now, cmds, p, p);
      ViewFind(ExecAll(d0, con.now, Named(p, cmds)), p, f);
    }

    // ---------- the broadcast timer ----------

    method Decoded(raw: seq<string>) returns (addresses: seq<EndpointInfo>)
      ensures exists at :: DecodesTo(env, raw, addresses, at)
    {
      addresses := [];
      ghost var at: seq<nat> := [];
      for i := 0 to |raw|
        invariant DecodesTo(env, raw[..i], addresses, at)
      {
        OneMoreText(env, raw[..i], raw[i], addresses, at);
        assert raw[..i] + [raw[i]] == raw[..i + 1];
        var endpoint := env.decode(raw[i]);
        if endpoint.Some? {
          addresses := addresses + [endpoint.value];
          at := at + [i];
        }
      }
      assert raw[..|raw|] == raw;
    }

    method Announce(ids: seq<string>) returns (sent: seq<NodeMetaInfo>)
      ensures |sent| == |ids|
      ensures forall i | 0 <= i < |sent| :: sent[i].peerId == ids[i] && Announces(env, con.data, con.now, sent[i])
    {
      sent := [];
      for i := 0 to |ids|
        invariant |sent| == i
        invariant forall k | 0 <= k < i :: sent[k].peerId == ids[k] && Announces(env, con.data, con.now, sent[k])
      {
        var raw := con.SMembers(Format(Ip, ids[i]));
        var network := con.Get(Format(Stored, ids[i]));
        var addresses := Decoded(raw);
        var m := NodeMetaInfo(ids[i], addresses, Network.From(network.GetOr("")));
        assert Announces(env, con.data, con.now, m);
        sent := sent + [m];
      }
    }

    /** One message per live witness key; with dot-free ids, exactly one per vouched-for peer. */
    method Broadcast() returns (sent: seq<NodeMetaInfo>)
      requires Valid()
      modifies this`arrivals, con`data
      ensures Valid() && arrivals == old(arrivals) + [Timer(con.now)]
      ensures forall i | 0 <= i < |sent| :: Announces(env, old(con.data), con.now, sent[i])
      ensures DotFreeKeys(old(con.data)) ==> OneEach(old(con.data), con.now, sent)
    {
      var keys := con.Keys(Pattern(Reachable));
      var ids := DecodeAll(Reachable, keys);
      sent := Announce(ids);
      if DotFreeKeys(con.data) {
        ListingDecodes(con.data, con.now, Reachable, keys);
        SentToEach(con.data, con.now, ids, sent);
      }
      TimerHandled();
      con.Set(LAST_UPDATE, Seconds(con.now));
      arrivals := arrivals + [Timer(con.now)];
    }

    lemma {:induction false} TimerHandled()
      requires Valid()
      ensures IsOutcome(env, info.service, show, arrivals + [Timer(con.now)], con.now,
                        Exec(con.data, con.now, Cmd(LAST_UPDATE, Set(Seconds(con.now)))), info.Remembered())
    {
      var before := Drive(env, info.service, show, arrivals);
      var c := Cmd(LAST_UPDATE, Set(Seconds(con.now)));
      assert (arrivals + [Timer(con.now)])[..|arrivals|] == arrivals;
      assert (before.events + [Ticked(con.now)])[..|before.events|] == before.events;
      ExecSnoc(con.data, con.now, [], c);
      assert [] + [c] == [c];
    }
  }
}
