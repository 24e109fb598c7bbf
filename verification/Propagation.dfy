/** From any state of the three processes, a discovery can still come all the way through: learned of,
    reported, broadcast and dialled. */
module Propagation {
  import opened Wrappers
  import opened Redis
  import opened Keys
  import opened Types
  import opened Arms
  import opened Store
  import opened Multiaddr
  import opened Dialer
  import opened ClosedSystem
  import Base58
  import Facts
  import Marci

  // ---------- there always is a broadcast ----------

  lemma {:induction false} InSomeOrder(members: set<string>) returns (s: seq<string>)
    ensures NoDuplicates(s) && forall x :: x in s <==> x in members
    decreases |members|
  {
    s := [];
    if members != {} {
      var x :| x in members;
      var rest := InSomeOrder(members - {x});
      s := rest + [x];
    }
  }

  lemma {:induction false} ReadAll(env: Env, raw: seq<string>) returns (addresses: seq<EndpointInfo>, at: seq<nat>)
    ensures Marci.DecodesTo(env, raw, addresses, at)
  {
    addresses, at := [], [];
    if raw != [] {
      var front, last := raw[..|raw| - 1], raw[|raw| - 1];
      addresses, at := ReadAll(env, front);
      Marci.OneMoreText(env, front, last, addresses, at);
      assert front + [last] == raw;
      if env.decode(last).Some? {
        addresses, at := addresses + [env.decode(last).value], at + [|front|];
      }
    }
  }

  lemma {:induction false} SomeMessage(env: Env, db: Db, now: nat, p: string) returns (m: NodeMetaInfo)
    ensures m.peerId == p && Marci.Announces(env, db, now, m)
  {
    var members := SMembers(db, now, Format(Family.Ip, p));
    var raw := InSomeOrder(members);
    var addresses, at := ReadAll(env, raw);
    m := NodeMetaInfo(p, addresses, Network.From(Get(db, now, Format(Stored, p)).GetOr("")));
    assert Marci.ReadsOnce(env, members, m.addresses);
  }

  lemma {:induction false} Messages(env: Env, db: Db, now: nat, ids: seq<string>) returns (sent: seq<NodeMetaInfo>)
    ensures |sent| == |ids|
    ensures forall i | 0 <= i < |sent| :: sent[i].peerId == ids[i] && Marci.Announces(env, db, now, sent[i])
  {
    sent := [];
    if ids != [] {
      sent := Messages(env, db, now, ids[..|ids| - 1]);
      var m := SomeMessage(env, db, now, ids[|ids| - 1]);
      sent := sent + [m];
    }
  }

  lemma {:induction false} Vouched(db: Db, now: nat) returns (ids: set<string>)
    ensures forall p :: p in ids <==> Live(Find(db, Format(Reachable, p)), now).Some?
  {
    var n := |Prefix(Reachable)|;
    ids := set k | k in db.Keys && Prefix(Reachable) <= k && Live(Find(db, k), now).Some? :: k[n..];
    forall p
      ensures p in ids <==> Live(Find(db, Format(Reachable, p)), now).Some?
    {
      StatusKeys(p);
      assert Format(Reachable, p)[n..] == p && Prefix(Reachable) <= Format(Reachable, p);
      if p in ids {
        var k :| k in db.Keys && Prefix(Reachable) <= k && Live(Find(db, k), now).Some? && k[n..] == p;
        assert k == Format(Reachable, p);
      }
    }
  }

  lemma {:induction false} SomeBroadcast(env: Env, db: Db, now: nat) returns (sent: seq<NodeMetaInfo>)
    ensures Sent(env, db, now, sent) && Marci.OneEach(db, now, sent)
  {
    var vouched := Vouched(db, now);
    var ids := InSomeOrder(vouched);
    sent := Messages(env, db, now, ids);
    Marci.SentToEach(db, now, ids, sent);
  }

  // ---------- the four steps ----------

  lemma {:induction false} Learned(env: Env, lib: Library, s: System, d: Discovery) returns (t: System)
    requires d.node != [] && d.network != Dev
    ensures ClosedSystem.Step(env, lib, s, t) && t.events == s.events
    ensures NodeReport(d.node, d.network, NodeMetaOf(d.session, d.network)) in t.reports
  {
    t := s.(discovered := s.discovered + {d},
            reports := s.reports + {NodeReport(d.node, d.network, NodeMetaOf(d.session, d.network))});
  }

  lemma {:induction false} Delivered(env: Env, lib: Library, s: System, r: Report, at: nat) returns (t: System)
    requires r in s.reports
    ensures ClosedSystem.Step(env, lib, s, t) && t.events == s.events + [Reported(Input(at, r, None))]
  {
    t := s.(events := s.events + [Reported(Input(at, r, None))]);
  }

  /** A broadcast right after a reachable report asks for a dial to every endpoint of it, on its network. */
  lemma {:induction false} Requested(env: Env, lib: Library, s: System, front: seq<Event>, x: Input, e: EndpointInfo)
      returns (t: System, m: NodeMetaInfo)
    requires env.Sound() && s.events == front + [Reported(x)]
    requires x.report.ReachableReport? && e in x.report.peer.addresses
    ensures ClosedSystem.Step(env, lib, s, t) && m in t.requests
    ensures m.peerId == x.report.Subject() && m.network == x.report.peer.network && e in m.addresses
  {
    var db, p := RunStore(env, s.events), x.report.Subject();
    var sent := SomeBroadcast(env, db, x.at);
    t := s.(events := s.events + [Ticked(x.at)], requests := s.requests + (set m | m in sent));
    WitnessedNow(env, front, x);
    m := MessageTo(db, x.at, sent, p);
    MessageSays(env, front, x, e, m);
  }

  lemma {:induction false} MessageTo(db: Db, now: nat, sent: seq<NodeMetaInfo>, p: string) returns (m: NodeMetaInfo)
    requires Marci.OneEach(db, now, sent) && Live(Find(db, Format(Reachable, p)), now).Some?
    ensures m in sent && m.peerId == p
  {
    var i :| 0 <= i < |sent| && sent[i].peerId == p;
    m := sent[i];
  }

  lemma {:induction false} MessageSays(env: Env, front: seq<Event>, x: Input, e: EndpointInfo, m: NodeMetaInfo)
    requires env.Sound() && x.report.ReachableReport? && e in x.report.peer.addresses
    requires Marci.Announces(env, RunStore(env, front + [Reported(x)]), x.at, m) && m.peerId == x.report.Subject()
    ensures m.network == x.report.peer.network && e in m.addresses
  {
    var es := front + [Reported(x)];
    WitnessedNow(env, front, x);
    BroadcastContent(env, es, x.at, m);
    assert es[..|front|] == front;
    assert Own(es, m.peerId) == Own(front, m.peerId) + [x];
    LatestIsThis(Own(front, m.peerId), x, e);
  }

  lemma {:induction false} LatestIsThis(h: seq<Input>, x: Input, e: EndpointInfo)
    requires x.report.ReachableReport? && e in x.report.peer.addresses
    ensures Facts.LatestNetwork(h + [x]) == Some(x.report.peer.network) && Facts.Named(h + [x], e)
  {
    Facts.NamedSnoc(h, x, e);
  }

  lemma {:induction false} WitnessedNow(env: Env, front: seq<Event>, x: Input)
    requires x.report.ReachableReport?
    ensures Live(Find(RunStore(env, front + [Reported(x)]), Format(Reachable, x.report.Subject())), x.at).Some?
  {
    var p, es := x.report.Subject(), front + [Reported(x)];
    assert es[..|front|] == front;
    assert Own(es, p) == Own(front, p) + [x];
    Locality(env, es, p);
    ViewFind(RunStore(env, es), p, Reachable);
    ReachableKey(env, Own(front, p), x);
    AddedIsLive(Find(Run(env, Own(front, p)), Reachable), x.at, x.report.from.peerId);
  }

  lemma {:induction false} Dialled(env: Env, lib: Library, s: System, m: NodeMetaInfo, e: EndpointInfo, id: seq<Byte>)
      returns (t: System)
    requires lib.Sound() && m in s.requests && m.network != Dev && e in m.addresses && !e.address.IsLoopback()
    requires m.peerId == Base58.Encode(id) && lib.isPeerId(id)
    ensures ClosedSystem.Step(env, lib, s, t)
    ensures Dial(m.network, m.peerId, [Component.Ip(e.address), Tcp(e.port), P2P(id)]) in t.dialled
  {
    EndpointIsDialled(lib, m, e, id);
    t := s.(dialled := s.dialled + DialsOf(lib, m));
    assert Dial(m.network, m.peerId, [Component.Ip(e.address), Tcp(e.port), P2P(id)]) in DialsOf(lib, m);
  }

  lemma {:induction false} OneMoreStep(env: Env, lib: Library, run: seq<System>, t: System) returns (more: seq<System>)
    requires IsRun(env, lib, run) && ClosedSystem.Step(env, lib, run[|run| - 1], t)
    ensures more == run + [t] && IsRun(env, lib, more) && more[|more| - 1] == t
  {
    more := run + [t];
    forall i | 0 <= i < |more| - 1
      ensures ClosedSystem.Step(env, lib, more[i], more[i + 1])
    {
      assert more[i] == run[i] && (i < |run| - 1 ==> more[i + 1] == run[i + 1]);
    }
  }

  lemma {:induction false} TwoMoreSteps(env: Env, lib: Library, run: seq<System>, t: System, u: System)
      returns (more: seq<System>)
    requires IsRun(env, lib, run) && ClosedSystem.Step(env, lib, run[|run| - 1], t) && ClosedSystem.Step(env, lib, t, u)
    ensures more == run + [t] + [u] && more[|more| - 1] == u && IsRun(env, lib, more)
  {
    more := OneMoreStep(env, lib, run, t);
    more := OneMoreStep(env, lib, more, u);
  }

  /** A node one of the dialers can hear of, whose name is a peer id, and an endpoint it reports of it. */
  predicate Dialable(lib: Library, d: Discovery, e: EndpointInfo) {
    && d.node != [] && d.network != Dev && lib.isPeerId(LastId(d.node[0]))
    && e in Endpoints(d.node) && !e.address.IsLoopback()
  }

  lemma {:induction false} LearnedAndDelivered(env: Env, lib: Library, run: seq<System>, d: Discovery, at: nat)
      returns (more: seq<System>)
    requires IsRun(env, lib, run) && d.node != [] && d.network != Dev
    ensures run <= more && |more| == |run| + 2 && IsRun(env, lib, more)
    ensures more[|run| + 1].events == run[|run| - 1].events
              + [Reported(Input(at, NodeReport(d.node, d.network, NodeMetaOf(d.session, d.network)), None))]
  {
    var t := Learned(env, lib, run[|run| - 1], d);
    var u := Delivered(env, lib, t, NodeReport(d.node, d.network, NodeMetaOf(d.session, d.network)), at);
    more := TwoMoreSteps(env, lib, run, t, u);
  }

  lemma {:induction false} RequestedAndDialled(env: Env, lib: Library, run: seq<System>, front: seq<Event>, x: Input,
                                               e: EndpointInfo, id: seq<Byte>) returns (more: seq<System>)
    requires env.Sound() && lib.Sound() && IsRun(env, lib, run) && run[|run| - 1].events == front + [Reported(x)]
    requires x.report.ReachableReport? && x.report.peer.network != Dev && e in x.report.peer.addresses
    requires !e.address.IsLoopback() && x.report.Subject() == Base58.Encode(id) && lib.isPeerId(id)
    ensures run <= more && |more| == |run| + 2 && IsRun(env, lib, more)
    ensures Dial(x.report.peer.network, x.report.Subject(), [Component.Ip(e.address), Tcp(e.port), P2P(id)])
            in more[|run| + 1].dialled
  {
    var t, m := Requested(env, lib, run[|run| - 1], front, x, e);
    var u := Dialled(env, lib, t, m, e, id);
    more := TwoMoreSteps(env, lib, run, t, u);
  }

  /** Whatever happened before, four more steps take a newly discovered endpoint to the dialler: it is
      dialled on the network it was learned on, under the id that names its node. */
  lemma {:induction false} DiscoveryComesThrough(env: Env, lib: Library, run: seq<System>, d: Discovery,
                                                 e: EndpointInfo, at: nat) returns (more: seq<System>)
    requires env.Sound() && lib.Sound() && IsRun(env, lib, run) && Dialable(lib, d, e)
    ensures run <= more && |more| == |run| + 4 && IsRun(env, lib, more)
    ensures Dial(d.network, Base58.Encode(LastId(d.node[0])),
                 [Component.Ip(e.address), Tcp(e.port), P2P(LastId(d.node[0]))]) in more[|run| + 3].dialled
  {
    var r := NodeReport(d.node, d.network, NodeMetaOf(d.session, d.network));
    NonLoopbackKeeps(Endpoints(d.node), e);
    more := LearnedAndDelivered(env, lib, run, d, at);
    more := RequestedAndDialled(env, lib, more, run[|run| - 1].events, Input(at, r, None), e, LastId(d.node[0]));
  }

  /** And two more take any other report under a printable id to marci, at any time and with any answer. */
  lemma {:induction false} ReportComesThrough(env: Env, lib: Library, run: seq<System>, r: Report, id: seq<Byte>,
                                              at: nat, ip: Option<IpDetails>) returns (more: seq<System>)
    requires IsRun(env, lib, run) && !r.ReachableReport? && r.Subject() == Base58.Encode(id)
    ensures run <= more && |more| == |run| + 2 && IsRun(env, lib, more)
    ensures more[|run| + 1].events == run[|run| - 1].events + [Reported(Input(at, r, ip))]
  {
    var s := run[|run| - 1];
    var t := s.(reports := s.reports + {r});
    var u := t.(events := t.events + [Reported(Input(at, r, ip))]);
    assert OtherReport(s, t) && r in t.reports;
    assert Delivers(t, u);
    more := TwoMoreSteps(env, lib, run, t, u);
  }
}
