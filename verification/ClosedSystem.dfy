/** The three processes together: dialers for Mirana and Pudge, marci, and the messages between them.
    Messages are delivered at least once, in any order and any number of times. */
module ClosedSystem {
  import opened Wrappers
  import opened Redis
  import opened Keys
  import opened Types
  import opened Arms
  import opened Store
  import opened Multiaddr
  import opened Dialer
  import Base58
  import Witnesses
  import Facts
  import Marci
  import Exposed
  import Induction

  /** A node some dialer learned of, and the network it was learned on. */
  datatype Discovery = Discovery(node: Node, network: Network, session: Address)

  /** Everything said so far stays sayable again: `reports` and `requests` are what was ever published. */
  datatype System = System(
    discovered: set<Discovery>, reports: set<Report>,
    events: seq<Event>,
    requests: set<NodeMetaInfo>, dialled: set<Dial>, panicked: bool)

  const INITIAL := System({}, {}, [], {}, {}, false)

  /** A dialer for one of the two networks hears of a node and reports it. */
  ghost predicate Discovers(s: System, t: System) {
    exists d: Discovery ::
      && d.node != [] && d.network != Dev
      && t == s.(discovered := s.discovered + {d},
                 reports := s.reports + {NodeReport(d.node, d.network, NodeMetaOf(d.session, d.network))})
  }

  /** A dialer identifies a peer, or fails to reach one, and reports that under an id it can print. */
  ghost predicate OtherReport(s: System, t: System) {
    exists r: Report, id ::
      && !r.ReachableReport? && r.Subject() == Base58.Encode(id)
      && t == s.(reports := s.reports + {r})
  }

  /** marci takes up any report ever published, whatever its lookup answers. */
  ghost predicate Delivers(s: System, t: System) {
    exists r, at, ip ::
      r in s.reports && t == s.(events := s.events + [Reported(Input(at, r, ip))])
  }

  ghost predicate Sent(env: Env, db: Db, at: nat, sent: seq<NodeMetaInfo>) {
    && (forall i | 0 <= i < |sent| :: Marci.Announces(env, db, at, sent[i]))
    && (DotFreeKeys(db) ==> Marci.OneEach(db, at, sent))
  }

  /** marci's timer fires: what `Marci.Broadcast` promises of the messages it sends. */
  ghost predicate Broadcasts(env: Env, s: System, t: System) {
    exists at: nat, sent: seq<NodeMetaInfo> ::
      && Sent(env, RunStore(env, s.events), at, sent)
      && t == s.(events := s.events + [Ticked(at)], requests := s.requests + (set m | m in sent))
  }

  function DialsOf(lib: Library, m: NodeMetaInfo): set<Dial> {
    set a | a in ParsedOnly(MetaInfoToAddr(lib, m)) :: Dial(m.network, m.peerId, a)
  }

  /** A dialer takes up any request ever sent: what `Dialer.DialNode` promises. */
  ghost predicate Dials(lib: Library, s: System, t: System) {
    exists m | m in s.requests ::
      if m.network == Dev && ParsedOnly(MetaInfoToAddr(lib, m)) != [] then t == s.(panicked := true)
      else t == s.(dialled := s.dialled + DialsOf(lib, m))
  }

  ghost predicate Step(env: Env, lib: Library, s: System, t: System) {
    Discovers(s, t) || OtherReport(s, t) || Delivers(s, t) || Broadcasts(env, s, t) || Dials(lib, s, t)
  }

  ghost predicate IsRun(env: Env, lib: Library, run: seq<System>) {
    && run != [] && run[0] == INITIAL
    && forall i | 0 <= i < |run| - 1 :: Step(env, lib, run[i], run[i + 1])
  }

  // ---------- the invariant across the processes ----------

  /** Endpoint `e` of peer `p` comes from a discovered node whose first address names `p`. */
  ghost predicate Discovered(s: System, p: string, e: EndpointInfo) {
    && !e.address.IsLoopback()
    && exists d | d in s.discovered ::
         d.node != [] && p == Base58.Encode(LastId(d.node[0])) && e in Endpoints(d.node)
  }

  /** A node whose first address names `p` was learned of on network `n`. */
  ghost predicate LearnedOn(s: System, p: string, n: Network) {
    n != Dev && exists d | d in s.discovered ::
      d.node != [] && p == Base58.Encode(LastId(d.node[0])) && d.network == n
  }

  /** A node whose first address names `p` was told of by the peer `q` of the session it came in. */
  ghost predicate VouchedBy(s: System, p: string, q: string) {
    exists d | d in s.discovered ::
      d.node != [] && p == Base58.Encode(LastId(d.node[0])) && q == Base58.Encode(LastId(d.session))
  }

  ghost predicate ReportRight(s: System, r: Report) {
    && (exists id :: r.Subject() == Base58.Encode(id))
    && (r.ReachableReport? ==>
          && LearnedOn(s, r.peer.peerId, r.peer.network)
          && VouchedBy(s, r.peer.peerId, r.from.peerId)
          && forall e | e in r.peer.addresses :: Discovered(s, r.peer.peerId, e))
  }

  ghost predicate RequestRight(s: System, m: NodeMetaInfo) {
    && LearnedOn(s, m.peerId, m.network)
    && (exists id :: m.peerId == Base58.Encode(id))
    && forall e | e in m.addresses :: Discovered(s, m.peerId, e)
  }

  /** A dial goes to one printed endpoint of its peer, on a network its peer was learned of on. */
  ghost predicate DialRight(s: System, d: Dial) {
    && LearnedOn(s, d.peerId, d.network)
    && exists e, id ::
         && Discovered(s, d.peerId, e) && d.peerId == Base58.Encode(id)
         && d.address == [Component.Ip(e.address), Tcp(e.port), P2P(id)]
  }

  ghost predicate Inv(s: System) {
    && (forall r | r in s.reports :: ReportRight(s, r))
    && (forall i | 0 <= i < |s.events| && s.events[i].Reported? :: s.events[i].input.report in s.reports)
    && (forall m | m in s.requests :: RequestRight(s, m))
    && (forall d | d in s.dialled :: DialRight(s, d))
    && !s.panicked
  }

  lemma {:induction false} MoreIsKnown(s: System, t: System)
    requires s.discovered <= t.discovered
    ensures forall p, e | Discovered(s, p, e) :: Discovered(t, p, e)
    ensures forall p, n | LearnedOn(s, p, n) :: LearnedOn(t, p, n)
    ensures forall p, q | VouchedBy(s, p, q) :: VouchedBy(t, p, q)
    ensures forall r | ReportRight(s, r) :: ReportRight(t, r)
    ensures forall m | RequestRight(s, m) :: RequestRight(t, m)
    ensures forall d | DialRight(s, d) :: DialRight(t, d)
  {
    forall p, e | Discovered(s, p, e)
      ensures Discovered(t, p, e)
    {
      var d :| d in s.discovered && d.node != [] && p == Base58.Encode(LastId(d.node[0])) && e in Endpoints(d.node);
      assert d in t.discovered;
    }
    forall p, n | LearnedOn(s, p, n)
      ensures LearnedOn(t, p, n)
    {
      var d :| d in s.discovered && d.node != [] && p == Base58.Encode(LastId(d.node[0])) && d.network == n;
      assert d in t.discovered;
    }
    forall p, q | VouchedBy(s, p, q)
      ensures VouchedBy(t, p, q)
    {
      var d :| d in s.discovered
        && d.node != [] && p == Base58.Encode(LastId(d.node[0])) && q == Base58.Encode(LastId(d.session));
      assert d in t.discovered;
    }
    forall d | DialRight(s, d)
      ensures DialRight(t, d)
    {
      var e, id :| Discovered(s, d.peerId, e) && d.peerId == Base58.Encode(id)
        && d.address == [Component.Ip(e.address), Tcp(e.port), P2P(id)];
      assert Discovered(t, d.peerId, e);
    }
  }

  lemma {:induction false} NodeReportRight(t: System, d: Discovery)
    requires d in t.discovered && d.node != [] && d.network != Dev
    ensures ReportRight(t, NodeReport(d.node, d.network, NodeMetaOf(d.session, d.network)))
  {
    var r := NodeReport(d.node, d.network, NodeMetaOf(d.session, d.network));
    assert r.Subject() == Base58.Encode(LastId(d.node[0]));
    forall e | e in r.peer.addresses
      ensures Discovered(t, r.peer.peerId, e)
    {
      NonLoopbackKeeps(Endpoints(d.node), e);
    }
  }

  lemma {:induction false} NewReportKeeps(s: System, t: System, r: Report)
    requires Inv(s) && s.discovered <= t.discovered && ReportRight(t, r)
    requires t == s.(discovered := t.discovered, reports := s.reports + {r})
    ensures Inv(t)
  {
    MoreIsKnown(s, t);
    forall x | x in t.reports
      ensures ReportRight(t, x)
    {
      assert x == r || x in s.reports;
    }
  }

  lemma {:induction false} DiscoversKeeps(s: System, t: System)
    requires Inv(s) && Discovers(s, t)
    ensures Inv(t)
  {
    var d: Discovery :| d.node != [] && d.network != Dev
      && t == s.(discovered := s.discovered + {d},
                 reports := s.reports + {NodeReport(d.node, d.network, NodeMetaOf(d.session, d.network))});
    assert d in t.discovered;
    NodeReportRight(t, d);
    NewReportKeeps(s, t, NodeReport(d.node, d.network, NodeMetaOf(d.session, d.network)));
  }

  lemma {:induction false} OtherReportKeeps(s: System, t: System)
    requires Inv(s) && OtherReport(s, t)
    ensures Inv(t)
  {
    MoreIsKnown(s, t);
  }

  lemma {:induction false} DeliversKeeps(s: System, t: System)
    requires Inv(s) && Delivers(s, t)
    ensures Inv(t)
  {
    MoreIsKnown(s, t);
  }

  // ---------- what a broadcast says ----------

  lemma {:induction false} OwnMember(es: seq<Event>, p: string, i: nat) returns (k: nat)
    requires i < |Own(es, p)|
    ensures k < |es| && es[k].About(p) && es[k].input == Own(es, p)[i]
  {
    var front, last := es[..|es| - 1], es[|es| - 1];
    if i < |Own(front, p)| {
      k := OwnMember(front, p, i);
    } else {
      k := |front|;
    }
  }

  lemma {:induction false} LatestIsReported(h: seq<Input>) returns (i: nat)
    requires Facts.LatestNetwork(h).Some?
    ensures i < |h| && h[i].report.ReachableReport? && Facts.LatestNetwork(h) == Some(h[i].report.peer.network)
    ensures forall k | i < k < |h| :: !h[k].report.ReachableReport?
  {
    if h[|h| - 1].report.ReachableReport? {
      i := |h| - 1;
    } else {
      i := LatestIsReported(h[..|h| - 1]);
    }
  }

  /** A broadcast message carries the network of the peer's latest reachable report, and exactly the
      endpoints its reachable reports gave, each once. */
  lemma {:induction false} BroadcastContent(env: Env, es: seq<Event>, at: nat, m: NodeMetaInfo)
    requires env.Sound()
    requires Marci.Announces(env, RunStore(env, es), at, m)
    requires Live(Find(RunStore(env, es), Format(Reachable, m.peerId)), at).Some?
    ensures Facts.LatestNetwork(Own(es, m.peerId)) == Some(m.network)
    ensures forall e :: e in m.addresses <==> Facts.Named(Own(es, m.peerId), e)
    ensures NoDuplicates(m.addresses)
  {
    var p, db := m.peerId, RunStore(env, es);
    var h := Own(es, p);
    Locality(env, es, p);
    ViewFind(db, p, Reachable);
    ViewFind(db, p, Stored);
    ViewFind(db, p, Family.Ip);
    Facts.WitnessedIsReported(env, h);
    Facts.StoredNetwork(env, h);
    NetworkRoundTrip(Facts.LatestNetwork(h).value);
    Facts.AddressSet(env, h);
    var known := Facts.KnownAddresses(env, h);
    assert SMembers(db, at, Format(Family.Ip, p)) == known;
    Marci.OnceRead(env, known, m.addresses);
    forall x | x in known
      ensures env.decode(x).Some? && env.encode(env.decode(x).value) == x
    {
      Facts.KnownAddressesAre(env, h, x);
    }
    Marci.NoneTwice(env, known, m.addresses);
    forall e
      ensures e in m.addresses <==> Facts.Named(h, e)
    {
      Facts.KnownAddressesAre(env, h, env.encode(e));
      if e in m.addresses {
        var x :| x in Facts.KnownAddresses(env, h) && env.decode(x) == Some(e);
        Facts.KnownAddressesAre(env, h, x);
      }
    }
  }

  /** Some reachable report under network `n` gave endpoint `e`. */
  ghost predicate NamedUnder(h: seq<Input>, e: EndpointInfo, n: Network) {
    exists i :: 0 <= i < |h| && h[i].report.ReachableReport?
                && h[i].report.peer.network == n && e in h[i].report.peer.addresses
  }

  /** The address set is not split by network, so a request stays within its own network exactly when
      every endpoint ever reported of the peer was also reported under the latest one. */
  lemma {:induction false} StaysWithinNetwork(env: Env, es: seq<Event>, at: nat, m: NodeMetaInfo)
    requires env.Sound()
    requires Marci.Announces(env, RunStore(env, es), at, m)
    requires Live(Find(RunStore(env, es), Format(Reachable, m.peerId)), at).Some?
    ensures var h := Own(es, m.peerId);
            (forall e | e in m.addresses :: NamedUnder(h, e, m.network)) <==>
            (forall e | Facts.Named(h, e) :: NamedUnder(h, e, Facts.LatestNetwork(h).GetOr(Mirana)))
  {
    BroadcastContent(env, es, at, m);
  }

  /** One more reachable report, under another network than an endpoint was ever given under, sends that
      endpoint across: the next request has it for the wrong network. */
  lemma {:induction false} EndpointsCrossNetworks(env: Env, es: seq<Event>, y: Input, e: EndpointInfo, at: nat,
                                                  m: NodeMetaInfo)
    requires env.Sound() && y.report.ReachableReport? && y.report.Subject() == m.peerId
    requires Facts.Named(Own(es, m.peerId), e)
    requires !NamedUnder(Own(es, m.peerId) + [y], e, y.report.peer.network)
    requires Marci.Announces(env, RunStore(env, es + [Reported(y)]), at, m)
    requires Live(Find(RunStore(env, es + [Reported(y)]), Format(Reachable, m.peerId)), at).Some?
    ensures m.network == y.report.peer.network && e in m.addresses
    ensures !NamedUnder(Own(es + [Reported(y)], m.peerId), e, m.network)
  {
    var h := Own(es, m.peerId);
    assert (es + [Reported(y)])[..|es|] == es;
    assert Own(es + [Reported(y)], m.peerId) == h + [y];
    BroadcastContent(env, es + [Reported(y)], at, m);
    Facts.NamedSnoc(h, y, e);
  }

  /** Such a history: the endpoint reported on Mirana, then another one of the same peer on Pudge. */
  lemma {:induction false} CrossingHistory(x: Input, y: Input, e: EndpointInfo, f: EndpointInfo)
    requires e != f && x.report.ReachableReport? && y.report.ReachableReport?
    requires x.report.peer == NodeMetaInfo(y.report.Subject(), [e], Mirana)
    requires y.report.peer == NodeMetaInfo(y.report.Subject(), [f], Pudge)
    ensures var p := y.report.Subject();
            && Own([Reported(x)], p) == [x] && Facts.Named([x], e)
            && !NamedUnder([x] + [y], e, y.report.peer.network)
  {
    assert [Reported(x)][..0] == [];
    assert Own([Reported(x)], y.report.Subject()) == [x];
    assert [x][0] == x && e in x.report.peer.addresses;
  }

  /** And the store it leaves does announce the peer: the crossing happens. */
  lemma {:induction false} CrossingHappens(env: Env, x: Input, y: Input, e: EndpointInfo, f: EndpointInfo,
                                           m: NodeMetaInfo)
    requires env.Sound() && e != f && x.report.ReachableReport? && y.report.ReachableReport? && x.at <= y.at
    requires x.report.peer == NodeMetaInfo(m.peerId, [e], Mirana)
    requires y.report.peer == NodeMetaInfo(m.peerId, [f], Pudge)
    ensures var db := RunStore(env, [Reported(x)] + [Reported(y)]);
            && Live(Find(db, Format(Reachable, m.peerId)), y.at).Some?
            && (Marci.Announces(env, db, y.at, m) ==> m.network == Pudge && e in m.addresses)
  {
    CrossingHistory(x, y, e, f);
    TwoWitnessed(env, x, y);
    if Marci.Announces(env, RunStore(env, [Reported(x)] + [Reported(y)]), y.at, m) {
      EndpointsCrossNetworks(env, [Reported(x)], y, e, y.at, m);
    }
  }

  lemma {:induction false} TwoWitnessed(env: Env, x: Input, y: Input)
    requires y.report.ReachableReport?
    ensures Live(Find(RunStore(env, [Reported(x)] + [Reported(y)]), Format(Reachable, y.report.Subject())), y.at).Some?
  {
    var p, es := y.report.Subject(), [Reported(x)] + [Reported(y)];
    assert es[..1] == [Reported(x)];
    assert Own(es, p) == Own([Reported(x)], p) + [y];
    Locality(env, es, p);
    ViewFind(RunStore(env, es), p, Reachable);
    ReachableKey(env, Own([Reported(x)], p), y);
    AddedIsLive(Find(Run(env, Own([Reported(x)], p)), Reachable), y.at, y.report.from.peerId);
  }

  lemma {:induction false} AddedIsLive(e: Option<Entry>, now: nat, member: string)
    ensures Live(Apply(e, now, SAdd(member)), now).Some?
  {}

  lemma {:induction false} OwnReportRight(s: System, p: string, i: nat)
    requires Inv(s) && i < |Own(s.events, p)|
    ensures ReportRight(s, Own(s.events, p)[i].report) && Own(s.events, p)[i].report.Subject() == p
  {
    var k := OwnMember(s.events, p, i);
    assert s.events[k].input.report in s.reports;
  }

  lemma {:induction false} NamedIsDiscovered(s: System, p: string, e: EndpointInfo)
    requires Inv(s) && Facts.Named(Own(s.events, p), e)
    ensures Discovered(s, p, e)
  {
    var h := Own(s.events, p);
    var i :| 0 <= i < |h| && Witnesses.IsReachable(h[i]) && e in h[i].report.peer.addresses;
    OwnReportRight(s, p, i);
  }

  lemma {:induction false} LatestIsLearned(s: System, p: string)
    requires Inv(s) && Facts.LatestNetwork(Own(s.events, p)).Some?
    ensures LearnedOn(s, p, Facts.LatestNetwork(Own(s.events, p)).value)
    ensures exists id :: p == Base58.Encode(id)
  {
    var i := LatestIsReported(Own(s.events, p));
    OwnReportRight(s, p, i);
  }

  lemma {:induction false} RequestComesRight(env: Env, s: System, at: nat, m: NodeMetaInfo)
    requires env.Sound() && Inv(s)
    requires Marci.Announces(env, RunStore(env, s.events), at, m)
    requires Live(Find(RunStore(env, s.events), Format(Reachable, m.peerId)), at).Some?
    ensures RequestRight(s, m)
  {
    BroadcastContent(env, s.events, at, m);
    LatestIsLearned(s, m.peerId);
    forall e | e in m.addresses
      ensures Discovered(s, m.peerId, e)
    {
      NamedIsDiscovered(s, m.peerId, e);
    }
  }

  lemma {:induction false} BroadcastsKeeps(env: Env, s: System, t: System)
    requires env.Sound() && Inv(s) && Broadcasts(env, s, t)
    ensures Inv(t)
  {
    var at: nat, sent: seq<NodeMetaInfo> :|
      && Sent(env, RunStore(env, s.events), at, sent)
      && t == s.(events := s.events + [Ticked(at)], requests := s.requests + (set m | m in sent));
    StoreIsReadable(env, s);
    forall i | 0 <= i < |sent|
      ensures RequestRight(s, sent[i])
    {
      RequestComesRight(env, s, at, sent[i]);
    }
    SentKeeps(s, at, sent, t);
  }

  /** Printed ids have no dot, so listings of the store decode. */
  lemma {:induction false} StoreIsReadable(env: Env, s: System)
    requires Inv(s)
    ensures DotFreeKeys(RunStore(env, s.events))
  {
    forall i | 0 <= i < |s.events| && s.events[i].Reported?
      ensures DotFree(s.events[i].input.report.Subject())
    {
      var r := s.events[i].input.report;
      assert ReportRight(s, r);
      var id :| r.Subject() == Base58.Encode(id);
    }
    Exposed.RunsAreReadable(env, s.events);
  }

  lemma {:induction false} SentKeeps(s: System, at: nat, sent: seq<NodeMetaInfo>, t: System)
    requires Inv(s) && forall i | 0 <= i < |sent| :: RequestRight(s, sent[i])
    requires t == s.(events := s.events + [Ticked(at)], requests := s.requests + (set m | m in sent))
    ensures Inv(t)
  {
    MoreIsKnown(s, t);
    forall m | m in t.requests
      ensures RequestRight(s, m)
    {
      assert m in s.requests || m in sent;
    }
  }

  // ---------- what a request makes a dialer dial ----------

  lemma {:induction false} ParsedFrom(lib: Library, p: string, es: seq<EndpointInfo>, a: Address)
    requires a in ParsedOnly(AddressesOf(lib, p, es))
    ensures exists e :: e in es && Parse(lib, Print(lib, e, p)) == Some(a)
    decreases |es|
  {
    if es != [] {
      var rest := AddressesOf(lib, p, es[1..]);
      var all := AddressesOf(lib, p, es);
      assert es == [es[0]] + es[1..];
      if !es[0].address.IsLoopback() {
        assert all[1..] == rest;
      }
      if a in ParsedOnly(rest) {
        ParsedFrom(lib, p, es[1..], a);
        var e :| e in es[1..] && Parse(lib, Print(lib, e, p)) == Some(a);
        assert e in es;
      } else {
        assert es[0] in es && Parse(lib, Print(lib, es[0], p)) == Some(a);
      }
    }
  }

  lemma {:induction false} DialsKeeps(lib: Library, s: System, t: System)
    requires lib.Sound() && Inv(s) && Dials(lib, s, t)
    ensures Inv(t)
  {
    MoreIsKnown(s, t);
    var m :| m in s.requests &&
      if m.network == Dev && ParsedOnly(MetaInfoToAddr(lib, m)) != [] then t == s.(panicked := true)
      else t == s.(dialled := s.dialled + DialsOf(lib, m));
    assert RequestRight(s, m);
    forall d | d in DialsOf(lib, m)
      ensures DialRight(s, d)
    {
      ParsedFrom(lib, m.peerId, m.addresses, d.address);
      var e :| e in m.addresses && Parse(lib, Print(lib, e, m.peerId)) == Some(d.address);
      var id :| m.peerId == Base58.Encode(id);
      ParsePrint(lib, e, id);
      assert Discovered(s, d.peerId, e);
    }
  }

  // ---------- over every run ----------

  lemma {:induction false} RunKeepsInv(env: Env, lib: Library, run: seq<System>)
    requires env.Sound() && lib.Sound() && IsRun(env, lib, run)
    ensures Inv(run[|run| - 1])
  {
    forall k: nat | k < |run| - 1 && InvAt(run, k)
      ensures InvAt(run, k + 1)
    {
      StepKeepsInv(env, lib, run[k], run[k + 1]);
    }
    Induction.Carries((k: nat) => InvAt(run, k), 0, |run| - 1);
  }

  ghost predicate InvAt(run: seq<System>, n: nat) {
    n < |run| && Inv(run[n])
  }

  lemma {:induction false} StepKeepsInv(env: Env, lib: Library, s: System, t: System)
    requires env.Sound() && lib.Sound() && Inv(s) && Step(env, lib, s, t)
    ensures Inv(t)
  {
    if Discovers(s, t) {
      DiscoversKeeps(s, t);
    } else if OtherReport(s, t) {
      OtherReportKeeps(s, t);
    } else if Delivers(s, t) {
      DeliversKeeps(s, t);
    } else if Broadcasts(env, s, t) {
      BroadcastsKeeps(env, s, t);
    } else {
      DialsKeeps(lib, s, t);
    }
  }

  /** End to end: whatever is dialled for a peer is the printed form of a non-loopback endpoint some
      discovered node gave, a node whose first address names that very peer; and the network it is
      dialled on is one on which such a node was learned of, not necessarily the same one. */
  lemma {:induction false} DialSoundness(env: Env, lib: Library, run: seq<System>, d: Dial)
    requires env.Sound() && lib.Sound() && IsRun(env, lib, run)
    requires d in run[|run| - 1].dialled
    ensures DialRight(run[|run| - 1], d)
  {
    RunKeepsInv(env, lib, run);
  }

  /** And nothing is left out: a dialer that takes up a request dials every endpoint in it, when the
      request names a real peer. */
  lemma {:induction false} DialCompleteness(env: Env, lib: Library, run: seq<System>, m: NodeMetaInfo, e: EndpointInfo,
                                            id: seq<Byte>)
    requires env.Sound() && lib.Sound() && IsRun(env, lib, run)
    requires m in run[|run| - 1].requests && e in m.addresses
    requires m.peerId == Base58.Encode(id) && lib.isPeerId(id)
    ensures Dial(m.network, m.peerId, [Component.Ip(e.address), Tcp(e.port), P2P(id)]) in DialsOf(lib, m)
    ensures exists t :: Dials(lib, run[|run| - 1], t)
                        && Dial(m.network, m.peerId, [Component.Ip(e.address), Tcp(e.port), P2P(id)]) in t.dialled
  {
    var s := run[|run| - 1];
    RunKeepsInv(env, lib, run);
    assert RequestRight(s, m) && Discovered(s, m.peerId, e);
    EndpointIsDialled(lib, m, e, id);
    var a := [Component.Ip(e.address), Tcp(e.port), P2P(id)];
    assert Dial(m.network, m.peerId, a) in DialsOf(lib, m);
    var t := s.(dialled := s.dialled + DialsOf(lib, m));
    assert Dials(lib, s, t);
  }

  /** Every witness a peer has is the peer at the other end of a session in which a node naming that peer
      was told of. */
  lemma {:induction false} WitnessesAreSessions(env: Env, lib: Library, run: seq<System>, p: string, q: string)
    requires env.Sound() && lib.Sound() && IsRun(env, lib, run)
    requires q in Witnesses.Since(env, Own(run[|run| - 1].events, p))
    ensures VouchedBy(run[|run| - 1], p, q)
  {
    var s := run[|run| - 1];
    var h := Own(s.events, p);
    RunKeepsInv(env, lib, run);
    Witnesses.SinceMember(env, h, q);
    var k: nat :| k < |h| && Witnesses.Counts(env, h, k) && h[k].report.from.peerId == q;
    var n := OwnMember(s.events, p, k);
    assert ReportRight(s, s.events[n].input.report);
  }

  lemma {:induction false} NothingDropped(lib: Library, p: string, es: seq<EndpointInfo>)
    requires forall e | e in es :: !e.address.IsLoopback()
    ensures |AddressesOf(lib, p, es)| == |es|
    decreases |es|
  {
    if es != [] {
      assert es == [es[0]] + es[1..];
      NothingDropped(lib, p, es[1..]);
    }
  }

  /** The loopback test at the dialling end never drops an endpoint: they were dropped before. */
  lemma {:induction false} LoopbackTestIdle(env: Env, lib: Library, run: seq<System>, m: NodeMetaInfo)
    requires env.Sound() && lib.Sound() && IsRun(env, lib, run)
    requires m in run[|run| - 1].requests
    ensures |MetaInfoToAddr(lib, m)| == |m.addresses|
  {
    RunKeepsInv(env, lib, run);
    assert RequestRight(run[|run| - 1], m);
    NothingDropped(lib, m.peerId, m.addresses);
  }

  /** With dialers for Mirana and Pudge alone, every request is for one of the two, so the branch the
      dialer calls unreachable is never reached. */
  lemma {:induction false} NetworkClosure(env: Env, lib: Library, run: seq<System>)
    requires env.Sound() && lib.Sound() && IsRun(env, lib, run)
    ensures !run[|run| - 1].panicked
    ensures forall m | m in run[|run| - 1].requests :: m.network == Mirana || m.network == Pudge
  {
    RunKeepsInv(env, lib, run);
    forall m | m in run[|run| - 1].requests
      ensures m.network != Dev
    {
      assert RequestRight(run[|run| - 1], m);
    }
  }

  /** With no dialer for Dev, and a clock that does not run back, every live unknown peer is listed in
      one of the two tables. */
  lemma {:induction false} EveryUnknownIsListed(env: Env, lib: Library, run: seq<System>, t: nat, p: string,
                                                read: Exposed.FloatReader,
                                                mirana: seq<Exposed.Row>, inMirana: seq<string>,
                                                pudge: seq<Exposed.Row>, inPudge: seq<string>)
    requires env.Sound() && lib.Sound() && IsRun(env, lib, run) && InOrder(run[|run| - 1].events, t)
    requires var db := RunStore(env, run[|run| - 1].events);
             && Live(Find(db, Format(Unknown, p)), t).Some?
             && Exposed.IsTable(read, db, t, Mirana, mirana, inMirana)
             && Exposed.IsTable(read, db, t, Pudge, pudge, inPudge)
    ensures p in inMirana || p in inPudge
  {
    var s := run[|run| - 1];
    RunKeepsInv(env, lib, run);
    UnknownKeyMeaning(env, s.events, t, p);
    Facts.VouchedFor(env, Own(s.events, p));
    var n :| Facts.ReportedUnder(Own(s.events, p), n);
    NeverUnderDev(s, p);
    Exposed.UnknownIsListed(read, env, s.events, t, p, mirana, inMirana, pudge, inPudge);
  }

  lemma {:induction false} NeverUnderDev(s: System, p: string)
    requires Inv(s)
    ensures !Facts.ReportedUnder(Own(s.events, p), Dev)
  {
    var h := Own(s.events, p);
    forall i | 0 <= i < |h| && h[i].report.ReachableReport?
      ensures h[i].report.peer.network != Dev
    {
      var k := OwnMember(s.events, p, i);
      assert ReportRight(s, s.events[k].input.report);
    }
  }

  /** Every network value marci stores in such a run is one of the two, that of the peer's latest
      reachable report. */
  lemma {:induction false} StoredNetworks(env: Env, lib: Library, run: seq<System>, p: string)
    requires env.Sound() && lib.Sound() && IsRun(env, lib, run)
    ensures var es := run[|run| - 1].events;
            match Find(RunStore(env, es), Format(Stored, p))
            case None => Facts.LatestNetwork(Own(es, p)) == None
            case Some(e) => exists n :: n != Dev && Facts.LatestNetwork(Own(es, p)) == Some(n)
                                        && e == Entry(Text(n.IntoStr()), None)
  {
    var s := run[|run| - 1];
    RunKeepsInv(env, lib, run);
    Locality(env, s.events, p);
    ViewFind(RunStore(env, s.events), p, Stored);
    Facts.StoredNetwork(env, Own(s.events, p));
    if Facts.LatestNetwork(Own(s.events, p)).Some? {
      var i := LatestIsReported(Own(s.events, p));
      var k := OwnMember(s.events, p, i);
      assert ReportRight(s, s.events[k].input.report);
    }
  }
}
