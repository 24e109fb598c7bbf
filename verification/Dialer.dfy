/** The dialers: what a discovery answer makes them report, and what a dial request makes them dial. */
module Dialer {
  import opened Wrappers
  import opened Types
  import opened Multiaddr
  import opened Arms
  import Base58

  /** A node of a discovery answer: the addresses it was told to be reachable at. */
  type Node = seq<Address>

  function Endpoints(addresses: seq<Address>): (es: seq<EndpointInfo>)
    ensures |es| == |addresses| && forall i | 0 <= i < |es| :: es[i] == EndpointOf(addresses[i])
  {
    seq(|addresses|, i requires 0 <= i < |addresses| => EndpointOf(addresses[i]))
  }

  function NonLoopback(es: seq<EndpointInfo>): seq<EndpointInfo> {
    if es == [] then []
    else
      var rest := NonLoopback(es[1..]);
      if es[0].address.IsLoopback() then rest else [es[0]] + rest
  }

  lemma {:induction false} NonLoopbackKeeps(es: seq<EndpointInfo>, e: EndpointInfo)
    ensures e in NonLoopback(es) <==> e in es && !e.address.IsLoopback()
    decreases |es|
  {
    if es != [] {
      NonLoopbackKeeps(es[1..], e);
      assert es == [es[0]] + es[1..];
    }
  }

  /** The filter, piece by piece: what is kept of two lists is what is kept of each, in order. */
  lemma {:induction false} NonLoopbackPieces(a: seq<EndpointInfo>, b: seq<EndpointInfo>, e: EndpointInfo)
    ensures NonLoopback([]) == []
    ensures NonLoopback([e]) == if (e.address.V4? && e.address.a == 127) || e.address == V6(1) then [] else [e]
    ensures NonLoopback(a + b) == NonLoopback(a) + NonLoopback(b)
    decreases |a|
  {
    assert [e][1..] == [];
    if a == [] {
      assert a + b == b;
    } else {
      assert (a + b)[1..] == a[1..] + b;
      NonLoopbackPieces(a[1..], b, e);
    }
  }

  /** What is reported of a node: named by its first address, reachable at all of its endpoints but
      the loopback ones. */
  function NodeReport(node: Node, network: Network, from: NodeMetaInfo): Report
    requires node != []
  {
    ReachableReport(NodeMetaInfo(Base58.Encode(LastId(node[0])), NonLoopback(Endpoints(node)), network), from)
  }

  datatype Dial = Dial(network: Network, peerId: string, address: Address)

  /** Dialling either goes through all the addresses that parse, or hits the branch the code calls
      unreachable. */
  datatype Dialled = Dialled(dials: seq<Dial>) | Panicked

  function ParsedOnly(addrs: seq<Option<Address>>): seq<Address> {
    if addrs == [] then []
    else (if addrs[0].Some? then [addrs[0].value] else []) + ParsedOnly(addrs[1..])
  }

  lemma {:induction false} ParsedOnlyPieces(a: seq<Option<Address>>, b: seq<Option<Address>>, x: Option<Address>)
    ensures ParsedOnly([]) == []
    ensures ParsedOnly([x]) == match x case Some(m) => [m] case None => []
    ensures ParsedOnly(a + b) == ParsedOnly(a) + ParsedOnly(b)
    decreases |a|
  {
    assert [x][1..] == [];
    if a == [] {
      assert a + b == b;
    } else {
      assert (a + b)[1..] == a[1..] + b;
      ParsedOnlyPieces(a[1..], b, x);
    }
  }

  /** Exactly the addresses that parsed. */
  lemma {:induction false} ParsedOnlyKeeps(addrs: seq<Option<Address>>, m: Address)
    ensures m in ParsedOnly(addrs) <==> Some(m) in addrs
    decreases |addrs|
  {
    if addrs != [] {
      ParsedOnlyKeeps(addrs[1..], m);
      assert addrs == [addrs[0]] + addrs[1..];
    }
  }

  /** One report for each node that has addresses, in the order of the nodes: named by the node's first
      address, on this dialer's network, and vouched for by the peer at the other end of the session. */
  ghost predicate OneReportEach(session: Address, network: Network, nodes: seq<Node>, sent: seq<Report>, at: seq<nat>) {
    && |at| == |sent| && PlacesOfNonEmpty(nodes, at)
    && forall i | 0 <= i < |at| :: IsReportOf(session, network, nodes[at[i]], sent[i])
  }

  ghost predicate ReportsEach(session: Address, network: Network, nodes: seq<Node>, sent: seq<Report>) {
    exists at :: OneReportEach(session, network, nodes, sent, at)
  }

  lemma {:induction false} OneMoreIsReport(session: Address, network: Network, nodes: seq<Node>, sent: seq<Report>,
                                           at: seq<nat>, node: Node, r: Report, i: nat)
    requires |at| == |sent| && i <= |at| && forall j | 0 <= j < |at| :: at[j] < |nodes|
    requires if i < |at| then IsReportOf(session, network, nodes[at[i]], sent[i])
             else IsReportOf(session, network, node, r)
    ensures IsReportOf(session, network, (nodes + [node])[(at + [|nodes|])[i]], (sent + [r])[i])
  {
    if i < |at| {
      assert (at + [|nodes|])[i] == at[i];
    }
  }

  /** The places of the nodes with addresses, in order. */
  ghost predicate PlacesOfNonEmpty(nodes: seq<Node>, at: seq<nat>) {
    && (forall i, j | 0 <= i < j < |at| :: at[i] < at[j])
    && (forall i | 0 <= i < |at| :: at[i] < |nodes|)
    && (forall k | 0 <= k < |nodes| :: nodes[k] != [] <==> k in at)
  }

  lemma {:induction false} OneMorePlace(nodes: seq<Node>, at: seq<nat>, node: Node)
    requires PlacesOfNonEmpty(nodes, at)
    ensures PlacesOfNonEmpty(nodes + [node], if node == [] then at else at + [|nodes|])
  {
    var more, places := nodes + [node], if node == [] then at else at + [|nodes|];
    forall k | 0 <= k < |more|
      ensures more[k] != [] <==> k in places
    {
      if k == |nodes| && node != [] {
        assert places[|at|] == k;
      }
      if k < |nodes| && k in at {
        var i :| 0 <= i < |at| && at[i] == k;
        assert places[i] == k;
      }
    }
  }

  predicate IsReportOf(session: Address, network: Network, node: Node, r: Report) {
    && node != [] && r.ReachableReport?
    && r.peer.peerId == Base58.Encode(LastId(node[0])) && r.peer.network == network
    && r.peer.addresses == NonLoopback(Endpoints(node))
    && r.from.peerId == Base58.Encode(LastId(session))
    && r == NodeReport(node, network, NodeMetaOf(session, network))
  }

  class Handler {
    const network: Network

    constructor (network: Network)
      ensures this.network == network
    {
      this.network := network;
    }

    /** A node's message: the first address names it, the others only add endpoints. */
    method Collect(node: Node) returns (meta: NodeMetaInfo)
      requires node != []
      ensures meta == NodeMetaInfo(Base58.Encode(LastId(node[0])), NonLoopback(Endpoints(node)), network)
    {
      meta := AddrToNodeMeta(node[0], network);
      var addresses := meta.addresses;
      for i := 1 to |node|
        invariant addresses == Endpoints(node[..i])
      {
        var endpoint := AddrToEndpoint(node[i]);
        addresses := addresses + [endpoint];
      }
      assert node[..|node|] == node;
      addresses := Retain(addresses);
      meta := NodeMetaInfo(meta.peerId, addresses, meta.network);
    }

    method Retain(es: seq<EndpointInfo>) returns (kept: seq<EndpointInfo>)
      ensures kept == NonLoopback(es)
    {
      kept := [];
      for i := 0 to |es|
        invariant kept + NonLoopback(es[i..]) == NonLoopback(es)
      {
        assert es[i..][1..] == es[i + 1..];
        if !es[i].address.IsLoopback() {
          kept := kept + [es[i]];
        }
      }
      assert es[|es|..] == [];
    }

    method ReceivedDiscovery(session: Address, nodes: seq<Node>) returns (sent: seq<Report>)
      ensures ReportsEach(session, network, nodes, sent)
    {
      var from := AddrToNodeMeta(session, network);
      sent := [];
      NothingYet(session, nodes);
      for i := 0 to |nodes|
        invariant ReportsEach(session, network, nodes[..i], sent)
      {
        if nodes[i] == [] {
          NoReportAt(session, nodes, i, sent);
          continue;
        }
        var meta := Collect(nodes[i]);
        var r := ReachableReport(meta, from);
        OneMoreReportAt(session, nodes, i, sent, r);
        sent := sent + [r];
      }
      assert nodes[..|nodes|] == nodes;
    }

    lemma {:induction false} NothingYet(session: Address, nodes: seq<Node>)
      ensures ReportsEach(session, network, nodes[..0], [])
    {
      assert OneReportEach(session, network, nodes[..0], [], []);
    }

    lemma {:induction false} NoReport(session: Address, nodes: seq<Node>, more: seq<Node>, sent: seq<Report>)
      requires more == nodes + [[]] && ReportsEach(session, network, nodes, sent)
      ensures ReportsEach(session, network, more, sent)
    {
      var at :| OneReportEach(session, network, nodes, sent, at);
      OneMorePlace(nodes, at, []);
      assert OneReportEach(session, network, more, sent, at);
    }

    lemma {:induction false} OneMoreReport(session: Address, nodes: seq<Node>, more: seq<Node>, sent: seq<Report>,
                                           node: Node, r: Report)
      requires more == nodes + [node]
      requires ReportsEach(session, network, nodes, sent) && IsReportOf(session, network, node, r)
      ensures ReportsEach(session, network, more, sent + [r])
    {
      var at :| OneReportEach(session, network, nodes, sent, at);
      OneMoreNode(session, nodes, sent, at, node, r);
    }

    lemma {:induction false} NoReportAt(session: Address, nodes: seq<Node>, n: nat, sent: seq<Report>)
      requires n < |nodes| && nodes[n] == [] && ReportsEach(session, network, nodes[..n], sent)
      ensures ReportsEach(session, network, nodes[..n + 1], sent)
    {
      NoReport(session, nodes[..n], nodes[..n + 1], sent);
    }

    lemma {:induction false} OneMoreReportAt(session: Address, nodes: seq<Node>, n: nat, sent: seq<Report>, r: Report)
      requires n < |nodes| && ReportsEach(session, network, nodes[..n], sent)
      requires IsReportOf(session, network, nodes[n], r)
      ensures ReportsEach(session, network, nodes[..n + 1], sent + [r])
    {
      TakeOneMore(nodes, n);
      OneMoreReport(session, nodes[..n], nodes[..n + 1], sent, nodes[n], r);
    }

    lemma {:induction false} TakeOneMore(nodes: seq<Node>, n: nat)
      requires n < |nodes|
      ensures nodes[..n + 1] == nodes[..n] + [nodes[n]]
    {}

    lemma {:induction false} OneMoreNode(session: Address, nodes: seq<Node>, sent: seq<Report>, at: seq<nat>,
                                         node: Node, r: Report)
      requires OneReportEach(session, network, nodes, sent, at) && IsReportOf(session, network, node, r)
      ensures OneReportEach(session, network, nodes + [node], sent + [r], at + [|nodes|])
    {
      OneMorePlace(nodes, at, node);
      var more, reports, places := nodes + [node], sent + [r], at + [|nodes|];
      forall i | 0 <= i < |places|
        ensures IsReportOf(session, network, more[places[i]], reports[i])
      {
        OneMoreIsReport(session, network, nodes, sent, at, node, r, i);
      }
    }

    /** A failed dial is reported under the network of this dialer. */
    method HandleDialError(address: Address) returns (sent: Report)
      ensures sent == UnknownReport(NodeMetaOf(address, network))
      ensures sent.unknown.peerId == Base58.Encode(LastId(address)) && sent.unknown.network == network
    {
      var meta := AddrToNodeMeta(address, network);
      sent := UnknownReport(meta);
    }
  }

  lemma {:induction false} AddressesHave(lib: Library, p: string, es: seq<EndpointInfo>, e: EndpointInfo)
    requires e in es && !e.address.IsLoopback()
    ensures Parse(lib, Print(lib, e, p)) in AddressesOf(lib, p, es)
    decreases |es|
  {
    assert es == [es[0]] + es[1..];
    if e != es[0] {
      AddressesHave(lib, p, es[1..], e);
    }
  }

  /** Every endpoint of a request but the loopback ones is dialled, when the request names a real peer. */
  lemma {:induction false} EndpointIsDialled(lib: Library, m: NodeMetaInfo, e: EndpointInfo, id: seq<Byte>)
    requires lib.Sound() && e in m.addresses && !e.address.IsLoopback()
    requires m.peerId == Base58.Encode(id) && lib.isPeerId(id)
    ensures [Component.Ip(e.address), Tcp(e.port), P2P(id)] in ParsedOnly(MetaInfoToAddr(lib, m))
  {
    AddressesHave(lib, m.peerId, m.addresses, e);
    ParsePrint(lib, e, id);
    ParsedOnlyKeeps(MetaInfoToAddr(lib, m), [Component.Ip(e.address), Tcp(e.port), P2P(id)]);
  }

  /** One dial for each address, in order, on the request's network and under its id. */
  predicate AreDials(m: NodeMetaInfo, addresses: seq<Address>, dials: seq<Dial>) {
    |dials| == |addresses| && forall i | 0 <= i < |dials| :: dials[i] == Dial(m.network, m.peerId, addresses[i])
  }

  lemma {:induction false} OneMoreDial(m: NodeMetaInfo, addresses: seq<Address>, dials: seq<Dial>, a: Address)
    requires AreDials(m, addresses, dials)
    ensures AreDials(m, addresses + [a], dials + [Dial(m.network, m.peerId, a)])
  {}

  lemma {:induction false} ParsedStep(addrs: seq<Option<Address>>, i: nat, done: seq<Address>)
    requires i < |addrs| && done + ParsedOnly(addrs[i..]) == ParsedOnly(addrs)
    ensures match addrs[i]
            case Some(a) => done + [a] + ParsedOnly(addrs[i + 1..]) == ParsedOnly(addrs) && ParsedOnly(addrs) != []
            case None => done + ParsedOnly(addrs[i + 1..]) == ParsedOnly(addrs)
  {
    assert addrs[i..][1..] == addrs[i + 1..];
  }

  /** `peer/needs_dial`: every address that parses is dialled on the request's own network. */
  method DialNode(lib: Library, node: NodeMetaInfo) returns (r: Dialled)
    ensures var parsed := ParsedOnly(MetaInfoToAddr(lib, node));
            && (r.Panicked? <==> node.network == Dev && parsed != [])
            && (r.Dialled? ==> |r.dials| == |parsed|)
            && (r.Dialled? ==> forall i | 0 <= i < |parsed| :: r.dials[i] == Dial(node.network, node.peerId, parsed[i]))
    ensures lib.Sound() && node.network != Dev ==>
              r.Dialled? && forall e, id | e in node.addresses && IsDialable(lib, node, e, id) ::
                Dial(node.network, node.peerId, [Component.Ip(e.address), Tcp(e.port), P2P(id)]) in r.dials
  {
    var addrs := MetaInfoToAddr(lib, node);
    var dials: seq<Dial> := [];
    ghost var done: seq<Address> := [];
    for i := 0 to |addrs|
      invariant done + ParsedOnly(addrs[i..]) == ParsedOnly(addrs)
      invariant AreDials(node, done, dials)
      invariant node.network == Dev ==> done == []
    {
      ParsedStep(addrs, i, done);
      if addrs[i].Some? {
        var addr := addrs[i].value;
        OneMoreDial(node, done, dials, addr);
        match node.network {
          case Pudge => dials := dials + [Dial(Pudge, node.peerId, addr)];
          case Mirana => dials := dials + [Dial(Mirana, node.peerId, addr)];
          case Dev => return Panicked;
        }
        done := done + [addr];
      }
    }
    assert addrs[|addrs|..] == [];
    r := Dialled(dials);
    if lib.Sound() {
      AllDialled(lib, node, dials);
    }
  }

  lemma {:induction false} AllDialled(lib: Library, m: NodeMetaInfo, dials: seq<Dial>)
    requires lib.Sound() && |dials| == |ParsedOnly(MetaInfoToAddr(lib, m))|
    requires forall i | 0 <= i < |dials| :: dials[i] == Dial(m.network, m.peerId, ParsedOnly(MetaInfoToAddr(lib, m))[i])
    ensures forall e, id | e in m.addresses && IsDialable(lib, m, e, id) ::
              Dial(m.network, m.peerId, [Component.Ip(e.address), Tcp(e.port), P2P(id)]) in dials
  {
    forall e, id | e in m.addresses && IsDialable(lib, m, e, id)
      ensures Dial(m.network, m.peerId, [Component.Ip(e.address), Tcp(e.port), P2P(id)]) in dials
    {
      EndpointIsDialled(lib, m, e, id);
      DialledToo(m, ParsedOnly(MetaInfoToAddr(lib, m)), dials, [Component.Ip(e.address), Tcp(e.port), P2P(id)]);
    }
  }

  predicate IsDialable(lib: Library, m: NodeMetaInfo, e: EndpointInfo, id: seq<Byte>) {
    !e.address.IsLoopback() && m.peerId == Base58.Encode(id) && lib.isPeerId(id)
  }

  lemma {:induction false} DialledToo(m: NodeMetaInfo, parsed: seq<Address>, dials: seq<Dial>, a: Address)
    requires |dials| == |parsed| && a in parsed
    requires forall i | 0 <= i < |parsed| :: dials[i] == Dial(m.network, m.peerId, parsed[i])
    ensures Dial(m.network, m.peerId, a) in dials
  {
    var i :| 0 <= i < |parsed| && parsed[i] == a;
    assert dials[i] in dials;
  }
}
