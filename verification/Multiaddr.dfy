/** Multiaddresses as the dialers use them: sequences of components, the two folds that read an
    endpoint out of one, and the text that a peer's endpoint is dialled by. */
module Multiaddr {
  import opened Wrappers
  import opened Types
  import opened Numerals
  import Base58
  import Text

  type Byte = Base58.Byte

  /** `Other` stands for every protocol the folds ignore. */
  datatype Component =
    | Ip(address: IpAddr)
    | Tcp(port: Port)
    | P2P(id: seq<Byte>)
    | Other(name: string, value: string)

  type Address = seq<Component>

  /** What libraries do with text and identities: IPv6 text as an abstract pair, and which bytes are a
      peer id. */
  datatype Library = Library(showV6: Bits128 -> string, readV6: string -> Option<Bits128>,
                             isPeerId: seq<Byte> -> bool)
  {
    ghost predicate Sound() {
      && (forall v: Bits128 :: readV6(showV6(v)) == Some(v) && '/' !in showV6(v))
      && !isPeerId([])
    }
  }

  const LOCALHOST := V4(127, 0, 0, 1)

  // ---------- the folds, by what they mean: the last component of each kind wins ----------

  function LastIp(m: Address): IpAddr {
    if m == [] then LOCALHOST
    else if m[|m| - 1].Ip? then m[|m| - 1].address
    else LastIp(m[..|m| - 1])
  }

  function LastPort(m: Address): Port {
    if m == [] then 0
    else if m[|m| - 1].Tcp? then m[|m| - 1].port
    else LastPort(m[..|m| - 1])
  }

  function LastId(m: Address): seq<Byte> {
    if m == [] then []
    else if m[|m| - 1].P2P? then m[|m| - 1].id
    else LastId(m[..|m| - 1])
  }

  function EndpointOf(m: Address): EndpointInfo {
    EndpointInfo(LastIp(m), LastPort(m))
  }

  function NodeMetaOf(m: Address, network: Network): NodeMetaInfo {
    NodeMetaInfo(Base58.Encode(LastId(m)), [EndpointOf(m)], network)
  }

  method AddrToNodeMeta(addr: Address, network: Network) returns (meta: NodeMetaInfo)
    ensures meta == NodeMetaOf(addr, network)
    ensures meta.peerId == Base58.Encode(LastId(addr)) && meta.network == network
    ensures meta.addresses == [EndpointInfo(LastIp(addr), LastPort(addr))]
  {
    var peerId, port, address := "", 0, LOCALHOST;
    assert Base58.Encode([]) == "";
    for i := 0 to |addr|
      invariant peerId == Base58.Encode(LastId(addr[..i]))
      invariant port == LastPort(addr[..i]) && address == LastIp(addr[..i])
    {
      assert addr[..i + 1][..i] == addr[..i];
      match addr[i] {
        case Ip(a) => address := a;
        case P2P(id) => peerId := Base58.Encode(id);
        case Tcp(p) => port := p;
        case Other(_, _) =>
      }
    }
    assert addr[..|addr|] == addr;
    meta := NodeMetaInfo(peerId, [EndpointInfo(address, port)], network);
  }

  method AddrToEndpoint(addr: Address) returns (endpoint: EndpointInfo)
    ensures endpoint == EndpointOf(addr)
    ensures forall network :: NodeMetaOf(addr, network).addresses == [endpoint]
  {
    var port, address := 0, LOCALHOST;
    for i := 0 to |addr|
      invariant port == LastPort(addr[..i]) && address == LastIp(addr[..i])
    {
      assert addr[..i + 1][..i] == addr[..i];
      match addr[i] {
        case Ip(a) => address := a;
        case Tcp(p) => port := p;
        case _ =>
      }
    }
    assert addr[..|addr|] == addr;
    endpoint := EndpointInfo(address, port);
  }

  /** Last one wins, whatever surrounds it. */
  lemma {:induction false} LastOneWins(before: Address, c: Component, after: Address)
    ensures c.Ip? && (forall i | 0 <= i < |after| :: !after[i].Ip?) ==> LastIp(before + [c] + after) == c.address
    ensures c.Tcp? && (forall i | 0 <= i < |after| :: !after[i].Tcp?) ==> LastPort(before + [c] + after) == c.port
    ensures c.P2P? && (forall i | 0 <= i < |after| :: !after[i].P2P?) ==> LastId(before + [c] + after) == c.id
    decreases |after|
  {
    var m := before + [c] + after;
    if after == [] {
      assert m[..|m| - 1] == before;
    } else {
      var front := after[..|after| - 1];
      LastOneWins(before, c, front);
      assert m[..|m| - 1] == before + [c] + front;
    }
  }

  /** And a component that is missing has its default: 127.0.0.1, port 0, no id. */
  lemma {:induction false} Defaults(m: Address)
    ensures (forall i | 0 <= i < |m| :: !m[i].Ip?) ==> LastIp(m) == V4(127, 0, 0, 1)
    ensures (forall i | 0 <= i < |m| :: !m[i].Tcp?) ==> LastPort(m) == 0
    ensures (forall i | 0 <= i < |m| :: !m[i].P2P?) ==> LastId(m) == [] && Base58.Encode(LastId(m)) == ""
  {
    assert Base58.Encode([]) == "";
    if m != [] {
      Defaults(m[..|m| - 1]);
    }
  }

  // ---------- text ----------

  function ShowV4(a: Octet, b: Octet, c: Octet, d: Octet): string {
    Decimal(a) + "." + Decimal(b) + "." + Decimal(c) + "." + Decimal(d)
  }

  /** An octet: one to three digits, no leading zero, below 256. */
  function ReadOctet(s: string): Option<Octet> {
    match ParseDecimal(s)
    case Some(n) => if n < 256 && |s| <= 3 && (s[0] != '0' || |s| == 1) then Some(n) else None
    case None => None
  }

  function ReadV4(s: string): Option<IpAddr> {
    var parts := Text.Split(s, '.');
    if |parts| != 4 then None
    else
      match (ReadOctet(parts[0]), ReadOctet(parts[1]), ReadOctet(parts[2]), ReadOctet(parts[3]))
      case (Some(a), Some(b), Some(c), Some(d)) => Some(V4(a, b, c, d))
      case _ => None
  }

  function ReadPort(s: string): Option<Port> {
    match ParseDecimal(s)
    case Some(n) => if n < 0x1_0000 then Some(n) else None
    case None => None
  }

  function ShowIp(lib: Library, ip: IpAddr): string {
    match ip
    case V4(a, b, c, d) => ShowV4(a, b, c, d)
    case V6(bits) => lib.showV6(bits)
  }

  function IpName(ip: IpAddr): string {
    if ip.V4? then "ip4" else "ip6"
  }

  /** The text an endpoint of a peer is dialled by. */
  function Print(lib: Library, e: EndpointInfo, peerId: string): string {
    "/" + IpName(e.address) + "/" + ShowIp(lib, e.address) + "/tcp/" + Decimal(e.port) + "/p2p/" + peerId
  }

  /** One protocol and its value. */
  function ReadComponent(lib: Library, name: string, value: string): Option<Component> {
    if name == "ip4" then (match ReadV4(value) case Some(ip) => Some(Ip(ip)) case None => None)
    else if name == "ip6" then (match lib.readV6(value) case Some(bits) => Some(Ip(V6(bits))) case None => None)
    else if name == "tcp" then (match ReadPort(value) case Some(p) => Some(Tcp(p)) case None => None)
    else if name == "p2p" then
      (match Base58.Decode(value)
       case Some(id) => if lib.isPeerId(id) then Some(P2P(id)) else None
       case None => None)
    else None
  }

  function ReadParts(lib: Library, parts: seq<string>): Option<Address>
    decreases |parts|
  {
    if parts == [] then Some([])
    else if |parts| == 1 then None
    else
      match (ReadComponent(lib, parts[0], parts[1]), ReadParts(lib, parts[2..]))
      case (Some(c), Some(rest)) => Some([c] + rest)
      case _ => None
  }

  /** Text must start with the separator; then protocols and values alternate. */
  function Parse(lib: Library, s: string): Option<Address> {
    var parts := Text.Split(s, '/');
    if parts[0] != "" then None else ReadParts(lib, parts[1..])
  }

  /** Each endpoint but the loopback ones, printed and parsed; a failed parse stays in the list. */
  function MetaInfoToAddr(lib: Library, meta: NodeMetaInfo): seq<Option<Address>> {
    AddressesOf(lib, meta.peerId, meta.addresses)
  }

  function AddressesOf(lib: Library, peerId: string, addresses: seq<EndpointInfo>): seq<Option<Address>> {
    if addresses == [] then []
    else
      var rest := AddressesOf(lib, peerId, addresses[1..]);
      if addresses[0].address.IsLoopback() then rest else [Parse(lib, Print(lib, addresses[0], peerId))] + rest
  }

  /** The requests to dial, piece by piece: nothing for a loopback endpoint, one attempt to parse its text
      for any other, in order. */
  lemma {:induction false} AddressesPieces(lib: Library, p: string, a: seq<EndpointInfo>, b: seq<EndpointInfo>,
                                           e: EndpointInfo)
    ensures AddressesOf(lib, p, []) == []
    ensures AddressesOf(lib, p, [e]) ==
            if (e.address.V4? && e.address.a == 127) || e.address == V6(1) then [] else [Parse(lib, Print(lib, e, p))]
    ensures AddressesOf(lib, p, a + b) == AddressesOf(lib, p, a) + AddressesOf(lib, p, b)
    decreases |a|
  {
    assert [e][1..] == [];
    if a == [] {
      assert a + b == b;
    } else {
      assert (a + b)[1..] == a[1..] + b;
      AddressesPieces(lib, p, a[1..], b, e);
    }
  }

  /** The text itself. */
  lemma {:induction false} PrintText(lib: Library, a: Octet, b: Octet, c: Octet, d: Octet, bits: Bits128, port: Port,
                                     p: string)
    ensures Print(lib, EndpointInfo(V4(a, b, c, d), port), p) ==
            "/ip4/" + (Decimal(a) + "." + Decimal(b) + "." + Decimal(c) + "." + Decimal(d))
            + "/tcp/" + Decimal(port) + "/p2p/" + p
    ensures Print(lib, EndpointInfo(V6(bits), port), p) ==
            "/ip6/" + lib.showV6(bits) + "/tcp/" + Decimal(port) + "/p2p/" + p
  {
    assert "/" + "ip4" + "/" == "/ip4/" && "/" + "ip6" + "/" == "/ip6/";
  }

  // ---------- what is printed is read back ----------

  lemma {:induction false} DecimalHasNo(n: nat, c: char)
    requires !IsDigitChar(c)
    ensures c !in Decimal(n)
  {}

  lemma {:induction false} OctetRoundTrip(n: Octet)
    ensures ReadOctet(Decimal(n)) == Some(n)
  {
    ParsePrinted(n);
    OctetWidth(n);
  }

  lemma {:induction false} V4Parts(a: string, b: string, c: string, d: string)
    requires '.' !in a && '.' !in b && '.' !in c && '.' !in d
    ensures Text.Split(a + "." + b + "." + c + "." + d, '.') == [a, b, c, d]
  {
    var s := a + "." + b + "." + c + "." + d;
    assert s == a + ['.'] + (b + "." + c + "." + d);
    assert b + "." + c + "." + d == b + ['.'] + (c + "." + d);
    assert c + "." + d == c + ['.'] + d;
    Text.SplitFirst(a, '.', b + "." + c + "." + d);
    Text.SplitFirst(b, '.', c + "." + d);
    Text.SplitFirst(c, '.', d);
    Text.SplitPlain(d, '.');
  }

  lemma {:induction false} V4RoundTrip(a: Octet, b: Octet, c: Octet, d: Octet)
    ensures ReadV4(ShowV4(a, b, c, d)) == Some(V4(a, b, c, d))
  {
    V4Parts(Decimal(a), Decimal(b), Decimal(c), Decimal(d));
    OctetRoundTrip(a);
    OctetRoundTrip(b);
    OctetRoundTrip(c);
    OctetRoundTrip(d);
  }

  lemma {:induction false} OctetExact(s: string, n: Octet)
    ensures ReadOctet(s) == Some(n) <==> s == Decimal(n)
  {
    OctetRoundTrip(n);
    if ReadOctet(s) == Some(n) {
      PrintParsed(s);
    }
  }

  lemma {:induction false} GluedFour(parts: seq<string>)
    requires |parts| == 4
    ensures Text.Glue(parts, '.') == parts[0] + "." + parts[1] + "." + parts[2] + "." + parts[3]
  {
    var tail := parts[1..];
    assert tail[1..][1..][..1] == [parts[3]];
    assert Text.Glue(tail[1..], '.') == parts[2] + ['.'] + parts[3];
    assert Text.Glue(tail, '.') == parts[1] + ['.'] + (parts[2] + ['.'] + parts[3]);
  }

  /** A text is read as an IPv4 address exactly when it is how that address is printed. */
  lemma {:induction false} V4Exact(s: string, a: Octet, b: Octet, c: Octet, d: Octet)
    ensures ReadV4(s) == Some(V4(a, b, c, d)) <==> s == ShowV4(a, b, c, d)
  {
    V4RoundTrip(a, b, c, d);
    if ReadV4(s) == Some(V4(a, b, c, d)) {
      var parts := Text.Split(s, '.');
      Text.SplitGlue(s, '.');
      GluedFour(parts);
      OctetExact(parts[0], a);
      OctetExact(parts[1], b);
      OctetExact(parts[2], c);
      OctetExact(parts[3], d);
    }
  }

  /** A port is read up to 65535. */
  lemma {:induction false} PortRange(n: nat)
    ensures ReadPort(Decimal(n)) == if n <= 65535 then Some(n) else None
  {
    ParsePrinted(n);
  }

  /** What a protocol and its value stand for: the printed form for IPv4, a number below 65536 for a port,
      the text of a peer id for `p2p`. */
  predicate StandsFor(lib: Library, name: string, value: string, c: Component) {
    match c
    case Ip(V4(a, b, c, d)) =>
      name == "ip4" && value == Decimal(a) + "." + Decimal(b) + "." + Decimal(c) + "." + Decimal(d)
    case Ip(V6(bits)) => name == "ip6" && lib.readV6(value) == Some(bits)
    case Tcp(p) => name == "tcp" && ParseDecimal(value) == Some(p)
    case P2P(id) => name == "p2p" && Base58.Decode(value) == Some(id) && lib.isPeerId(id)
    case Other(_, _) => false
  }

  lemma {:induction false} ComponentExact(lib: Library, name: string, value: string, c: Component)
    ensures ReadComponent(lib, name, value) == Some(c) <==> StandsFor(lib, name, value, c)
  {
    assert "p2p"[0] == 'p' && "tcp"[0] == 't' && "ip4" != "ip6" by {
      assert "ip4"[2] != "ip6"[2];
    }
    if c.Ip? && c.address.V4? {
      V4Exact(value, c.address.a, c.address.b, c.address.c, c.address.d);
    }
    if name == "ip4" && ReadV4(value).Some? {
      assert ReadV4(value).value.V4?;
    }
  }

  ghost predicate PartsStandFor(lib: Library, parts: seq<string>, m: Address) {
    |parts| == 2 * |m| && forall i | 0 <= i < |m| :: StandsFor(lib, parts[2 * i], parts[2 * i + 1], m[i])
  }

  lemma {:induction false} PartsExact(lib: Library, parts: seq<string>, m: Address)
    ensures ReadParts(lib, parts) == Some(m) <==> PartsStandFor(lib, parts, m)
    decreases |parts|
  {
    if |parts| >= 2 && m != [] {
      ComponentExact(lib, parts[0], parts[1], m[0]);
      PartsExact(lib, parts[2..], m[1..]);
      OneMorePart(lib, parts, m);
      assert m == [m[0]] + m[1..];
    }
  }

  lemma {:induction false} OneMorePart(lib: Library, parts: seq<string>, m: Address)
    requires |parts| >= 2 && m != []
    ensures PartsStandFor(lib, parts, m) <==>
            StandsFor(lib, parts[0], parts[1], m[0]) && PartsStandFor(lib, parts[2..], m[1..])
  {
    var after, rest := parts[2..], m[1..];
    if PartsStandFor(lib, parts, m) {
      forall i | 0 <= i < |rest|
        ensures StandsFor(lib, after[2 * i], after[2 * i + 1], rest[i])
      {
        assert StandsFor(lib, parts[2 * (i + 1)], parts[2 * (i + 1) + 1], m[i + 1]);
      }
    }
    if StandsFor(lib, parts[0], parts[1], m[0]) && PartsStandFor(lib, after, rest) {
      forall i | 0 <= i < |m|
        ensures StandsFor(lib, parts[2 * i], parts[2 * i + 1], m[i])
      {
        if i > 0 {
          assert StandsFor(lib, after[2 * (i - 1)], after[2 * (i - 1) + 1], rest[i - 1]);
        }
      }
    }
  }

  /** A text is parsed exactly when it starts with the separator and protocols and values alternate
      after it, each pair standing for its component. */
  lemma {:induction false} ParseExact(lib: Library, s: string, m: Address)
    ensures Parse(lib, s) == Some(m) <==>
            Text.Split(s, '/')[0] == "" && PartsStandFor(lib, Text.Split(s, '/')[1..], m)
  {
    PartsExact(lib, Text.Split(s, '/')[1..], m);
  }

  lemma {:induction false} PrintParts(name: string, ip: string, port: string, id: string)
    requires '/' !in name && '/' !in ip && '/' !in port && '/' !in id
    ensures Text.Split("/" + name + "/" + ip + "/tcp/" + port + "/p2p/" + id, '/') ==
            ["", name, ip, "tcp", port, "p2p", id]
  {
    var s6 := "p2p" + ['/'] + id;
    var s5 := port + ['/'] + s6;
    var s4 := "tcp" + ['/'] + s5;
    var s3 := ip + ['/'] + s4;
    var s2 := name + ['/'] + s3;
    assert "/" + name + "/" + ip + "/tcp/" + port + "/p2p/" + id == "" + ['/'] + s2;
    Text.SplitPlain(id, '/');
    Text.SplitFirst("p2p", '/', id);
    Text.SplitFirst(port, '/', s6);
    Text.SplitFirst("tcp", '/', s5);
    Text.SplitFirst(ip, '/', s4);
    Text.SplitFirst(name, '/', s3);
    Text.SplitFirst("", '/', s2);
  }

  lemma {:induction false} IpText(lib: Library, ip: IpAddr)
    requires lib.Sound()
    ensures '/' !in ShowIp(lib, ip)
    ensures ReadComponent(lib, IpName(ip), ShowIp(lib, ip)) == Some(Ip(ip))
  {
    match ip {
      case V4(a, b, c, d) => V4Text(lib, a, b, c, d);
      case V6(bits) => V6Text(lib, bits);
    }
  }

  lemma {:induction false} V4Text(lib: Library, a: Octet, b: Octet, c: Octet, d: Octet)
    ensures '/' !in ShowV4(a, b, c, d)
    ensures ReadComponent(lib, "ip4", ShowV4(a, b, c, d)) == Some(Ip(V4(a, b, c, d)))
  {
    V4RoundTrip(a, b, c, d);
  }

  lemma {:induction false} V6Text(lib: Library, bits: Bits128)
    requires lib.Sound()
    ensures '/' !in lib.showV6(bits)
    ensures ReadComponent(lib, "ip6", lib.showV6(bits)) == Some(Ip(V6(bits)))
  {
    assert "ip6"[2] != "ip4"[2];
  }

  /** A printed endpoint parses to its three components, exactly when the id is a peer id. */
  lemma {:induction false} ParsePrint(lib: Library, e: EndpointInfo, id: seq<Byte>)
    requires lib.Sound()
    ensures Parse(lib, Print(lib, e, Base58.Encode(id))) ==
            if lib.isPeerId(id) then Some([Ip(e.address), Tcp(e.port), P2P(id)]) else None
  {
    var name, ip, port, text := IpName(e.address), ShowIp(lib, e.address), Decimal(e.port), Base58.Encode(id);
    IpText(lib, e.address);
    DecimalHasNo(e.port, '/');
    ParsePieces(lib, name, ip, port, text);
    PortText(lib, e.port);
    IdText(lib, id);
  }

  lemma {:induction false} PortText(lib: Library, port: Port)
    ensures ReadComponent(lib, "tcp", Decimal(port)) == Some(Tcp(port))
  {
    ParsePrinted(port);
    assert "tcp"[0] == 't' && "ip4"[0] == "ip6"[0] == 'i';
  }

  lemma {:induction false} IdText(lib: Library, id: seq<Byte>)
    ensures ReadComponent(lib, "p2p", Base58.Encode(id)) == if lib.isPeerId(id) then Some(P2P(id)) else None
  {
    Base58.DecodeEncode(id);
    ReadsId(lib, Base58.Encode(id));
  }

  lemma {:induction false} ReadsId(lib: Library, value: string)
    ensures ReadComponent(lib, "p2p", value) ==
            match Base58.Decode(value)
            case Some(id) => if lib.isPeerId(id) then Some(P2P(id)) else None
            case None => None
  {
    assert "p2p"[0] == 'p' && "ip4"[0] == "ip6"[0] == 'i' && "tcp"[0] == 't';
  }

  lemma {:induction false} ParsePieces(lib: Library, name: string, ip: string, port: string, id: string)
    requires '/' !in name && '/' !in ip && '/' !in port && '/' !in id
    ensures Parse(lib, "/" + name + "/" + ip + "/tcp/" + port + "/p2p/" + id) ==
            match (ReadComponent(lib, name, ip), ReadComponent(lib, "tcp", port), ReadComponent(lib, "p2p", id))
            case (Some(a), Some(b), Some(c)) => Some([a, b, c])
            case _ => None
  {
    PrintParts(name, ip, port, id);
    var parts := [name, ip, "tcp", port, "p2p", id];
    assert ["", name, ip, "tcp", port, "p2p", id][1..] == parts;
    ReadSix(lib, parts);
  }

  lemma {:induction false} ReadSix(lib: Library, parts: seq<string>)
    requires |parts| == 6
    ensures ReadParts(lib, parts) ==
            match (ReadComponent(lib, parts[0], parts[1]), ReadComponent(lib, parts[2], parts[3]),
                   ReadComponent(lib, parts[4], parts[5]))
            case (Some(a), Some(b), Some(c)) => Some([a, b, c])
            case _ => None
  {
    var last := parts[2..][2..];
    assert last[2..] == [];
    assert ReadParts(lib, last[2..]) == Some([]);
    var a, b := ReadComponent(lib, parts[0], parts[1]), ReadComponent(lib, parts[2], parts[3]);
    var c := ReadComponent(lib, parts[4], parts[5]);
    if c.None? {
      assert ReadParts(lib, last) == None;
      assert ReadParts(lib, parts[2..]) == None;
    } else {
      assert ReadParts(lib, last) == Some([c.value] + []);
      assert [c.value] + [] == [c.value];
      if b.None? {
        assert ReadParts(lib, parts[2..]) == None;
      } else {
        assert ReadParts(lib, parts[2..]) == Some([b.value] + [c.value]);
      }
      if a.Some? && b.Some? {
        assert [a.value] + ([b.value] + [c.value]) == [a.value, b.value, c.value];
      }
    }
  }

  /** The shape of an address this pipeline can carry without loss. */
  predicate Canonical(lib: Library, m: Address) {
    |m| == 3 && m[0].Ip? && m[1].Tcp? && m[2].P2P? && lib.isPeerId(m[2].id)
  }

  /** What becomes of any address sent through both conversions: nothing if its last address is
      loopback, one failed parse if its last id is missing or not a peer id, otherwise its canonical
      form. */
  lemma {:induction false} ThroughMeta(lib: Library, m: Address, network: Network)
    requires lib.Sound()
    ensures MetaInfoToAddr(lib, NodeMetaOf(m, network)) ==
            if LastIp(m).IsLoopback() then []
            else if lib.isPeerId(LastId(m)) then [Some([Ip(LastIp(m)), Tcp(LastPort(m)), P2P(LastId(m))])]
            else [None]
  {
    var parsed := Parse(lib, Print(lib, EndpointOf(m), Base58.Encode(LastId(m))));
    ParsePrint(lib, EndpointOf(m), LastId(m));
    var id := Base58.Encode(LastId(m));
    assert [EndpointOf(m)][1..] == [] && [parsed] + [] == [parsed];
    assert AddressesOf(lib, id, []) == [];
    assert AddressesOf(lib, id, [EndpointOf(m)]) == if LastIp(m).IsLoopback() then [] else [parsed];
  }

  /** The round trip returns the address itself exactly for canonical, non-loopback addresses. */
  lemma {:induction false} AddressRoundTrip(lib: Library, m: Address, network: Network)
    requires lib.Sound()
    ensures MetaInfoToAddr(lib, NodeMetaOf(m, network)) == [Some(m)] <==>
            Canonical(lib, m) && !m[0].address.IsLoopback()
  {
    ThroughMeta(lib, m, network);
    if Canonical(lib, m) {
      LastOneWins([], m[0], m[1..]);
      LastOneWins([m[0]], m[1], m[2..]);
      LastOneWins(m[..2], m[2], []);
      assert [] + [m[0]] + m[1..] == m && [m[0]] + [m[1]] + m[2..] == m && m[..2] + [m[2]] + [] == m;
      assert m == [Ip(LastIp(m)), Tcp(LastPort(m)), P2P(LastId(m))];
    }
  }
}
