/** The messages the dialers, marci and the query service exchange. */
module Types {

  datatype Network = Mirana | Pudge | Dev {

    /** Legacy and modern spellings are read; anything unrecognised is taken to be Mirana. */
    static function From(s: string): Network {
      if s == "mirana" || s == "ckb" || s == "main" || s == "mainnet" then Mirana
      else if s == "pudge" || s == "ckb_testnet" || s == "test" || s == "testnet" then Pudge
      else if s == "dev" || s == "ckb_dev" then Dev
      else Mirana
    }

    function IntoStr(): string {
      match this
      case Mirana => "mirana"
      case Pudge => "pudge"
      case Dev => "dev"
    }

    function IntoLegacyStr(): string {
      match this
      case Mirana => "ckb"
      case Pudge => "ckb_testnet"
      case Dev => "ckb_dev"
    }
  }

  /** Both printed spellings of a network are read back as that network. */
  lemma NetworkRoundTrip(n: Network)
    ensures Network.From(n.IntoStr()) == n && Network.From(n.IntoLegacyStr()) == n
  {
    match n
    case Mirana =>
      assert Network.From("mirana") == Mirana && Network.From("ckb") == Mirana;
    case Pudge =>
      assert "pudge"[0] == 'p' && "ckb_testnet"[3] == '_';
      assert Network.From("pudge") == Pudge && Network.From("ckb_testnet") == Pudge;
    case Dev =>
      assert "dev"[0] == 'd' && "ckb_dev"[4] == 'd';
      assert Network.From("dev") == Dev && Network.From("ckb_dev") == Dev;
  }

  /** The spellings that are read, and what the printed ones are. */
  lemma Spellings()
    ensures forall s | s in {"mirana", "ckb", "main", "mainnet"} :: Network.From(s) == Mirana
    ensures forall s | s in {"pudge", "ckb_testnet", "test", "testnet"} :: Network.From(s) == Pudge
    ensures forall s | s in {"dev", "ckb_dev"} :: Network.From(s) == Dev
    ensures Mirana.IntoStr() == "mirana" && Pudge.IntoStr() == "pudge" && Dev.IntoStr() == "dev"
    ensures Mirana.IntoLegacyStr() == "ckb" && Pudge.IntoLegacyStr() == "ckb_testnet"
    ensures Dev.IntoLegacyStr() == "ckb_dev"
  {
    ReadsMainnet();
    ReadsTestnet();
    ReadsDev();
  }

  lemma ReadsMainnet()
    ensures Network.From("mirana") == Network.From("ckb") == Network.From("main") == Network.From("mainnet") == Mirana
  {}

  lemma ReadsTestnet()
    ensures Network.From("pudge") == Network.From("ckb_testnet") == Pudge
    ensures Network.From("test") == Network.From("testnet") == Pudge
  {
    assert "pudge"[0] == 'p' && "ckb_testnet"[3] == '_' && "test"[0] == "testnet"[0] == 't';
  }

  lemma ReadsDev()
    ensures Network.From("dev") == Network.From("ckb_dev") == Dev
  {
    assert "dev"[0] == 'd' && "ckb_dev"[4] == 'd' && "ckb_testnet"[4] == 't' && "ckb_dev"[3] == '_';
  }

  /** Any other text is taken to be Mirana. */
  lemma OtherSpellings(s: string)
    requires s !in {"pudge", "ckb_testnet", "test", "testnet", "dev", "ckb_dev"}
    ensures Network.From(s) == Mirana
  {}

  /** The loopback addresses: 127.0.0.0/8 and ::1. */
  lemma Loopbacks(a: Octet, b: Octet, c: Octet, d: Octet, bits: Bits128)
    ensures V4(a, b, c, d).IsLoopback() <==> a == 127
    ensures V6(bits).IsLoopback() <==> bits == 1
  {}

  type Octet = x: nat | x < 256
  type Port = x: nat | x < 0x1_0000
  type Bits128 = x: nat | x < 0x1_0000_0000_0000_0000_0000_0000_0000_0000

  datatype IpAddr = V4(a: Octet, b: Octet, c: Octet, d: Octet) | V6(bits: Bits128) {
    /** 127.0.0.0/8, or ::1 alone. */
    predicate IsLoopback() {
      match this
      case V4(a, _, _, _) => a == 127
      case V6(bits) => bits == 1
    }
  }

  datatype EndpointInfo = EndpointInfo(address: IpAddr, port: Port)

  datatype NodeMetaInfo = NodeMetaInfo(peerId: string, addresses: seq<EndpointInfo>, network: Network)

  datatype PeerInfo = PeerInfo(info: NodeMetaInfo, version: string, full: bool, isEx: bool)

  datatype IpDetails = IpDetails(country: string, city: string, region: string, loc: string)
}
