/** The key space marci writes and the query service reads: one format per kind of fact about a
    peer, and one key of marci's own. */
module Keys {
  import opened Wrappers
  import opened Redis
  import Text
  import opened Types

  datatype Family =
    | Online | Online2 | Reachable | Unknown
    | OnlineIp
    | LastSeen | Ip | Country | City | Region | Full | Pos | Stored
    | QuickMirana | QuickPudge | QuickDev

  function Prefix(f: Family): string {
    match f
    case Online => "peer.online."
    case Online2 => "peer.online2."
    case Reachable => "peer.reachable."
    case Unknown => "peer.unknown."
    case OnlineIp => "online."
    case QuickMirana | QuickPudge | QuickDev => "network.peer."
    case _ => "peer_info."
  }

  function Suffix(f: Family): string {
    match f
    case Online | Online2 | Reachable | Unknown => ""
    case OnlineIp | Ip => ".ip"
    case LastSeen => ".last_seen"
    case Country => ".country"
    case City => ".city"
    case Region => ".region"
    case Full => ".full"
    case Pos => ".pos"
    case Stored => ".network"
    case QuickMirana => ".mirana"
    case QuickPudge => ".pudge"
    case QuickDev => ".dev"
  }

  function Format(f: Family, p: string): string {
    Prefix(f) + p + Suffix(f)
  }

  /** The keys themselves. */
  lemma {:induction false} StatusKeys(p: string)
    ensures Format(Online, p) == "peer.online." + p && Format(Online2, p) == "peer.online2." + p
    ensures Format(Reachable, p) == "peer.reachable." + p && Format(Unknown, p) == "peer.unknown." + p
    ensures Format(OnlineIp, p) == "online." + p + ".ip"
    ensures LAST_UPDATE == "service.last_update"
  {}

  lemma {:induction false} InfoKeys(p: string)
    ensures Format(LastSeen, p) == "peer_info." + p + ".last_seen" && Format(Ip, p) == "peer_info." + p + ".ip"
    ensures Format(Country, p) == "peer_info." + p + ".country" && Format(City, p) == "peer_info." + p + ".city"
    ensures Format(Region, p) == "peer_info." + p + ".region" && Format(Full, p) == "peer_info." + p + ".full"
    ensures Format(Pos, p) == "peer_info." + p + ".pos" && Format(Stored, p) == "peer_info." + p + ".network"
  {}

  lemma {:induction false} NetworkKeys(n: Network, p: string)
    ensures Format(Quick(n), p) == "network.peer." + p + "." + n.IntoStr()
    ensures Pattern(Quick(n)) == "network.peer.*." + n.IntoStr()
    ensures Pattern(Online) == "peer.online.*" && Pattern(Online2) == "peer.online2.*"
    ensures Pattern(Unknown) == "peer.unknown.*" && Pattern(Reachable) == "peer.reachable.*"
  {
    NetworkSuffix(n);
    assert "network.peer." + p + Suffix(Quick(n)) == "network.peer." + p + "." + n.IntoStr();
    assert "network.peer." + "*" + Suffix(Quick(n)) == "network.peer.*." + n.IntoStr();
  }

  lemma NetworkSuffix(n: Network)
    ensures Suffix(Quick(n)) == "." + n.IntoStr()
  {
    match n
    case Mirana => assert ".mirana" == "." + "mirana";
    case Pudge => assert ".pudge" == "." + "pudge";
    case Dev => assert ".dev" == "." + "dev";
  }

  const LAST_UPDATE := "service.last_update"

  /** The key under which a peer is filed for a network. */
  function Quick(n: Network): Family {
    match n
    case Mirana => QuickMirana
    case Pudge => QuickPudge
    case Dev => QuickDev
  }

  // ---------- the formats are injective and pairwise disjoint ----------

  /** Tells a key's family from a few of its characters. */
  function Discriminate(s: string): Option<Family>
  {
    if |s| < 10 then None
    else
      var last, before := s[|s| - 1], s[|s| - 2];
      if s[0] == 's' then None
      else if s[0] == 'o' then Some(OnlineIp)
      else if s[0] == 'n' then
        Some(if last == 'a' then QuickMirana else if last == 'e' then QuickPudge else QuickDev)
      else if s[4] == '.' then
        if |s| < 12 then None
        else if s[5] == 'r' then Some(Reachable)
        else if s[5] == 'u' then Some(Unknown)
        else if s[11] == '.' then Some(Online)
        else Some(Online2)
      else if last == 'n' then Some(if before == 'e' then LastSeen else Region)
      else if last == 'y' then Some(if before == 'r' then Country else City)
      else if last == 'p' then Some(Ip)
      else if last == 'l' then Some(Full)
      else if last == 's' then Some(Pos)
      else Some(Stored)
  }

  lemma FormatMiddle(f: Family, p: string)
    ensures var s := Format(f, p);
            && |s| == |Prefix(f)| + |p| + |Suffix(f)|
            && Prefix(f) <= s
            && s[|Prefix(f)|..|s| - |Suffix(f)|] == p
            && s[|Prefix(f)|..] == p + Suffix(f)
  {
    Surround(Prefix(f), p, Suffix(f));
  }

  lemma Surround(a: string, p: string, b: string)
    ensures var s := a + p + b;
            && a <= s
            && s[|a|..|s| - |b|] == p
            && s[|a|..] == p + b
  {}

  lemma DiscriminateFormat(f: Family, p: string)
    ensures Discriminate(Format(f, p)) == Some(f)
  {
    match f
    case Online => assert Discriminate("peer.online." + p + "") == Some(Online);
    case Online2 => assert Discriminate("peer.online2." + p + "") == Some(Online2);
    case Reachable => assert Discriminate("peer.reachable." + p + "") == Some(Reachable);
    case Unknown => assert Discriminate("peer.unknown." + p + "") == Some(Unknown);
    case OnlineIp => assert Discriminate("online." + p + ".ip") == Some(OnlineIp);
    case LastSeen => assert Discriminate("peer_info." + p + ".last_seen") == Some(LastSeen);
    case Ip => assert Discriminate("peer_info." + p + ".ip") == Some(Ip);
    case Country => assert Discriminate("peer_info." + p + ".country") == Some(Country);
    case City => assert Discriminate("peer_info." + p + ".city") == Some(City);
    case Region => assert Discriminate("peer_info." + p + ".region") == Some(Region);
    case Full => assert Discriminate("peer_info." + p + ".full") == Some(Full);
    case Pos => assert Discriminate("peer_info." + p + ".pos") == Some(Pos);
    case Stored => assert Discriminate("peer_info." + p + ".network") == Some(Stored);
    case QuickMirana => assert Discriminate("network.peer." + p + ".mirana") == Some(QuickMirana);
    case QuickPudge => assert Discriminate("network.peer." + p + ".pudge") == Some(QuickPudge);
    case QuickDev => assert Discriminate("network.peer." + p + ".dev") == Some(QuickDev);
  }

  lemma SurroundInjective(a: string, p: string, q: string, b: string)
    requires a + p + b == a + q + b
    ensures p == q
  {
    Surround(a, p, b);
    Surround(a, q, b);
  }

  /** No two formats produce one key; and the peer can be read back, whatever characters it holds. */
  lemma FormatInjective(f: Family, p: string, g: Family, q: string)
    ensures Format(f, p) == Format(g, q) <==> f == g && p == q
  {
    if Format(f, p) == Format(g, q) {
      assert f == g by {
        DiscriminateFormat(f, p);
        DiscriminateFormat(g, q);
      }
      SurroundInjective(Prefix(f), p, q, Suffix(f));
    }
  }

  /** No peer's key is marci's own key. */
  lemma FormatIsNotLastUpdate(f: Family, p: string)
    ensures Format(f, p) != LAST_UPDATE
  {
    DiscriminateFormat(f, p);
    assert LAST_UPDATE[0] == 's';
  }

  // ---------- listing a family ----------

  /** The pattern under which a family's keys are listed. */
  function Pattern(f: Family): string {
    Prefix(f) + "*" + Suffix(f)
  }

  lemma PatternIsPlain(f: Family)
    ensures GlobFree(Prefix(f)) && GlobFree(Suffix(f))
  {
    PrefixIsPlain(f);
  }

  lemma PrefixIsPlain(f: Family)
    ensures GlobFree(Prefix(f))
  {
    match f
    case Online | Online2 | Reachable | Unknown => StatusPrefixIsPlain(f);
    case OnlineIp => assert GlobFree("online.");
    case QuickMirana | QuickPudge | QuickDev => assert GlobFree("network.peer.");
    case _ => assert GlobFree("peer_info.");
  }

  lemma StatusPrefixIsPlain(f: Family)
    requires f in {Online, Online2, Reachable, Unknown}
    ensures GlobFree(Prefix(f))
  {
    if f == Online {
      assert GlobFree("peer.online.");
    } else if f == Online2 {
      assert GlobFree("peer.online2.");
    } else if f == Reachable {
      assert GlobFree("peer.reachable.");
    } else {
      assert GlobFree("peer.unknown.");
    }
  }

  lemma SuffixIsOnePiece(f: Family)
    requires Suffix(f) != ""
    ensures Suffix(f)[0] == '.' && DotFree(Suffix(f)[1..])
  {}

  /** On every string, the pattern of a family matches exactly the keys of that family. */
  lemma PatternMatchesFamily(f: Family, s: string)
    ensures Glob(Pattern(f), s) <==> exists p :: s == Format(f, p)
  {
    PatternIsPlain(f);
    PatternMatches(Prefix(f), Suffix(f), s);
    if Glob(Pattern(f), s) {
      var p :| s == Prefix(f) + p + Suffix(f);
      assert s == Format(f, p);
    }
  }

  lemma {:induction false} PatternMatches(prefix: string, suffix: string, s: string)
    requires GlobFree(prefix) && GlobFree(suffix)
    ensures Glob(prefix + "*" + suffix, s) <==> exists p :: s == prefix + p + suffix
  {
    GlobPrefixStarSuffix(prefix, suffix, s);
    if prefix <= s && HasSuffix(s[|prefix|..], suffix) {
      var p := s[|prefix|..|s| - |suffix|];
      assert s == prefix + p + suffix;
    }
    forall p | s == prefix + p + suffix
      ensures Glob(prefix + "*" + suffix, s)
    {
      Surround(prefix, p, suffix);
    }
  }

  predicate DotFree(p: string) {
    forall i | 0 <= i < |p| :: p[i] != '.'
  }

  /** Families whose keys are listed and decoded somewhere. */
  predicate Listed(f: Family) {
    f in {Online, Online2, Reachable, Unknown, QuickMirana, QuickPudge, QuickDev}
  }

  /** The peer id a listing recovers from a key: the last piece for the status families, the last
      but one for the network families. A network key without any dot would be out of range. */
  function Decode(f: Family, key: string): string
    requires Suffix(f) != "" ==> '.' in key
  {
    if Suffix(f) == "" then Text.AfterLast(key, '.') else Text.SecondLast(key, '.')
  }

  /** A listed key gives back its peer exactly when the id has no dot. */
  lemma DecodeFormat(f: Family, p: string)
    requires Listed(f)
    ensures Suffix(f) != "" ==> '.' in Format(f, p)
    ensures Decode(f, Format(f, p)) == p <==> DotFree(p)
  {
    var head := Prefix(f)[..|Prefix(f)| - 1];
    assert Prefix(f) == head + ['.'];
    if Suffix(f) == "" {
      assert Format(f, p) == head + ['.'] + p;
      Text.AfterLastRecovers(head, '.', p);
    } else {
      SuffixIsOnePiece(f);
      var tail := Suffix(f)[1..];
      assert Suffix(f) == ['.'] + tail;
      assert Format(f, p) == head + ['.'] + p + ['.'] + tail;
      Text.SecondLastRecovers(head, '.', p, tail);
    }
  }

  // ---------- what a listing yields ----------

  predicate NoDuplicates<T(==)>(s: seq<T>) {
    forall i, j | 0 <= i < j < |s| :: s[i] != s[j]
  }

  /** KEYS: every live key matching the pattern, once, in whatever order the server likes. */
  ghost predicate IsListing(db: map<string, Entry>, now: nat, pattern: string, keys: seq<string>) {
    && NoDuplicates(keys)
    && forall k :: k in keys <==> Live(Find(db, k), now).Some? && Glob(pattern, k)
  }

  /** Every key of a listed family belongs to a peer whose id has no dot. */
  ghost predicate DotFreeKeys(db: map<string, Entry>) {
    forall f, p | Format(f, p) in db && Listed(f) :: DotFree(p)
  }

  function DecodeAll(f: Family, keys: seq<string>): (ids: seq<string>)
    requires Suffix(f) != "" ==> forall k | k in keys :: '.' in k
    ensures |ids| == |keys| && forall i | 0 <= i < |keys| :: ids[i] == Decode(f, keys[i])
  {
    seq(|keys|, i requires 0 <= i < |keys| => Decode(f, keys[i]))
  }

  lemma ListingDecodesOne(db: map<string, Entry>, now: nat, f: Family, keys: seq<string>, k: string)
    requires Listed(f) && DotFreeKeys(db) && IsListing(db, now, Pattern(f), keys) && k in keys
    ensures Suffix(f) != "" ==> '.' in k
    ensures DotFree(Decode(f, k)) && k == Format(f, Decode(f, k))
  {
    PatternMatchesFamily(f, k);
    var p :| k == Format(f, p);
    DecodeFormat(f, p);
  }

  /** Listing and decoding a family returns exactly the ids that have a live key in it, each once. */
  lemma ListingDecodes(db: map<string, Entry>, now: nat, f: Family, keys: seq<string>)
    requires Listed(f) && DotFreeKeys(db) && IsListing(db, now, Pattern(f), keys)
    ensures Suffix(f) != "" ==> forall k | k in keys :: '.' in k
    ensures var ids := DecodeAll(f, keys);
            && NoDuplicates(ids)
            && forall p :: p in ids <==> Live(Find(db, Format(f, p)), now).Some?
  {
    forall k | k in keys
      ensures Suffix(f) != "" ==> '.' in k
      ensures k == Format(f, Decode(f, k))
    {
      ListingDecodesOne(db, now, f, keys, k);
    }
    var ids := DecodeAll(f, keys);
    forall p
      ensures p in ids <==> Live(Find(db, Format(f, p)), now).Some?
    {
      DecodedIffLive(db, now, f, keys, p);
    }
    forall i, j | 0 <= i < j < |ids|
      ensures ids[i] != ids[j]
    {
      assert keys[i] in keys && keys[j] in keys;
    }
  }

  lemma {:induction false} DecodedIffLive(db: map<string, Entry>, now: nat, f: Family, keys: seq<string>, p: string)
    requires Listed(f) && DotFreeKeys(db) && IsListing(db, now, Pattern(f), keys)
    requires Suffix(f) != "" ==> forall k | k in keys :: '.' in k
    requires forall k | k in keys :: k == Format(f, Decode(f, k))
    ensures p in DecodeAll(f, keys) <==> Live(Find(db, Format(f, p)), now).Some?
  {
    var k, ids := Format(f, p), DecodeAll(f, keys);
    PatternMatchesFamily(f, k);
    if k in keys {
      var i :| 0 <= i < |keys| && keys[i] == k;
      DecodeFormat(f, p);
      assert ids[i] == p;
    }
    if p in ids {
      var i :| 0 <= i < |ids| && ids[i] == p;
      assert keys[i] in keys;
    }
  }
}
