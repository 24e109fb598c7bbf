/** The query service: the table of peers of a network, and the status of one peer, both read from
    the store marci keeps. */
module Exposed {
  import opened Wrappers
  import opened Redis
  import opened Keys
  import opened Types
  import opened Arms
  import opened Store
  import opened Connection
  import Leases
  import Witnesses
  import Facts
  import Numerals
  import Text
  import Version

  datatype Row = Row(id: int, version: string, versionShort: string, lastSeen: nat,
                     country: Option<string>, city: Option<string>,
                     latitude: Option<real>, longitude: Option<real>, nodeType: int)

  datatype PeerStatus = PeerStatus(peerId: string, inMap: bool, info: Option<Row>)

  /** How a coordinate is read; floating point is not part of this model. */
  type FloatReader = string -> Option<real>

  function NodeTypeFromFull(full: Option<bool>): int {
    match full
    case Some(true) => 0
    case Some(false) => 1
    case None => 0
  }

  function ReadBool(text: Option<string>): Option<bool> {
    if text == Some("1") then Some(true) else if text == Some("0") then Some(false) else None
  }

  /** A 64-bit count read from text, zero when it is missing or unreadable. */
  function ReadTimestamp(text: Option<string>): nat {
    match text
    case None => 0
    case Some(t) => Numerals.ParseDecimal(t).GetOr(0)
  }

  function Coordinate(read: FloatReader, pos: Option<string>, i: nat): Option<real> {
    match pos
    case None => None
    case Some(t) =>
      var parts := Text.Split(t, ',');
      if i < |parts| then read(parts[i]) else None
  }

  /** `as i32`. */
  function AsI32(n: nat): (r: int)
    ensures -0x8000_0000 <= r < 0x8000_0000 && (r - n) % 0x1_0000_0000 == 0
  {
    var low := n % 0x1_0000_0000;
    if low < 0x8000_0000 then low else low - 0x1_0000_0000
  }

  lemma SmallI32(n: nat)
    requires n < 0x8000_0000
    ensures AsI32(n) == n
  {}

  // ---------- what a reader should see of a peer ----------

  datatype Standing = Absent | Shown(version: string, versionShort: string)

  /** Online beats ex, ex beats unknown; an unknown peer has no version. */
  function StandingOf(rec: Record, now: nat): Standing {
    match (Get(rec, now, Online), Get(rec, now, Online2), Live(Find(rec, Unknown), now))
    case (Some(v), _, _) => Shown(v, Version.Shorten(v))
    case (None, Some(v), _) => Shown(v, Version.Shorten(v))
    case (None, None, Some(_)) => Shown("", "Unknown")
    case (None, None, None) => Absent
  }

  /** A row, but for its number, with everything except the version read at `now`. */
  function RowAt(read: FloatReader, rec: Record, now: nat, version: string, short: string): Row {
    var pos := Get(rec, now, Pos);
    Row(0, version, short, ReadTimestamp(Get(rec, now, LastSeen)), Get(rec, now, Country), Get(rec, now, City),
        Coordinate(read, pos, 0), Coordinate(read, pos, 1), NodeTypeFromFull(ReadBool(Get(rec, now, Full))))
  }

  /** The short version is cut from the version: before the first character that is neither digit nor
      dot, if there is no newline. */
  ghost predicate ShortensIt(row: Row) {
    && Version.IsShortOf(row.versionShort, row.version)
    && (Version.NoNewline(row.version) ==> row.versionShort == Version.NumericPrefix(row.version))
  }

  /** Each field of a row, and where it comes from. */
  lemma {:induction false} RowFields(read: FloatReader, rec: Record, now: nat, version: string, short: string)
    ensures var row := RowAt(read, rec, now, version, short);
            && row.id == 0 && row.version == version && row.versionShort == short
            && row.lastSeen == ReadTimestamp(Get(rec, now, LastSeen))
            && row.country == Get(rec, now, Country) && row.city == Get(rec, now, City)
            && row.nodeType == if Get(rec, now, Full) == Some("0") then 1 else 0
  {
    assert "1"[0] != "0"[0];
  }

  /** A sighting is a count in decimal; what is missing or is no number reads as zero. */
  lemma {:induction false} SightingText(n: nat, other: string, i: nat)
    requires i < |other| && !('0' <= other[i] <= '9')
    ensures ReadTimestamp(Some(Numerals.Decimal(n))) == n
    ensures ReadTimestamp(None) == 0 && ReadTimestamp(Some("")) == 0 && ReadTimestamp(Some(other)) == 0
  {
    Numerals.ParsePrinted(n);
    assert !Numerals.IsDigitChar(other[i]);
  }

  /** A position is two numbers separated by a comma; what is missing is not read. */
  lemma {:induction false} CoordinateText(read: FloatReader, lat: string, lon: string)
    requires ',' !in lat && ',' !in lon
    ensures Coordinate(read, Some(lat + "," + lon), 0) == read(lat)
    ensures Coordinate(read, Some(lat + "," + lon), 1) == read(lon)
    ensures Coordinate(read, Some(lat), 0) == read(lat) && Coordinate(read, Some(lat), 1) == None
    ensures Coordinate(read, None, 0) == None && Coordinate(read, None, 1) == None
  {
    Text.SplitFirst(lat, ',', lon);
    Text.SplitPlain(lon, ',');
    Text.SplitPlain(lat, ',');
    assert lat + "," + lon == lat + [','] + lon;
  }

  /** The row of a peer. */
  function RowOf(read: FloatReader, rec: Record, now: nat): Option<Row> {
    match StandingOf(rec, now)
    case Absent => None
    case Shown(v, short) => Some(RowAt(read, rec, now, v, short))
  }

  // ---------- what a reader sees when time passes between its commands ----------

  /** The times of one query's commands: the four listings, then the reads for each listed id in turn. */
  type Schedule = nat -> nat

  ghost predicate Forward(clock: Schedule, now: nat) {
    now <= clock(0) && forall i: nat, j: nat | i <= j :: clock(i) <= clock(j)
  }

  ghost predicate AtOnce(clock: Schedule) {
    forall i :: clock(i) == clock(0)
  }

  datatype Pass = Fails | Skips | Gives(row: Row)

  /** What becomes of the `k`-th listed id: its status is as the listings had it, and the version of a
      status that has one is read only now, where a missing key fails the whole query. */
  function PassOver(read: FloatReader, rec: Record, clock: Schedule, k: nat): Pass {
    var t := clock(4 + k);
    if Live(Find(rec, Online), clock(1)).Some? then Versioned(read, rec, t, Get(rec, t, Online))
    else if Live(Find(rec, Online2), clock(2)).Some? then Versioned(read, rec, t, Get(rec, t, Online2))
    else if Live(Find(rec, Unknown), clock(3)).Some? then Gives(RowAt(read, rec, t, "", "Unknown"))
    else Skips
  }

  function Versioned(read: FloatReader, rec: Record, t: nat, version: Option<string>): Pass {
    match version
    case None => Fails
    case Some(v) => Gives(RowAt(read, rec, t, v, Version.Shorten(v)))
  }

  /** The lease a listing saw has ended when its version is read. */
  predicate Lapses(rec: Record, clock: Schedule, k: nat) {
    if Live(Find(rec, Online), clock(1)).Some? then Live(Find(rec, Online), clock(4 + k)) == None
    else Live(Find(rec, Online2), clock(2)).Some? && Live(Find(rec, Online2), clock(4 + k)) == None
  }

  predicate ListedWithStatus(rec: Record, clock: Schedule) {
    || Live(Find(rec, Online), clock(1)).Some?
    || Live(Find(rec, Online2), clock(2)).Some?
    || Live(Find(rec, Unknown), clock(3)).Some?
  }

  /** The listings of the three statuses, each made at its own time. */
  ghost predicate ListedAs(db: Db, clock: Schedule, online: seq<string>, online2: seq<string>, unknown: seq<string>) {
    && (forall p :: p in online <==> Live(Find(db, Format(Online, p)), clock(1)).Some?)
    && (forall p :: p in online2 <==> Live(Find(db, Format(Online2, p)), clock(2)).Some?)
    && (forall p :: p in unknown <==> Live(Find(db, Format(Unknown, p)), clock(3)).Some?)
  }

  predicate TextLeases(rec: Record) {
    && (Online in rec ==> rec[Online].value.Text?)
    && (Online2 in rec ==> rec[Online2].value.Text?)
  }

  lemma {:induction false} FailsWhenLapsed(read: FloatReader, rec: Record, clock: Schedule, k: nat)
    requires TextLeases(rec)
    ensures PassOver(read, rec, clock, k).Fails? <==> Lapses(rec, clock, k)
    ensures PassOver(read, rec, clock, k).Skips? <==> !ListedWithStatus(rec, clock)
  {}

  /** What is shown while time passes: with a status that has a version, the version is the one read late,
      and its short form is cut from it. */
  lemma {:induction false} ShownVersion(read: FloatReader, rec: Record, clock: Schedule, k: nat)
    ensures var p, t := PassOver(read, rec, clock, k), clock(4 + k);
            p.Gives? ==>
              && (if Live(Find(rec, Online), clock(1)).Some? then
                    Get(rec, t, Online) == Some(p.row.version) && ShortensIt(p.row)
                  else if Live(Find(rec, Online2), clock(2)).Some? then
                    Get(rec, t, Online2) == Some(p.row.version) && ShortensIt(p.row)
                  else p.row.version == "" && p.row.versionShort == "Unknown")
              && p.row.nodeType == if Get(rec, t, Full) == Some("0") then 1 else 0
  {
    var p, t := PassOver(read, rec, clock, k), clock(4 + k);
    if p.Gives? {
      Version.ShortenShortens(p.row.version);
      RowFields(read, rec, t, p.row.version, p.row.versionShort);
    }
  }

  lemma {:induction false} InstantPass(read: FloatReader, rec: Record, clock: Schedule, k: nat)
    requires TextLeases(rec) && AtOnce(clock)
    ensures PassOver(read, rec, clock, k) ==
            match RowOf(read, rec, clock(0))
            case None => Skips
            case Some(row) => Gives(row)
  {
    assert clock(1) == clock(2) == clock(3) == clock(4 + k) == clock(0);
  }

  /** Lease keys hold text. */
  ghost predicate LeasesAreText(db: Db) {
    forall f, p | f in {Online, Online2} && Format(f, p) in db :: db[Format(f, p)].value.Text?
  }

  /** Keys of a network listing always have a dot to cut at. */
  lemma {:induction false} ListedHaveDots(db: Db, now: nat, f: Family, keys: seq<string>, k: string)
    requires Listed(f) && IsListing(db, now, Pattern(f), keys) && k in keys
    ensures Suffix(f) != "" ==> '.' in k
  {
    PatternMatchesFamily(f, k);
    var p :| k == Format(f, p);
    DecodeFormat(f, p);
  }

  lemma {:induction false} ListingIsNoLonger(keys: seq<string>, all: set<string>)
    requires NoDuplicates(keys) && forall k | k in keys :: k in all
    ensures |keys| <= |all|
    decreases |keys|
  {
    if keys != [] {
      var front, last := keys[..|keys| - 1], keys[|keys| - 1];
      forall k | k in front
        ensures k in all - {last}
      {
        assert k in keys;
      }
      assert last in keys;
      ListingIsNoLonger(front, all - {last});
    }
  }

  class Service {
    const con: RedisConnection
    const read: FloatReader

    constructor (con: RedisConnection, read: FloatReader)
      ensures this.con == con && this.read == read
    {
      this.con, this.read := con, read;
    }

    /** The ids a family's keys decode to. */
    method List(f: Family) returns (ids: seq<string>)
      requires Listed(f)
      ensures |ids| <= |con.data|
      ensures DotFreeKeys(con.data) ==>
                NoDuplicates(ids) && forall p :: p in ids <==> Live(Find(con.data, Format(f, p)), con.now).Some?
    {
      var keys := con.Keys(Pattern(f));
      forall k | k in keys
        ensures Suffix(f) != "" ==> '.' in k
      {
        ListedHaveDots(con.data, con.now, f, keys, k);
      }
      ids := DecodeAll(f, keys);
      ListingIsNoLonger(keys, con.data.Keys);
      if DotFreeKeys(con.data) {
        ListingDecodes(con.data, con.now, f, keys);
      }
    }

    /** Everything but status, read key by key. */
    method GetPeerInfo(p: string) returns (country: Option<string>, city: Option<string>, latitude: Option<real>,
                                           longitude: Option<real>, full: Option<bool>, timestamp: nat)
      ensures var rec := View(con.data, p);
              && country == Get(rec, con.now, Country) && city == Get(rec, con.now, City)
              && latitude == Coordinate(read, Get(rec, con.now, Pos), 0)
              && longitude == Coordinate(read, Get(rec, con.now, Pos), 1)
              && full == ReadBool(Get(rec, con.now, Full))
              && timestamp == ReadTimestamp(Get(rec, con.now, LastSeen))
    {
      forall f: Family
        ensures Find(View(con.data, p), f) == Find(con.data, Format(f, p))
      {
        ViewFind(con.data, p, f);
      }
      country := con.Get(Format(Country, p));
      city := con.Get(Format(City, p));
      var loc := con.Get(Format(Pos, p));
      latitude, longitude := None, None;
      if loc.Some? {
        var latLon := Text.Split(loc.value, ',');
        latitude := read(latLon[0]);
        if 1 < |latLon| {
          longitude := read(latLon[1]);
        }
      }
      var fullText := con.Get(Format(Full, p));
      full := ReadBool(fullText);
      var seen := con.Get(Format(LastSeen, p));
      timestamp := ReadTimestamp(seen);
    }

    /** One pass of the join, on listings made at earlier times: skip the peer, fail, or give its row. */
    method GetRow(p: string, index: nat, online: seq<string>, online2: seq<string>, unknown: seq<string>,
                  ghost clock: Schedule)
        returns (r: Result<Option<Row>, string>)
      requires con.now == clock(4 + index)
      ensures ListedAs(con.data, clock, online, online2, unknown) ==>
                  match PassOver(read, View(con.data, p), clock, index)
                  case Fails => r.Err?
                  case Skips => r == Ok(None)
                  case Gives(row) => r == Ok(Some(row.(id := AsI32(index))))
    {
      ViewFind(con.data, p, Online);
      ViewFind(con.data, p, Online2);
      ViewFind(con.data, p, Unknown);
      if p !in online && p !in online2 && p !in unknown {
        return Ok(None);
      }
      var version := "";
      if p in online {
        var v := con.Get(Format(Online, p));
        if v.None? {
          return Err("nil");
        }
        version := v.value;
      } else if p in online2 {
        var v := con.Get(Format(Online2, p));
        if v.None? {
          return Err("nil");
        }
        version := v.value;
      }
      var versionShort := if p !in online && p !in online2 then "Unknown" else Version.Shorten(version);
      var country, city, latitude, longitude, full, timestamp := GetPeerInfo(p);
      r := Ok(Some(Row(AsI32(index), version, versionShort, timestamp, country, city, latitude, longitude,
                       NodeTypeFromFull(full))));
    }

    /** The table of a network, with time passing between the commands as `clock` has it. The query fails
        exactly when some listed peer's lease ends between its listing and the reading of its version. */
    method GetPeers(network: Network, clock: Schedule)
        returns (r: Result<seq<Row>, string>, ghost owners: seq<string>, ghost peerIds: seq<string>)
      requires network != Dev && Forward(clock, con.now)
      modifies con`now
      ensures AtOnce(clock) ==> con.now == clock(0)
      ensures DotFreeKeys(con.data) ==>
                NoDuplicates(peerIds)
                && forall p :: p in peerIds <==> Live(Find(con.data, Format(Quick(network), p)), clock(0)).Some?
      ensures DotFreeKeys(con.data) && LeasesAreText(con.data) ==>
                (r.Err? <==> exists k :: 0 <= k < |peerIds| && Lapses(View(con.data, peerIds[k]), clock, k))
      ensures DotFreeKeys(con.data) && LeasesAreText(con.data) && r.Ok? ==>
                IsTableOver(read, con.data, clock, network, peerIds, r.value, owners)
    {
      con.WaitUntil(clock(0));
      var ids := List(Quick(network));
      peerIds := ids;
      con.WaitUntil(clock(1));
      var online := List(Online);
      con.WaitUntil(clock(2));
      var online2 := List(Online2);
      con.WaitUntil(clock(3));
      var unknown := List(Unknown);
      ghost var at;
      r, owners, at := Join(ids, online, online2, unknown, clock);
      if DotFreeKeys(con.data) && LeasesAreText(con.data) && r.Ok? {
        JoinDone(read, con.data, clock, network, ids, r.value, owners, at);
      }
    }

    /** The loop over the listed ids. */
    method Join(ids: seq<string>, online: seq<string>, online2: seq<string>, unknown: seq<string>, clock: Schedule)
        returns (r: Result<seq<Row>, string>, ghost owners: seq<string>, ghost at: seq<nat>)
      requires con.now == clock(3) && forall i: nat, j: nat | i <= j :: clock(i) <= clock(j)
      modifies con`now
      ensures AtOnce(clock) ==> con.now == clock(0)
      ensures ListedAs(con.data, clock, online, online2, unknown) ==>
                if r.Ok? then Joined(read, con.data, clock, ids, |ids|, r.value, owners, at)
                else LeasesAreText(con.data) ==> exists k :: 0 <= k < |ids| && Lapses(View(con.data, ids[k]), clock, k)
    {
      ghost var sound := ListedAs(con.data, clock, online, online2, unknown);
      var peers := [];
      owners, at := [], [];
      for index := 0 to |ids|
        invariant con.now == clock(3 + index)
        invariant |owners| == |peers| == |at|
        invariant sound ==> Joined(read, con.data, clock, ids, index, peers, owners, at)
      {
        con.WaitUntil(clock(4 + index));
        var row := GetRow(ids[index], index, online, online2, unknown, clock);
        match row {
          case Err(e) =>
            if sound && LeasesAreText(con.data) { OneFails(read, con.data, clock, ids, index); }
            return Err(e), [], [];
          case Ok(None) =>
            if sound { JoinSkips(read, con.data, clock, ids, index, peers, owners, at); }
          case Ok(Some(found)) =>
            if sound { JoinTakes(read, con.data, clock, ids, index, peers, owners, at, found); }
            peers := peers + [found];
            owners, at := owners + [ids[index]], at + [index];
        }
      }
      r := Ok(peers);
    }

    /** The status of one peer, by the second route, with time passing between the commands. */
    method PeerInMap(peerId: string, clock: Schedule) returns (r: PeerStatus)
      requires Forward(clock, con.now)
      modifies con`now
      ensures AtOnce(clock) ==> con.now == clock(0)
      ensures r == StatusOver(read, con.data, clock, peerId)
      ensures AtOnce(clock) && Literal(peerId) && LeasesAreText(con.data) ==>
                var row := RowOf(read, View(con.data, peerId), clock(0));
                r == PeerStatus(peerId, row.Some?, row)
    {
      InstantStatus(read, con.data, clock, peerId);
      con.WaitUntil(clock(0));
      var onlineKeys := con.Keys(Format(Online, peerId));
      ListingMatches(con.data, con.now, Format(Online, peerId), onlineKeys);
      con.WaitUntil(clock(1));
      if onlineKeys != [] {
        ViewFind(con.data, peerId, Online);
        var version := con.Get(Format(Online, peerId));
        r := InMap(peerId, version.GetOr(""), Version.Shorten(version.GetOr("")));
        return;
      }
      var online2Keys := con.Keys(Format(Online2, peerId));
      ListingMatches(con.data, con.now, Format(Online2, peerId), online2Keys);
      con.WaitUntil(clock(2));
      if online2Keys != [] {
        ViewFind(con.data, peerId, Online2);
        var version := con.Get(Format(Online2, peerId));
        r := InMap(peerId, version.GetOr(""), Version.Shorten(version.GetOr("")));
        return;
      }
      var unknownKeys := con.Keys(Format(Unknown, peerId));
      ListingMatches(con.data, con.now, Format(Unknown, peerId), unknownKeys);
      con.WaitUntil(clock(3));
      if unknownKeys != [] {
        r := InMap(peerId, "", "Unknown");
        return;
      }
      r := PeerStatus(peerId, false, None);
    }

    method InMap(p: string, version: string, versionShort: string) returns (r: PeerStatus)
      ensures r == PeerStatus(p, true, Some(RowAt(read, View(con.data, p), con.now, version, versionShort)))
    {
      var country, city, latitude, longitude, full, timestamp := GetPeerInfo(p);
      r := PeerStatus(p, true, Some(Row(0, version, versionShort, timestamp, country, city, latitude, longitude,
                                        NodeTypeFromFull(full))));
    }
  }

  // ---------- the second route ----------

  ghost predicate Matched(db: Db, now: nat, pattern: string) {
    exists k :: Live(Find(db, k), now).Some? && Glob(pattern, k)
  }

  lemma {:induction false} ListingMatches(db: Db, now: nat, pattern: string, keys: seq<string>)
    requires IsListing(db, now, pattern, keys)
    ensures keys != [] <==> Matched(db, now, pattern)
  {
    if keys != [] {
      assert keys[0] in keys;
    }
  }

  /** What the second route answers for any text at all, its commands running as `clock` has it: the text
      is used as a pattern to decide on the status, and as it stands to read the fields. */
  ghost function StatusOver(read: FloatReader, db: Db, clock: Schedule, id: string): PeerStatus {
    var rec := View(db, id);
    if Matched(db, clock(0), Format(Online, id)) then
      var v := Get(rec, clock(1), Online).GetOr("");
      PeerStatus(id, true, Some(RowAt(read, rec, clock(1), v, Version.Shorten(v))))
    else if Matched(db, clock(1), Format(Online2, id)) then
      var v := Get(rec, clock(2), Online2).GetOr("");
      PeerStatus(id, true, Some(RowAt(read, rec, clock(2), v, Version.Shorten(v))))
    else if Matched(db, clock(2), Format(Unknown, id)) then
      PeerStatus(id, true, Some(RowAt(read, rec, clock(3), "", "Unknown")))
    else PeerStatus(id, false, None)
  }

  /** The same when all commands see one instant. */
  ghost function StatusFor(read: FloatReader, db: Db, now: nat, id: string): PeerStatus {
    StatusOver(read, db, _ => now, id)
  }

  lemma {:induction false} InstantStatus(read: FloatReader, db: Db, clock: Schedule, id: string)
    ensures AtOnce(clock) ==> StatusOver(read, db, clock, id) == StatusFor(read, db, clock(0), id)
    ensures AtOnce(clock) && Literal(id) && LeasesAreText(db) ==>
              var row := RowOf(read, View(db, id), clock(0));
              StatusOver(read, db, clock, id) == PeerStatus(id, row.Some?, row)
  {
    if AtOnce(clock) {
      assert clock(1) == clock(2) == clock(3) == clock(0);
      if Literal(id) && LeasesAreText(db) {
        PlainStatus(read, db, clock(0), id);
      }
    }
  }

  lemma {:induction false} PlainFormat(f: Family, p: string)
    requires Suffix(f) == ""
    ensures Literal(Format(f, p)) <==> Literal(p)
  {
    PatternIsPlain(f);
    var s, n := Format(f, p), |Prefix(f)|;
    assert s == Prefix(f) + p;
    assert GlobFree(s) <==> GlobFree(p) by {
      if GlobFree(s) {
        forall i | 0 <= i < |p|
          ensures p[i] == s[n + i]
        {}
      }
    }
    if p != "" {
      PlainFront(Prefix(f), p[..|p| - 1]);
      assert s[..|s| - 1] == Prefix(f) + p[..|p| - 1];
    }
  }

  lemma {:induction false} PlainFront(prefix: string, p: string)
    requires GlobFree(prefix)
    ensures GlobFree(prefix + p) <==> GlobFree(p)
  {
    if GlobFree(prefix + p) {
      forall i | 0 <= i < |p|
        ensures p[i] == (prefix + p)[|prefix| + i]
      {}
    }
  }

  lemma {:induction false} PlainMatch(db: Db, now: nat, f: Family, id: string)
    requires Literal(id) && Suffix(f) == ""
    ensures Matched(db, now, Format(f, id)) <==> Live(Find(View(db, id), f), now).Some?
  {
    PlainFormat(f, id);
    ViewFind(db, id, f);
    LiteralExact(Format(f, id), Format(f, id));
    if Matched(db, now, Format(f, id)) {
      var k :| Live(Find(db, k), now).Some? && Glob(Format(f, id), k);
      LiteralExact(Format(f, id), k);
    }
  }

  /** For an id that is a pattern for itself alone, the second route answers from that peer's own record. */
  lemma {:induction false} PlainStatus(read: FloatReader, db: Db, now: nat, id: string)
    requires Literal(id) && LeasesAreText(db)
    ensures AnswersFromRecord(read, db, now, id)
  {
    TextView(db, id);
    PlainMatch(db, now, Online, id);
    PlainMatch(db, now, Online2, id);
    PlainMatch(db, now, Unknown, id);
  }

  ghost predicate AnswersFromRecord(read: FloatReader, db: Db, now: nat, id: string) {
    var row := RowOf(read, View(db, id), now);
    StatusFor(read, db, now, id) == PeerStatus(id, row.Some?, row)
  }

  /** The second route answers from the peer's own record, whatever is stored, exactly for the ids that
      are patterns for themselves alone. */
  lemma {:induction false} SecondRouteExact(read: FloatReader, now: nat, id: string)
    ensures Literal(id) <==> forall db | LeasesAreText(db) :: AnswersFromRecord(read, db, now, id)
  {
    if Literal(id) {
      forall db | LeasesAreText(db)
        ensures AnswersFromRecord(read, db, now, id)
      {
        PlainStatus(read, db, now, id);
      }
    } else {
      var db := WrongAnswer(read, now, id);
      assert !AnswersFromRecord(read, db, now, id);
    }
  }

  function OneKey(key: string): Db {
    map[key := Entry(Text("1.0"), None)]
  }

  /** For any other id, a store of one key on which the route is wrong about the peer being in the map. */
  lemma {:induction false} WrongAnswer(read: FloatReader, now: nat, id: string) returns (db: Db)
    requires !Literal(id)
    ensures LeasesAreText(db)
    ensures StatusFor(read, db, now, id).inMap != RowOf(read, View(db, id), now).Some?
  {
    var own := Format(Online, id);
    PlainFormat(Online, id);
    var other := NotLiteral(own);
    if Glob(own, own) {
      db := OneKey(other);
      OthersKey(read, now, id, other);
    } else {
      db := OneKey(own);
      OwnKey(read, now, id);
    }
  }

  /** What matches an id as an online key is no ex and no unknown key. */
  lemma {:induction false} OnlineOnly(id: string, key: string)
    requires key == Format(Online, id) || Glob(Format(Online, id), key)
    ensures !Glob(Format(Online2, id), key) && !Glob(Format(Unknown, id), key)
    ensures key != Format(Online2, id) && key != Format(Unknown, id)
  {
    PrefixIsPlain(Online);
    PrefixIsPlain(Online2);
    PrefixIsPlain(Unknown);
    assert forall f | f in {Online, Online2, Unknown} :: Format(f, id) == Prefix(f) + id;
    GlobLiteral(Prefix(Online), id, key);
    GlobLiteral(Prefix(Online2), id, key);
    GlobLiteral(Prefix(Unknown), id, key);
    assert key[11] == "peer.online."[11] == '.' && "peer.online2."[11] == '2' && "peer.unknown."[11] == 'n';
  }

  /** Somebody else's key that matches: in the map, without a status. */
  lemma {:induction false} OthersKey(read: FloatReader, now: nat, id: string, other: string)
    requires other != Format(Online, id) && Glob(Format(Online, id), other)
    ensures LeasesAreText(OneKey(other)) && StatusFor(read, OneKey(other), now, id).inMap
    ensures RowOf(read, View(OneKey(other), id), now) == None
  {
    OnlineOnly(id, other);
    assert Live(Find(OneKey(other), other), now).Some?;
    ViewFind(OneKey(other), id, Online);
    ViewFind(OneKey(other), id, Online2);
    ViewFind(OneKey(other), id, Unknown);
  }

  /** The peer's own key that does not match: a status, but not in the map. */
  lemma {:induction false} OwnKey(read: FloatReader, now: nat, id: string)
    requires !Glob(Format(Online, id), Format(Online, id))
    ensures var db := OneKey(Format(Online, id));
            && LeasesAreText(db) && !StatusFor(read, db, now, id).inMap
            && RowOf(read, View(db, id), now).Some?
  {
    OnlineOnly(id, Format(Online, id));
    ViewFind(OneKey(Format(Online, id)), id, Online);
  }

  /** For the id `*`: as soon as anybody is online the answer is yes, though `*` has no lease of its own. */
  lemma {:induction false} StarIsInTheMap(read: FloatReader, db: Db, now: nat, q: string)
    requires Live(Find(db, Format(Online, q)), now).Some?
    requires forall f | f in {Online, Online2, Unknown} :: Live(Find(db, Format(f, "*")), now) == None
    ensures StatusFor(read, db, now, "*").inMap && RowOf(read, View(db, "*"), now) == None
  {
    assert Format(Online, "*") == Pattern(Online);
    PatternMatchesFamily(Online, Format(Online, q));
    ViewFind(db, "*", Online);
    ViewFind(db, "*", Online2);
    ViewFind(db, "*", Unknown);
  }

  /** When the second route reads a peer's fields: after the listing that had it. */
  ghost function ReadTime(db: Db, clock: Schedule, id: string): nat {
    if Matched(db, clock(0), Format(Online, id)) then clock(1)
    else if Matched(db, clock(1), Format(Online2, id)) then clock(2)
    else clock(3)
  }

  /** What it shows: a short version cut from the version, unless the peer is only unknown, and the type of
      node it reads. */
  lemma {:induction false} ShownStatus(read: FloatReader, db: Db, clock: Schedule, id: string)
    requires StatusOver(read, db, clock, id).inMap
    ensures var r := StatusOver(read, db, clock, id);
            && r.info.Some?
            && (if Matched(db, clock(0), Format(Online, id)) || Matched(db, clock(1), Format(Online2, id)) then
                  ShortensIt(r.info.value)
                else r.info.value.version == "" && r.info.value.versionShort == "Unknown")
            && r.info.value.nodeType ==
               if Get(View(db, id), ReadTime(db, clock, id), Full) == Some("0") then 1 else 0
  {
    var row := StatusOver(read, db, clock, id).info.value;
    Version.ShortenShortens(row.version);
    RowFields(read, View(db, id), ReadTime(db, clock, id), row.version, row.versionShort);
  }

  /** When time passes: a version is read only after its key was listed, and comes out empty exactly when
      the lease has ended by then. */
  lemma {:induction false} EmptyVersion(read: FloatReader, db: Db, clock: Schedule, id: string, v: string)
    requires Literal(id) && LeasesAreText(db) && Forward(clock, clock(0))
    ensures var rec, r := View(db, id), StatusOver(read, db, clock, id);
            && (Live(Find(rec, Online), clock(0)) == Some(Text(v)) ==>
                  r.inMap && r.info.Some?
                  && r.info.value.version == if Live(Find(rec, Online), clock(1)).Some? then v else "")
            && (Live(Find(rec, Online), clock(0)) == None && Live(Find(rec, Online2), clock(1)) == Some(Text(v)) ==>
                  r.inMap && r.info.Some?
                  && r.info.value.version == if Live(Find(rec, Online2), clock(2)).Some? then v else "")
  {
    PlainMatch(db, clock(0), Online, id);
    PlainMatch(db, clock(1), Online2, id);
  }

  // ---------- the join ----------

  /** After `n` of the listed ids, none of which failed: the rows so far belong to exactly the listed
      peers with a status, in listing order, numbered by their place in the listing. */
  ghost predicate Joined(read: FloatReader, db: Db, clock: Schedule, ids: seq<string>, n: nat,
                         rows: seq<Row>, owners: seq<string>, at: seq<nat>)
  {
    && n <= |ids| && |rows| == |owners| == |at|
    && (forall i | 0 <= i < |at| ::
          at[i] < n && owners[i] == ids[at[i]] && RowFrom(read, View(db, owners[i]), clock, rows[i], at[i]))
    && (forall i, j | 0 <= i < j < |at| :: at[i] < at[j])
    && (forall k | 0 <= k < n && !PassOver(read, View(db, ids[k]), clock, k).Skips? :: k in at)
  }

  lemma {:induction false} TextView(db: Db, p: string)
    requires LeasesAreText(db)
    ensures TextLeases(View(db, p))
  {
    ViewFind(db, p, Online);
    ViewFind(db, p, Online2);
  }

  lemma {:induction false} OneFails(read: FloatReader, db: Db, clock: Schedule, ids: seq<string>, k: nat)
    requires LeasesAreText(db) && k < |ids|
    requires PassOver(read, View(db, ids[k]), clock, k).Fails?
    ensures Lapses(View(db, ids[k]), clock, k)
  {
    TextView(db, ids[k]);
    FailsWhenLapsed(read, View(db, ids[k]), clock, k);
  }

  lemma {:induction false} JoinSkips(read: FloatReader, db: Db, clock: Schedule, ids: seq<string>, n: nat,
                                     rows: seq<Row>, owners: seq<string>, at: seq<nat>)
    requires Joined(read, db, clock, ids, n, rows, owners, at) && n < |ids|
    requires PassOver(read, View(db, ids[n]), clock, n) == Skips
    ensures Joined(read, db, clock, ids, n + 1, rows, owners, at)
  {}

  lemma {:induction false} JoinTakes(read: FloatReader, db: Db, clock: Schedule, ids: seq<string>, n: nat,
                                     rows: seq<Row>, owners: seq<string>, at: seq<nat>, row: Row)
    requires Joined(read, db, clock, ids, n, rows, owners, at) && n < |ids|
    requires PassOver(read, View(db, ids[n]), clock, n) == Gives(row.(id := 0)) && row.id == AsI32(n)
    ensures Joined(read, db, clock, ids, n + 1, rows + [row], owners + [ids[n]], at + [n])
  {
    forall k | 0 <= k < n + 1 && !PassOver(read, View(db, ids[k]), clock, k).Skips?
      ensures k in at + [n]
    {
      assert k == n ==> (at + [n])[|at|] == k;
    }
  }

  ghost predicate NumbersGrow(db: Db, rows: seq<Row>) {
    |db| <= 0x8000_0000 ==> forall i, j | 0 <= i < j < |rows| :: rows[i].id < rows[j].id
  }

  /** What a table is when its commands ran as `clock` has it: every peer filed under the network when
      that was listed and with a status when that was, once each, with its place among the listed ids
      as number and the fields read at its turn. */
  ghost predicate IsTableOver(read: FloatReader, db: Db, clock: Schedule, n: Network, ids: seq<string>,
                              rows: seq<Row>, owners: seq<string>)
  {
    && |rows| == |owners| && NoDuplicates(owners) && NumbersGrow(db, rows)
    && (forall p :: p in owners <==>
          Live(Find(db, Format(Quick(n), p)), clock(0)).Some? && ListedWithStatus(View(db, p), clock))
    && (forall i | 0 <= i < |rows| :: HasTurn(read, db, clock, ids, owners[i], rows[i]))
  }

  ghost predicate HasTurn(read: FloatReader, db: Db, clock: Schedule, ids: seq<string>, p: string, row: Row) {
    exists k: nat :: k < |ids| && ids[k] == p && RowFrom(read, View(db, p), clock, row, k)
  }

  /** The row a peer got in the `k`-th pass. */
  predicate RowFrom(read: FloatReader, rec: Record, clock: Schedule, row: Row, k: nat) {
    row.id == AsI32(k) && PassOver(read, rec, clock, k) == Gives(row.(id := 0))
  }

  /** What a table is on one instant: every peer filed under the network that has a status, once each,
      with the row its record gives it; numbers grow down the table as long as they fit 32 bits. */
  ghost predicate IsTable(read: FloatReader, db: Db, now: nat, n: Network, rows: seq<Row>, owners: seq<string>) {
    && |rows| == |owners| && NoDuplicates(owners) && NumbersGrow(db, rows)
    && (forall p :: p in owners <==>
          Live(Find(db, Format(Quick(n), p)), now).Some? && RowOf(read, View(db, p), now).Some?)
    && (forall i | 0 <= i < |rows| :: RowOf(read, View(db, owners[i]), now) == Some(rows[i].(id := 0)))
  }

  /** A query all of whose commands see one instant cannot fail, and gives the table of that instant. */
  lemma {:induction false} InstantTable(read: FloatReader, db: Db, clock: Schedule, n: Network, ids: seq<string>,
                                        rows: seq<Row>, owners: seq<string>)
    requires LeasesAreText(db) && AtOnce(clock)
    requires IsTableOver(read, db, clock, n, ids, rows, owners)
    ensures IsTable(read, db, clock(0), n, rows, owners)
  {
    forall p
      ensures RowOf(read, View(db, p), clock(0)).Some? <==> ListedWithStatus(View(db, p), clock)
    {
      TextView(db, p);
      InstantPass(read, View(db, p), clock, 0);
      FailsWhenLapsed(read, View(db, p), clock, 0);
    }
    forall i | 0 <= i < |rows|
      ensures RowOf(read, View(db, owners[i]), clock(0)) == Some(rows[i].(id := 0))
    {
      var k: nat :| k < |ids| && ids[k] == owners[i] && RowFrom(read, View(db, owners[i]), clock, rows[i], k);
      TextView(db, owners[i]);
      InstantPass(read, View(db, owners[i]), clock, k);
    }
  }

  lemma {:induction false} NeverLapses(rec: Record, clock: Schedule, k: nat)
    requires AtOnce(clock)
    ensures !Lapses(rec, clock, k)
  {
    assert clock(1) == clock(2) == clock(4 + k) == clock(0);
  }

  lemma {:induction false} InOrderOnce(read: FloatReader, db: Db, clock: Schedule, ids: seq<string>,
                                       rows: seq<Row>, owners: seq<string>, at: seq<nat>, i: nat, j: nat)
    requires Joined(read, db, clock, ids, |ids|, rows, owners, at) && NoDuplicates(ids) && i < j < |rows|
    ensures owners[i] != owners[j]
    ensures |ids| <= 0x8000_0000 ==> rows[i].id < rows[j].id
  {
    assert at[i] < at[j] < |ids|;
    if |ids| <= 0x8000_0000 {
      SmallI32(at[i]);
      SmallI32(at[j]);
    }
  }

  lemma {:induction false} OwnersAreListed(read: FloatReader, db: Db, clock: Schedule, ids: seq<string>,
                                           rows: seq<Row>, owners: seq<string>, at: seq<nat>, p: string)
    requires Joined(read, db, clock, ids, |ids|, rows, owners, at) && LeasesAreText(db)
    ensures p in owners <==> p in ids && ListedWithStatus(View(db, p), clock)
  {
    TextView(db, p);
    if p in owners {
      var i :| 0 <= i < |owners| && owners[i] == p;
      FailsWhenLapsed(read, View(db, p), clock, at[i]);
      assert ids[at[i]] in ids;
    }
    if p in ids && ListedWithStatus(View(db, p), clock) {
      var k :| 0 <= k < |ids| && ids[k] == p;
      FailsWhenLapsed(read, View(db, p), clock, k);
      assert k in at;
      var i :| 0 <= i < |at| && at[i] == k;
      assert owners[i] in owners;
    }
  }

  lemma {:induction false} NoneLapsed(read: FloatReader, db: Db, clock: Schedule, ids: seq<string>,
                                      rows: seq<Row>, owners: seq<string>, at: seq<nat>, k: nat)
    requires Joined(read, db, clock, ids, |ids|, rows, owners, at) && LeasesAreText(db) && k < |ids|
    ensures !Lapses(View(db, ids[k]), clock, k)
  {
    TextView(db, ids[k]);
    FailsWhenLapsed(read, View(db, ids[k]), clock, k);
    if !PassOver(read, View(db, ids[k]), clock, k).Skips? {
      var i :| 0 <= i < |at| && at[i] == k;
    }
  }

  lemma {:induction false} JoinDone(read: FloatReader, db: Db, clock: Schedule, n: Network, ids: seq<string>,
                                    rows: seq<Row>, owners: seq<string>, at: seq<nat>)
    requires Joined(read, db, clock, ids, |ids|, rows, owners, at) && LeasesAreText(db)
    requires NoDuplicates(ids) && forall p :: p in ids <==> Live(Find(db, Format(Quick(n), p)), clock(0)).Some?
    requires |ids| <= |db|
    ensures IsTableOver(read, db, clock, n, ids, rows, owners)
    ensures forall k | 0 <= k < |ids| :: !Lapses(View(db, ids[k]), clock, k)
  {
    forall i, j | 0 <= i < j < |rows|
      ensures owners[i] != owners[j]
      ensures |db| <= 0x8000_0000 ==> rows[i].id < rows[j].id
    {
      InOrderOnce(read, db, clock, ids, rows, owners, at, i, j);
    }
    forall p
      ensures p in owners <==> p in ids && ListedWithStatus(View(db, p), clock)
    {
      OwnersAreListed(read, db, clock, ids, rows, owners, at, p);
    }
    forall i | 0 <= i < |rows|
      ensures HasTurn(read, db, clock, ids, owners[i], rows[i])
    {
      assert RowFrom(read, View(db, owners[i]), clock, rows[i], at[i]);
    }
    forall k | 0 <= k < |ids|
      ensures !Lapses(View(db, ids[k]), clock, k)
    {
      NoneLapsed(read, db, clock, ids, rows, owners, at, k);
    }
  }

  // ---------- the two routes agree ----------

  /** The table of a network, asked for all at once. */
  method GetPeersAtOnce(service: Service, network: Network) returns (table: seq<Row>, ghost owners: seq<string>)
    requires network != Dev
    requires DotFreeKeys(service.con.data) && LeasesAreText(service.con.data)
    modifies service.con`now
    ensures service.con.now == old(service.con.now)
    ensures IsTable(service.read, service.con.data, service.con.now, network, table, owners)
  {
    var now := service.con.now;
    var clock: Schedule := _ => now;
    var r, o, ids := service.GetPeers(network, clock);
    forall k | 0 <= k < |ids|
      ensures !Lapses(View(service.con.data, ids[k]), clock, k)
    {
      NeverLapses(View(service.con.data, ids[k]), clock, k);
    }
    table, owners := r.value, o;
    InstantTable(service.read, service.con.data, clock, network, ids, table, owners);
  }

  /** One peer, filed and online. */
  function OnePeer(p: string, version: string, ttl: nat): Db {
    map[Format(QuickMirana, p) := Entry(Text("0"), None), Format(Online, p) := Entry(Text(version), Some(Ms(ttl)))]
  }

  /** Listings at once, reads when the lease has ended. */
  function Late(ttl: nat): Schedule {
    n => LateAt(ttl, n)
  }

  function LateAt(ttl: nat, n: nat): nat {
    if n < 4 then 0 else Ms(ttl)
  }

  lemma {:induction false} OnePeerLapses(p: string, version: string, ttl: nat, k: nat)
    requires ttl > 0
    ensures Lapses(View(OnePeer(p, version, ttl), p), Late(ttl), k)
  {
    FormatInjective(Online, p, QuickMirana, p);
    ViewFind(OnePeer(p, version, ttl), p, Online);
  }

  lemma {:induction false} OnePeerIsReadable(p: string, version: string, ttl: nat)
    requires DotFree(p)
    ensures DotFreeKeys(OnePeer(p, version, ttl)) && LeasesAreText(OnePeer(p, version, ttl))
  {
    forall f, q | Format(f, q) in OnePeer(p, version, ttl)
      ensures q == p
    {
      FormatInjective(f, q, QuickMirana, p);
      FormatInjective(f, q, Online, p);
    }
  }

  lemma {:induction false} OnePeerFails(p: string, version: string, ttl: nat, ids: seq<string>)
    requires ttl > 0
    requires forall q :: q in ids <==> Live(Find(OnePeer(p, version, ttl), Format(Quick(Mirana), q)), 0).Some?
    ensures exists k :: 0 <= k < |ids| && Lapses(View(OnePeer(p, version, ttl), ids[k]), Late(ttl), k)
  {
    FormatInjective(Online, p, QuickMirana, p);
    assert p in ids;
    var k :| 0 <= k < |ids| && ids[k] == p;
    OnePeerLapses(p, version, ttl, k);
  }

  /** It does happen that a query fails: its one peer's lease ends after the listings. */
  method FailedQuery(p: string, version: string, ttl: nat, read: FloatReader) returns (r: Result<seq<Row>, string>)
    requires DotFree(p) && ttl > 0
    ensures r.Err?
  {
    var con := new RedisConnection();
    con.Set(Format(QuickMirana, p), "0");
    con.SetEx(Format(Online, p), version, ttl);
    assert con.data == OnePeer(p, version, ttl);
    var service := new Service(con, read);
    ghost var owners, ids;
    OnePeerIsReadable(p, version, ttl);
    r, owners, ids := service.GetPeers(Mirana, Late(ttl));
    OnePeerFails(p, version, ttl, ids);
  }

  /** Both routes, on one snapshot. */
  method BothRoutes(service: Service, network: Network, p: string)
      returns (table: seq<Row>, ghost owners: seq<string>, status: PeerStatus)
    requires network != Dev && Literal(p)
    requires DotFreeKeys(service.con.data) && LeasesAreText(service.con.data)
    requires Live(Find(service.con.data, Format(Quick(network), p)), service.con.now).Some?
    modifies service.con`now
    ensures service.con.now == old(service.con.now)
    ensures IsTable(service.read, service.con.data, service.con.now, network, table, owners)
    ensures status.inMap <==> p in owners
    ensures forall i | 0 <= i < |table| && owners[i] == p :: status.info == Some(table[i].(id := 0))
    ensures status.inMap ==> exists i :: 0 <= i < |table| && status.info == Some(table[i].(id := 0))
  {
    table, owners := GetPeersAtOnce(service, network);
    var now := service.con.now;
    status := service.PeerInMap(p, _ => now);
    if status.inMap {
      ghost var i :| 0 <= i < |owners| && owners[i] == p;
    }
  }

  // ---------- on the stores marci produces ----------

  lemma {:induction false} OwnIsReported(es: seq<Event>, p: string)
    ensures Own(es, p) != [] ==> exists i :: 0 <= i < |es| && es[i].About(p)
  {
    if es != [] {
      var front := es[..|es| - 1];
      OwnIsReported(front, p);
      if Own(front, p) != [] {
        var i :| 0 <= i < |front| && front[i].About(p);
        assert es[i].About(p);
      }
    }
  }

  predicate DotFreeSubjects(es: seq<Event>) {
    forall i | 0 <= i < |es| && es[i].Reported? :: DotFree(es[i].input.report.Subject())
  }

  /** A run whose reports name only dot-free ids leaves a store both routes can read. */
  lemma {:induction false} RunsAreReadable(env: Env, es: seq<Event>)
    requires DotFreeSubjects(es)
    ensures DotFreeKeys(RunStore(env, es)) && LeasesAreText(RunStore(env, es))
  {
    var db := RunStore(env, es);
    forall f, p | Format(f, p) in db
      ensures DotFree(p)
      ensures f in {Online, Online2} ==> db[Format(f, p)].value.Text?
    {
      Locality(env, es, p);
      ViewFind(db, p, f);
      Facts.RunTyped(env, Own(es, p));
      assert f in View(db, p);
      OwnIsReported(es, p);
    }
  }

  /** Report `i` opened an ex lease that still lives at `t`. */
  ghost predicate LiveEx(env: Env, h: seq<Input>, t: nat, i: nat) {
    Leases.LastOpensEx(env, h, i) && t < h[i].at + 1000 * env.timeout
  }

  /** A peer has a status: one of its three leases is live. */
  ghost predicate HasStatus(env: Env, h: seq<Input>, t: nat) {
    || !Leases.Dead(env, h, t)
    || (exists i: nat :: LiveEx(env, h, t, i))
    || (exists u: nat :: Witnesses.OpensUnknown(env, h, u) && t < h[u].at + 1000 * env.unknownTimeout)
  }

  lemma {:induction false} StatusOfHistory(env: Env, h: seq<Input>, t: nat, read: FloatReader)
    requires env.Sound() && Leases.Ordered(h, t)
    ensures RowOf(read, Run(env, h), t).Some? <==> HasStatus(env, h, t)
  {
    var rec := Run(env, h);
    Leases.OnlineLease(env, h, t, "");
    Witnesses.UnknownLease(env, h, t);
    if Get(rec, t, Online2).Some? {
      Leases.ExLease(env, h, t, Get(rec, t, Online2).value);
      var i: nat :| Leases.LastOpensEx(env, h, i) && t < h[i].at + 1000 * env.timeout;
      assert LiveEx(env, h, t, i);
    }
    forall i: nat | LiveEx(env, h, t, i)
      ensures Get(rec, t, Online2).Some?
    {
      Leases.ExLease(env, h, t, h[i].report.online.version);
    }
  }

  /** The version a peer is shown with: that of the report its online lease was opened by, failing
      that of the report its ex lease was opened by, failing that none. */
  lemma {:induction false} VersionOfHistory(env: Env, h: seq<Input>, t: nat, read: FloatReader, row: Row)
    requires env.Sound() && Leases.Ordered(h, t)
    requires RowOf(read, Run(env, h), t) == Some(row)
    ensures if !Leases.Dead(env, h, t) then
              exists j: nat :: Leases.FirstAnchor(env, Leases.Beats(h), j, t)
                               && row.version == Leases.Beats(h)[j].report.online.version
            else if exists i: nat :: LiveEx(env, h, t, i) then
              exists i: nat :: LiveEx(env, h, t, i) && row.version == h[i].report.online.version
            else row.version == ""
    ensures if !Leases.Dead(env, h, t) || exists i: nat :: LiveEx(env, h, t, i) then ShortensIt(row)
            else row.versionShort == "Unknown"
  {
    RowFields(read, Run(env, h), t, row.version, row.versionShort);
    Version.ShortenShortens(row.version);
    var rec := Run(env, h);
    Leases.OnlineLease(env, h, t, Get(rec, t, Online).GetOr(""));
    Leases.ExLease(env, h, t, Get(rec, t, Online2).GetOr(""));
    forall i: nat | LiveEx(env, h, t, i)
      ensures Get(rec, t, Online2).Some?
    {
      Leases.ExLease(env, h, t, h[i].report.online.version);
    }
    if Get(rec, t, Online).None? && Get(rec, t, Online2).Some? {
      var i: nat :| Leases.LastOpensEx(env, h, i) && t < h[i].at + 1000 * env.timeout
        && h[i].report.online.version == Get(rec, t, Online2).value;
      assert LiveEx(env, h, t, i);
    }
  }

  lemma {:induction false} HistoryOfRow(env: Env, h: seq<Input>, t: nat, read: FloatReader)
    ensures RowOf(read, Run(env, h), t).Some? ==> h != []
  {}

  lemma {:induction false} ReadsSeconds(rec: Record, t: nat, at: nat)
    requires Find(rec, LastSeen) == Stay(Seconds(at))
    ensures ReadTimestamp(Get(rec, t, LastSeen)) == at / 1000
  {
    Numerals.ParsePrinted(at / 1000);
  }

  predicate ShowsPlace(read: FloatReader, row: Row, d: Option<IpDetails>) {
    match d
    case None => row.country == None && row.city == None && row.latitude == None && row.longitude == None
    case Some(d) =>
      && row.country == Some(d.country) && row.city == Some(d.city)
      && row.latitude == Coordinate(read, Some(d.loc), 0) && row.longitude == Coordinate(read, Some(d.loc), 1)
  }

  lemma {:induction false} PlaceShown(rec: Record, t: nat, d: Option<IpDetails>, read: FloatReader, row: Row)
    requires RowOf(read, rec, t) == Some(row)
    requires Find(rec, Country) == Facts.GeoEntry(d, Country) && Find(rec, City) == Facts.GeoEntry(d, City)
    requires Find(rec, Pos) == Facts.GeoEntry(d, Pos)
    ensures ShowsPlace(read, row, d)
  {}

  /** A light node by its latest online report is shown as type 1, any other peer as type 0. */
  lemma {:induction false} NodeTypeOfHistory(env: Env, h: seq<Input>, t: nat, read: FloatReader, row: Row)
    requires RowOf(read, Run(env, h), t) == Some(row)
    ensures row.nodeType == 0 || row.nodeType == 1
    ensures row.nodeType == 1 <==>
            exists i :: 0 <= i < |h| && Facts.IsLatest(h, i, false) && !h[i].report.online.full
  {
    Facts.FullKey(env, h);
    Facts.LatestOnlineIs(h, false);
    RowFields(read, Run(env, h), t, row.version, row.versionShort);
    if i :| 0 <= i < |h| && Facts.IsLatest(h, i, false) && Some(h[i]) == Facts.LatestOnline(h, false) {
      forall k | 0 <= k < |h| && Facts.IsLatest(h, k, false)
        ensures k == i
      {}
    }
  }

  /** The rest of a row: the time of the peer's latest report in whole seconds, and the place named by
      the one answer its geo fields came from. */
  lemma {:induction false} DetailsOfHistory(env: Env, h: seq<Input>, t: nat, read: FloatReader, row: Row)
    requires RowOf(read, Run(env, h), t) == Some(row)
    ensures h != [] && row.lastSeen == h[|h| - 1].at / 1000
    ensures ShowsPlace(read, row, Facts.GeoSource(h))
  {
    HistoryOfRow(env, h, t, read);
    Facts.LastSighting(env, h);
    ReadsSeconds(Run(env, h), t, h[|h| - 1].at);
    Facts.GeoFromOneSource(env, h, Country);
    Facts.GeoFromOneSource(env, h, City);
    Facts.GeoFromOneSource(env, h, Pos);
    PlaceShown(Run(env, h), t, Facts.GeoSource(h), read, row);
  }

  /** On every store a run can leave, the table of a network has exactly one row for each peer ever
      reported reachable there that is online, ex or unknown at the time, and no other row. */
  lemma {:induction false} TableOfRun(read: FloatReader, env: Env, es: seq<Event>, t: nat, n: Network,
                                      rows: seq<Row>, owners: seq<string>, p: string)
    requires env.Sound() && InOrder(es, t)
    requires IsTable(read, RunStore(env, es), t, n, rows, owners)
    ensures p in owners <==> Facts.ReportedUnder(Own(es, p), n) && HasStatus(env, Own(es, p), t)
  {
    var db := RunStore(env, es);
    Locality(env, es, p);
    OwnOrdered(es, t, p);
    ViewFind(db, p, Quick(n));
    Facts.NetworkFiling(env, Own(es, p), n);
    StatusOfHistory(env, Own(es, p), t, read);
  }

  /** A live unknown peer is listed exactly when some reachable report named Mirana or Pudge for it: no
      table reads what is filed under Dev. */
  lemma {:induction false} UnknownIsListed(read: FloatReader, env: Env, es: seq<Event>, t: nat, p: string,
                                           mirana: seq<Row>, inMirana: seq<string>,
                                           pudge: seq<Row>, inPudge: seq<string>)
    requires env.Sound() && InOrder(es, t)
    requires Live(Find(RunStore(env, es), Format(Unknown, p)), t).Some?
    requires IsTable(read, RunStore(env, es), t, Mirana, mirana, inMirana)
    requires IsTable(read, RunStore(env, es), t, Pudge, pudge, inPudge)
    ensures p in inMirana || p in inPudge <==>
            Facts.ReportedUnder(Own(es, p), Mirana) || Facts.ReportedUnder(Own(es, p), Pudge)
  {
    UnknownKeyMeaning(env, es, t, p);
    TableOfRun(read, env, es, t, Mirana, mirana, inMirana, p);
    TableOfRun(read, env, es, t, Pudge, pudge, inPudge, p);
  }

  /** A peer vouched for on Dev alone, then found unreachable, by a deployment with threshold one. */
  function DevOnly(p: NodeMetaInfo, from: NodeMetaInfo, at: nat): seq<Event> {
    [Reported(Input(at, ReachableReport(p, from), None)), Reported(Input(at, UnknownReport(p), None))]
  }

  lemma {:induction false} DevOnlyHistory(p: NodeMetaInfo, from: NodeMetaInfo, at: nat)
    ensures Own(DevOnly(p, from, at), p.peerId) ==
            [Input(at, ReachableReport(p, from), None), Input(at, UnknownReport(p), None)]
    ensures InOrder(DevOnly(p, from, at), at)
  {
    var es := DevOnly(p, from, at);
    assert es[..1] == [es[0]] && es[..1][..0] == [];
    assert Own(es[..1], p.peerId) == [es[0].input];
  }

  /** Such a peer is live as unknown and in neither table. */
  lemma {:induction false} UnknownUnlisted(read: FloatReader, env: Env, p: NodeMetaInfo, from: NodeMetaInfo, at: nat,
                                           mirana: seq<Row>, inMirana: seq<string>,
                                           pudge: seq<Row>, inPudge: seq<string>)
    requires env.Sound() && env.witnesses == 1 && p.network == Dev
    requires IsTable(read, RunStore(env, DevOnly(p, from, at)), at, Mirana, mirana, inMirana)
    requires IsTable(read, RunStore(env, DevOnly(p, from, at)), at, Pudge, pudge, inPudge)
    ensures Live(Find(RunStore(env, DevOnly(p, from, at)), Format(Unknown, p.peerId)), at).Some?
    ensures p.peerId !in inMirana && p.peerId !in inPudge
  {
    DevOnlyHistory(p, from, at);
    DevOnlyUpgrades(env, p, from, at);
    UnlistedIn(read, env, DevOnly(p, from, at), at, p.peerId, mirana, inMirana, pudge, inPudge);
  }

  lemma {:induction false} UnlistedIn(read: FloatReader, env: Env, es: seq<Event>, at: nat, p: string,
                                      mirana: seq<Row>, inMirana: seq<string>,
                                      pudge: seq<Row>, inPudge: seq<string>)
    requires env.Sound() && InOrder(es, at)
    requires Witnesses.OpensUnknown(env, Own(es, p), 1) && Own(es, p)[1].at == at
    requires !Facts.ReportedUnder(Own(es, p), Mirana) && !Facts.ReportedUnder(Own(es, p), Pudge)
    requires IsTable(read, RunStore(env, es), at, Mirana, mirana, inMirana)
    requires IsTable(read, RunStore(env, es), at, Pudge, pudge, inPudge)
    ensures Live(Find(RunStore(env, es), Format(Unknown, p)), at).Some?
    ensures p !in inMirana && p !in inPudge
  {
    UnknownKeyMeaning(env, es, at, p);
    UnknownIsListed(read, env, es, at, p, mirana, inMirana, pudge, inPudge);
  }

  lemma {:induction false} DevOnlyUpgrades(env: Env, p: NodeMetaInfo, from: NodeMetaInfo, at: nat)
    requires env.Sound() && env.witnesses == 1
    ensures Witnesses.OpensUnknown(env, Own(DevOnly(p, from, at), p.peerId), 1)
  {
    DevOnlyHistory(p, from, at);
    var h := Own(DevOnly(p, from, at), p.peerId);
    var g := [h[0]];
    assert h[..1] == g && g == [] + [h[0]];
    assert Leases.Beats(g) == [] by {
      assert g[..0] == [];
    }
    Witnesses.SinceSnoc(env, [], h[0]);
    assert Witnesses.Since(env, g) == {from.peerId};
  }
}
