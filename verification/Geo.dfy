/** Address lookups: marci's memo over the ipinfo.io service, and the whole machine it belongs to.
    The service is an arbitrary oracle: its reply may differ from call to call, and may be an error. */
module Geo {
  import opened Wrappers
  import opened Redis
  import opened Keys
  import opened Types
  import opened Arms
  import opened Facts
  import opened Store

  /** The reply to the n-th outbound call, asked about an address. */
  type Oracle = (nat, string) -> Option<IpDetails>

  /** What is remembered, and every address asked of the service so far. */
  datatype Memo = Memo(cache: map<string, IpDetails>, asked: seq<string>)

  datatype Answer = Answer(ip: Option<IpDetails>, memo: Memo)

  function Lookup(service: Oracle, m: Memo, ip: string): Answer {
    if ip in m.cache then Answer(Some(m.cache[ip]), m)
    else
      var asked := m.asked + [ip];
      match service(|m.asked|, ip)
      case Some(d) => Answer(Some(d), Memo(m.cache[ip := d], asked))
      case None => Answer(None, Memo(m.cache, asked))
  }

  /** Ask about each address in turn until one is answered. */
  function LookupFirst(service: Oracle, m: Memo, ips: seq<string>): Answer
    decreases |ips|
  {
    if ips == [] then Answer(None, m)
    else
      var first := Lookup(service, m, ips[0]);
      if first.ip.Some? then first else LookupFirst(service, first.memo, ips[1..])
  }

  // ---------- the memo over all lookups ----------

  /** Call `n` is the one success about `ip`, and the last call about it. */
  ghost predicate OneSuccess(service: Oracle, asked: seq<string>, ip: string, d: IpDetails, n: nat) {
    && n < |asked| && asked[n] == ip && service(n, ip) == Some(d)
    && forall k: nat | k < |asked| && asked[k] == ip && k != n :: k < n && service(k, ip) == None
  }

  /** Each remembered entry is the service's answer; an address not remembered never had one. */
  ghost predicate Faithful(service: Oracle, m: Memo) {
    && (forall ip | ip in m.cache :: exists n: nat :: OneSuccess(service, m.asked, ip, m.cache[ip], n))
    && (forall k: nat | k < |m.asked| && m.asked[k] !in m.cache :: service(k, m.asked[k]) == None)
  }

  /** Nothing remembered is ever forgotten or changed. */
  predicate Extends(m: Memo, later: Memo) {
    forall ip | ip in m.cache :: ip in later.cache && later.cache[ip] == m.cache[ip]
  }

  lemma {:induction false} AskedAgain(service: Oracle, asked: seq<string>, ip: string, d: IpDetails, n: nat,
                                      other: string)
    requires OneSuccess(service, asked, ip, d, n) && other != ip
    ensures OneSuccess(service, asked + [other], ip, d, n)
  {}

  lemma {:induction false} FirstSuccess(service: Oracle, asked: seq<string>, ip: string, d: IpDetails)
    requires service(|asked|, ip) == Some(d)
    requires forall k: nat | k < |asked| && asked[k] == ip :: service(k, ip) == None
    ensures OneSuccess(service, asked + [ip], ip, d, |asked|)
  {}

  lemma {:induction false} LookupFaithful(service: Oracle, m: Memo, ip: string)
    requires Faithful(service, m)
    ensures Faithful(service, Lookup(service, m, ip).memo)
  {
    if ip !in m.cache {
      var after := Lookup(service, m, ip).memo;
      forall other | other in after.cache
        ensures exists n: nat :: OneSuccess(service, after.asked, other, after.cache[other], n)
      {
        if other == ip {
          FirstSuccess(service, m.asked, ip, after.cache[ip]);
        } else {
          var n: nat :| OneSuccess(service, m.asked, other, m.cache[other], n);
          AskedAgain(service, m.asked, other, m.cache[other], n, ip);
        }
      }
    }
  }

  /** The first `n` addresses were not remembered, and the service, asked about each in turn, refused. */
  ghost predicate Refused(service: Oracle, m: Memo, ips: seq<string>, n: nat) {
    n <= |ips| && forall j: nat | j < n :: ips[j] !in m.cache && service(|m.asked| + j, ips[j]) == None
  }

  /** The addresses before the `i`-th were refused; the `i`-th was remembered as `d`, or the service
      answered `d` and that was added to what is remembered. Nobody else was asked. */
  ghost predicate AnsweredAt(service: Oracle, m: Memo, ips: seq<string>, d: IpDetails, after: Memo, i: nat) {
    && i < |ips| && Refused(service, m, ips, i)
    && if ips[i] in m.cache then m.cache[ips[i]] == d && after == Memo(m.cache, m.asked + ips[..i])
       else service(|m.asked| + i, ips[i]) == Some(d)
            && after == Memo(m.cache[ips[i] := d], m.asked + ips[..i + 1])
  }

  /** The first address that succeeds decides; no answer means that every address was asked about and refused. */
  ghost predicate FirstDecides(service: Oracle, m: Memo, ips: seq<string>, a: Answer) {
    match a.ip
    case None => Refused(service, m, ips, |ips|) && a.memo == Memo(m.cache, m.asked + ips)
    case Some(d) => exists i: nat :: AnsweredAt(service, m, ips, d, a.memo, i)
  }

  lemma {:induction false} RefusedLater(service: Oracle, m: Memo, ips: seq<string>, n: nat)
    requires ips != [] && Refused(service, m, ips, 1)
    requires Refused(service, Memo(m.cache, m.asked + [ips[0]]), ips[1..], n)
    ensures Refused(service, m, ips, n + 1)
  {
    forall j: nat | j < n + 1
      ensures ips[j] !in m.cache && service(|m.asked| + j, ips[j]) == None
    {
      if j > 0 {
        assert ips[1..][j - 1] == ips[j];
        assert |m.asked + [ips[0]]| + (j - 1) == |m.asked| + j;
      }
    }
  }

  lemma {:induction false} AnsweredLater(service: Oracle, m: Memo, ips: seq<string>, d: IpDetails, after: Memo, i: nat)
    requires ips != [] && Refused(service, m, ips, 1)
    requires AnsweredAt(service, Memo(m.cache, m.asked + [ips[0]]), ips[1..], d, after, i)
    ensures AnsweredAt(service, m, ips, d, after, i + 1)
  {
    RefusedLater(service, m, ips, i);
    assert ips[1..][i] == ips[i + 1];
    assert |m.asked + [ips[0]]| + i == |m.asked| + (i + 1);
    assert m.asked + [ips[0]] + ips[1..][..i] == m.asked + ips[..i + 1];
    assert m.asked + [ips[0]] + ips[1..][..i + 1] == m.asked + ips[..i + 2];
  }

  lemma {:induction false} AnsweredFirst(service: Oracle, m: Memo, ips: seq<string>)
    requires ips != [] && Lookup(service, m, ips[0]).ip.Some?
    ensures var first := Lookup(service, m, ips[0]); AnsweredAt(service, m, ips, first.ip.value, first.memo, 0)
  {
    assert m.asked + ips[..0] == m.asked && ips[..1] == [ips[0]];
  }

  /** `query_by_reachable`, whatever the service replies and whatever is remembered. */
  lemma {:induction false} LookupFirstMeaning(service: Oracle, m: Memo, ips: seq<string>)
    ensures FirstDecides(service, m, ips, LookupFirst(service, m, ips))
    decreases |ips|
  {
    if ips == [] {
      assert m.asked + ips == m.asked;
    } else if Lookup(service, m, ips[0]).ip.Some? {
      AnsweredFirst(service, m, ips);
    } else {
      var rest := Memo(m.cache, m.asked + [ips[0]]);
      LookupFirstMeaning(service, rest, ips[1..]);
      LaterDecides(service, m, ips, LookupFirst(service, rest, ips[1..]));
    }
  }

  lemma {:induction false} LaterDecides(service: Oracle, m: Memo, ips: seq<string>, a: Answer)
    requires ips != [] && Refused(service, m, ips, 1)
    requires FirstDecides(service, Memo(m.cache, m.asked + [ips[0]]), ips[1..], a)
    ensures FirstDecides(service, m, ips, a)
  {
    if a.ip.Some? {
      var i: nat :| AnsweredAt(service, Memo(m.cache, m.asked + [ips[0]]), ips[1..], a.ip.value, a.memo, i);
      AnsweredLater(service, m, ips, a.ip.value, a.memo, i);
    } else {
      RefusedLater(service, m, ips, |ips| - 1);
      assert m.asked + [ips[0]] + ips[1..] == m.asked + ips;
    }
  }

  /** Whatever is asked, the memo stays faithful and forgets nothing. */
  lemma {:induction false} LookupFirstFaithful(service: Oracle, m: Memo, ips: seq<string>)
    requires Faithful(service, m)
    ensures var a := LookupFirst(service, m, ips); Faithful(service, a.memo) && Extends(m, a.memo)
    decreases |ips|
  {
    if ips != [] {
      LookupFaithful(service, m, ips[0]);
      if Lookup(service, m, ips[0]).ip.None? {
        LookupFirstFaithful(service, Lookup(service, m, ips[0]).memo, ips[1..]);
      }
    }
  }

  // ---------- the machine: store and memo ----------

  /** What reaches the loop, before any lookup. */
  datatype Arrival = Arrived(at: nat, report: Report) | Timer(at: nat)

  /** How an endpoint's address is printed for the service. */
  type Printer = EndpointInfo -> string

  function Addresses(show: Printer, addresses: seq<EndpointInfo>): seq<string> {
    seq(|addresses|, i requires 0 <= i < |addresses| => show(addresses[i]))
  }

  /** The lookup the loop makes for a report: an online report asks about its first address, a
      reachable report about all of them in turn while the peer has no country. */
  function Consult(service: Oracle, show: Printer, m: Memo, rec: Record, a: Arrival): Answer {
    match a
    case Arrived(_, OnlineReport(o)) =>
      if o.info.addresses == [] then Answer(None, m) else Lookup(service, m, show(o.info.addresses[0]))
    case Arrived(at, ReachableReport(p, _)) =>
      if Get(rec, at, Country).GetOr("") == "" then LookupFirst(service, m, Addresses(show, p.addresses))
      else Answer(None, m)
    case _ => Answer(None, m)
  }

  datatype Machine = Machine(events: seq<Event>, memo: Memo)

  /** The loop's run over arrivals: each event it handled, with the answer it got, and the memo it
      ends with. The store it leaves is that of the events. */
  function Drive(env: Env, service: Oracle, show: Printer, arrivals: seq<Arrival>): Machine {
    if arrivals == [] then Machine([], Memo(map[], []))
    else
      var before, a := Drive(env, service, show, arrivals[..|arrivals| - 1]), arrivals[|arrivals| - 1];
      match a
      case Timer(t) => Machine(before.events + [Ticked(t)], before.memo)
      case Arrived(at, report) =>
        var rec := View(RunStore(env, before.events), report.Subject());
        var answer := Consult(service, show, before.memo, rec, a);
        Machine(before.events + [Reported(Input(at, report, answer.ip))], answer.memo)
  }

  /** Arrivals are handled in the order of their times, none of which lies after `t`. */
  predicate Chronological(arrivals: seq<Arrival>, t: nat) {
    arrivals == [] || (arrivals[|arrivals| - 1].at <= t
                       && Chronological(arrivals[..|arrivals| - 1], arrivals[|arrivals| - 1].at))
  }

  /** What marci's store and memo are at `now`, after these arrivals. */
  ghost predicate IsOutcome(env: Env, service: Oracle, show: Printer, arrivals: seq<Arrival>, now: nat,
                            db: Db, memo: Memo)
  {
    && Chronological(arrivals, now)
    && db == RunStore(env, Drive(env, service, show, arrivals).events)
    && memo == Drive(env, service, show, arrivals).memo
  }

  lemma {:induction false} DriveInOrder(env: Env, service: Oracle, show: Printer, arrivals: seq<Arrival>, t: nat)
    requires Chronological(arrivals, t)
    ensures InOrder(Drive(env, service, show, arrivals).events, t)
  {
    if arrivals != [] {
      var front, a := arrivals[..|arrivals| - 1], arrivals[|arrivals| - 1];
      DriveInOrder(env, service, show, front, a.at);
      var e := DriveLast(env, service, show, arrivals);
      InOrderSnoc(Drive(env, service, show, front).events, e, t);
    }
  }

  lemma {:induction false} DriveLast(env: Env, service: Oracle, show: Printer, arrivals: seq<Arrival>)
      returns (e: Event)
    requires arrivals != []
    ensures Drive(env, service, show, arrivals).events ==
            Drive(env, service, show, arrivals[..|arrivals| - 1]).events + [e]
    ensures e.Time() == arrivals[|arrivals| - 1].at
  {
    var events := Drive(env, service, show, arrivals).events;
    e := events[|events| - 1];
  }

  lemma {:induction false} InOrderSnoc(es: seq<Event>, e: Event, t: nat)
    requires InOrder(es, e.Time()) && e.Time() <= t
    ensures InOrder(es + [e], t)
  {
    assert (es + [e])[..|es|] == es;
  }

  /** The addresses a report makes the loop look up. */
  function Carried(report: Report): seq<EndpointInfo> {
    match report
    case OnlineReport(o) => if o.info.addresses == [] then [] else [o.info.addresses[0]]
    case ReachableReport(p, _) => p.addresses
    case UnknownReport(_) => []
  }

  /** `d` is what is remembered about an address the report carries. */
  ghost predicate AnswersFor(show: Printer, memo: Memo, report: Report, d: IpDetails) {
    exists e :: e in Carried(report) && show(e) in memo.cache && memo.cache[show(e)] == d
  }

  /** A sound answer: the memo stays faithful, forgets nothing, and remembers the answer given, under
      an address the report carries. */
  ghost predicate SoundAnswer(service: Oracle, show: Printer, m: Memo, report: Report, r: Answer) {
    && Faithful(service, r.memo) && Extends(m, r.memo)
    && (r.ip.Some? ==> AnswersFor(show, r.memo, report, r.ip.value))
  }

  lemma {:induction false} OnlineAnswerSound(service: Oracle, show: Printer, m: Memo, o: PeerInfo)
    requires Faithful(service, m) && o.info.addresses != []
    ensures SoundAnswer(service, show, m, OnlineReport(o), Lookup(service, m, show(o.info.addresses[0])))
  {
    LookupFaithful(service, m, show(o.info.addresses[0]));
    assert o.info.addresses[0] in Carried(OnlineReport(o));
  }

  lemma {:induction false} ReachableAnswerSound(service: Oracle, show: Printer, m: Memo, p: NodeMetaInfo,
                                                from: NodeMetaInfo)
    requires Faithful(service, m)
    ensures SoundAnswer(service, show, m, ReachableReport(p, from),
                        LookupFirst(service, m, Addresses(show, p.addresses)))
  {
    var ips := Addresses(show, p.addresses);
    var r := LookupFirst(service, m, ips);
    LookupFirstFaithful(service, m, ips);
    LookupFirstMeaning(service, m, ips);
    if r.ip.Some? {
      var i: nat :| AnsweredAt(service, m, ips, r.ip.value, r.memo, i);
      assert p.addresses[i] in Carried(ReachableReport(p, from)) && show(p.addresses[i]) == ips[i];
    }
  }

  lemma {:induction false} ConsultSound(service: Oracle, show: Printer, m: Memo, rec: Record, a: Arrival)
    requires Faithful(service, m) && a.Arrived?
    ensures SoundAnswer(service, show, m, a.report, Consult(service, show, m, rec, a))
  {
    match a.report {
      case OnlineReport(o) =>
        if o.info.addresses != [] {
          OnlineAnswerSound(service, show, m, o);
        }
      case ReachableReport(p, from) => ReachableAnswerSound(service, show, m, p, from);
      case UnknownReport(_) =>
    }
  }

  ghost predicate AnswersRemembered(show: Printer, m: Machine) {
    forall i | 0 <= i < |m.events| && m.events[i].Reported? && m.events[i].input.ip.Some? ::
      AnswersFor(show, m.memo, m.events[i].input.report, m.events[i].input.ip.value)
  }

  lemma {:induction false} RememberedStays(show: Printer, m: Memo, later: Memo, report: Report, d: IpDetails)
    requires Extends(m, later) && AnswersFor(show, m, report, d)
    ensures AnswersFor(show, later, report, d)
  {
    var e :| e in Carried(report) && show(e) in m.cache && m.cache[show(e)] == d;
    assert show(e) in later.cache && later.cache[show(e)] == d;
  }

  /** Over every run, whatever the service replies: the memo holds each address's one success, and
      every answer any report got is still remembered, under an address that report carried. */
  lemma {:induction false} MemoOverRuns(env: Env, service: Oracle, show: Printer, arrivals: seq<Arrival>)
    ensures var m := Drive(env, service, show, arrivals);
            && Faithful(service, m.memo) && AnswersRemembered(show, m)
            && |m.events| == |arrivals|
    ensures arrivals != [] ==>
              Extends(Drive(env, service, show, arrivals[..|arrivals| - 1]).memo,
                      Drive(env, service, show, arrivals).memo)
  {
    if arrivals != [] {
      var front, a := arrivals[..|arrivals| - 1], arrivals[|arrivals| - 1];
      MemoOverRuns(env, service, show, front);
      var before := Drive(env, service, show, front);
      if a.Arrived? {
        var rec := View(RunStore(env, before.events), a.report.Subject());
        ConsultSound(service, show, before.memo, rec, a);
        var answer := Consult(service, show, before.memo, rec, a);
        forall i | 0 <= i < |before.events| && before.events[i].Reported? && before.events[i].input.ip.Some?
          ensures AnswersFor(show, answer.memo, before.events[i].input.report, before.events[i].input.ip.value)
        {
          var x := before.events[i].input;
          RememberedStays(show, before.memo, answer.memo, x.report, x.ip.value);
        }
      }
    }
  }

  lemma {:induction false} MemoNeverChanges(env: Env, service: Oracle, show: Printer, arrivals: seq<Arrival>, k: nat)
    requires k <= |arrivals|
    ensures Extends(Drive(env, service, show, arrivals[..k]).memo, Drive(env, service, show, arrivals).memo)
    decreases |arrivals|
  {
    if k < |arrivals| {
      var front := arrivals[..|arrivals| - 1];
      MemoNeverChanges(env, service, show, front, k);
      assert front[..k] == arrivals[..k];
      MemoOverRuns(env, service, show, arrivals);
    } else {
      assert arrivals[..k] == arrivals;
    }
  }

  lemma {:induction false} SourceIsAnEvents(es: seq<Event>, p: string)
    ensures var d := GeoSource(Own(es, p));
            d.Some? ==> exists i :: 0 <= i < |es| && es[i].About(p) && es[i].input.ip == d
  {
    if es != [] {
      var front, last := es[..|es| - 1], es[|es| - 1];
      SourceIsAnEvents(front, p);
      if last.About(p) {
        assert Own(es, p)[..|Own(es, p)| - 1] == Own(front, p);
      } else {
        assert Own(es, p) == Own(front, p);
      }
      var d := GeoSource(Own(es, p));
      if d.Some? && !(last.About(p) && d == last.input.ip) {
        var i :| 0 <= i < |front| && front[i].About(p) && front[i].input.ip == d;
        assert es[i] == front[i];
      }
    }
  }

  /** The four geo keys of a peer: the four parts of one answer, each under its own key, or none. */
  predicate ShowsPlace(db: Db, p: string, d: Option<IpDetails>) {
    match d
    case None =>
      && Find(db, Format(Country, p)) == None && Find(db, Format(City, p)) == None
      && Find(db, Format(Region, p)) == None && Find(db, Format(Pos, p)) == None
    case Some(ip) =>
      && Find(db, Format(Country, p)) == Some(Entry(Text(ip.country), None))
      && Find(db, Format(City, p)) == Some(Entry(Text(ip.city), None))
      && Find(db, Format(Region, p)) == Some(Entry(Text(ip.region), None))
      && Find(db, Format(Pos, p)) == Some(Entry(Text(ip.loc), None))
  }

  /** At every arm boundary of every run, the four geo fields a peer shows are all absent, or the fields
      of what is remembered about one address that a report of this very peer carried. */
  lemma {:induction false} GeoFieldsAgree(env: Env, service: Oracle, show: Printer, arrivals: seq<Arrival>, p: string)
      returns (d: Option<IpDetails>)
    ensures var m := Drive(env, service, show, arrivals);
            && (d.Some? ==> exists i :: 0 <= i < |m.events| && m.events[i].About(p)
                                        && AnswersFor(show, m.memo, m.events[i].input.report, d.value))
            && ShowsPlace(RunStore(env, m.events), p, d)
  {
    var m := Drive(env, service, show, arrivals);
    MemoOverRuns(env, service, show, arrivals);
    d := GeoSource(Own(m.events, p));
    SourceIsAnEvents(m.events, p);
    if d.Some? {
      var i :| 0 <= i < |m.events| && m.events[i].About(p) && m.events[i].input.ip == d;
      assert AnswersFor(show, m.memo, m.events[i].input.report, d.value);
    }
    Locality(env, m.events, p);
    forall f | IsGeo(f)
      ensures Find(RunStore(env, m.events), Format(f, p)) == GeoEntry(d, f)
    {
      ViewFind(RunStore(env, m.events), p, f);
      GeoFromOneSource(env, Own(m.events, p), f);
    }
    FourFields(RunStore(env, m.events), p, d);
  }

  lemma {:induction false} FourFields(db: Db, p: string, d: Option<IpDetails>)
    requires forall f | IsGeo(f) :: Find(db, Format(f, p)) == GeoEntry(d, f)
    ensures ShowsPlace(db, p, d)
  {
    assert IsGeo(Country) && IsGeo(City) && IsGeo(Region) && IsGeo(Pos);
  }

  // ---------- who is asked ----------

  /** An online report with an address makes the loop ask about its first one, and nobody else: what is
      remembered is not asked again. */
  lemma {:induction false} OnlineAsks(env: Env, service: Oracle, show: Printer, arrivals: seq<Arrival>, t: nat,
                                      o: PeerInfo)
    ensures var m := Drive(env, service, show, arrivals);
            var n := Drive(env, service, show, arrivals + [Arrived(t, OnlineReport(o))]);
            && n.events != [] && n.events[|n.events| - 1].Reported?
            && var ip := n.events[|n.events| - 1].input.ip;
               if o.info.addresses == [] then ip == None && n.memo == m.memo
               else
                 var first := show(o.info.addresses[0]);
                 if first in m.memo.cache then ip == Some(m.memo.cache[first]) && n.memo == m.memo
                 else
                   && ip == service(|m.memo.asked|, first) && n.memo.asked == m.memo.asked + [first]
                   && n.memo.cache == if ip.Some? then m.memo.cache[first := ip.value] else m.memo.cache
  {
    var a := Arrived(t, OnlineReport(o));
    assert (arrivals + [a])[..|arrivals|] == arrivals;
  }

  /** A reachable report makes it ask about the peer's addresses in turn, while the peer has no country. */
  lemma {:induction false} ReachableAsks(env: Env, service: Oracle, show: Printer, arrivals: seq<Arrival>, t: nat,
                                         p: NodeMetaInfo, from: NodeMetaInfo, ips: seq<string>)
    requires |ips| == |p.addresses| && forall i | 0 <= i < |ips| :: ips[i] == show(p.addresses[i])
    ensures var m := Drive(env, service, show, arrivals);
            var n := Drive(env, service, show, arrivals + [Arrived(t, ReachableReport(p, from))]);
            && n.events != [] && n.events[|n.events| - 1].Reported?
            && var ip := n.events[|n.events| - 1].input.ip;
               var country := Get(RunStore(env, m.events), t, Format(Country, p.peerId));
               if country == None || country == Some("") then FirstDecides(service, m.memo, ips, Answer(ip, n.memo))
               else ip == None && n.memo == m.memo
  {
    var m := Drive(env, service, show, arrivals);
    assert (arrivals + [Arrived(t, ReachableReport(p, from))])[..|arrivals|] == arrivals;
    assert ips == Addresses(show, p.addresses);
    ViewFind(RunStore(env, m.events), p.peerId, Country);
    LookupFirstMeaning(service, m.memo, ips);
  }

  /** Nothing else makes it ask anybody. */
  lemma {:induction false} OthersAskNobody(env: Env, service: Oracle, show: Printer, arrivals: seq<Arrival>, a: Arrival)
    requires a.Timer? || a.report.UnknownReport?
    ensures Drive(env, service, show, arrivals + [a]).memo == Drive(env, service, show, arrivals).memo
  {
    assert (arrivals + [a])[..|arrivals|] == arrivals;
  }

  // ---------- locality of the whole machine ----------

  /** The service's reply depends on the address alone. */
  ghost predicate Steady(service: Oracle) {
    forall n, k, ip :: service(n, ip) == service(k, ip)
  }

  function FirstAnswer(service: Oracle, ips: seq<string>): Option<IpDetails>
    decreases |ips|
  {
    if ips == [] then None
    else if service(0, ips[0]).Some? then service(0, ips[0])
    else FirstAnswer(service, ips[1..])
  }

  /** The answer with no memo in between. */
  function Ask(service: Oracle, show: Printer, rec: Record, a: Arrival): Option<IpDetails> {
    match a
    case Arrived(_, OnlineReport(o)) =>
      if o.info.addresses == [] then None else service(0, show(o.info.addresses[0]))
    case Arrived(at, ReachableReport(p, _)) =>
      if Get(rec, at, Country).GetOr("") == "" then FirstAnswer(service, Addresses(show, p.addresses)) else None
    case _ => None
  }

  lemma {:induction false} MemoTransparent(service: Oracle, m: Memo, ip: string)
    requires Faithful(service, m) && Steady(service)
    ensures Lookup(service, m, ip).ip == service(0, ip)
  {
    if ip in m.cache {
      var n: nat :| OneSuccess(service, m.asked, ip, m.cache[ip], n);
      assert service(n, ip) == service(0, ip);
    }
  }

  lemma {:induction false} MemoTransparentFirst(service: Oracle, m: Memo, ips: seq<string>)
    requires Faithful(service, m) && Steady(service)
    ensures LookupFirst(service, m, ips).ip == FirstAnswer(service, ips)
    decreases |ips|
  {
    if ips != [] {
      MemoTransparent(service, m, ips[0]);
      LookupFaithful(service, m, ips[0]);
      MemoTransparentFirst(service, Lookup(service, m, ips[0]).memo, ips[1..]);
    }
  }

  function OwnArrivals(arrivals: seq<Arrival>, p: string): seq<Arrival> {
    if arrivals == [] then []
    else
      var last := arrivals[|arrivals| - 1];
      OwnArrivals(arrivals[..|arrivals| - 1], p)
      + (if last.Arrived? && last.report.Subject() == p then [last] else [])
  }

  /** A peer's inputs when it is the only peer in the world. */
  function Alone(env: Env, service: Oracle, show: Printer, arrivals: seq<Arrival>): seq<Input> {
    if arrivals == [] then []
    else
      var before, a := Alone(env, service, show, arrivals[..|arrivals| - 1]), arrivals[|arrivals| - 1];
      match a
      case Timer(_) => before
      case Arrived(at, report) => before + [Input(at, report, Ask(service, show, Run(env, before), a))]
  }

  lemma {:induction false} OwnSnoc(es: seq<Event>, e: Event, p: string)
    ensures Own(es + [e], p) == Own(es, p) + (if e.About(p) then [e.input] else [])
  {
    assert (es + [e])[..|es|] == es;
  }

  /** Locality of store, memo and service together: with a steady service, a peer's keys after any
      interleaving are what its own arrivals would have left had no other peer ever been heard of. */
  lemma {:induction false} MachineLocality(env: Env, service: Oracle, show: Printer, arrivals: seq<Arrival>, p: string)
    requires Steady(service)
    ensures Own(Drive(env, service, show, arrivals).events, p) == Alone(env, service, show, OwnArrivals(arrivals, p))
    ensures View(RunStore(env, Drive(env, service, show, arrivals).events), p)
            == Run(env, Alone(env, service, show, OwnArrivals(arrivals, p)))
  {
    var m := Drive(env, service, show, arrivals);
    if arrivals != [] {
      var front, a := arrivals[..|arrivals| - 1], arrivals[|arrivals| - 1];
      MachineLocality(env, service, show, front, p);
      var before := Drive(env, service, show, front);
      var e := m.events[|m.events| - 1];
      assert m.events == before.events + [e];
      OwnSnoc(before.events, e, p);
      if a.Arrived? && a.report.Subject() == p {
        MachineStep(env, service, show, front, a);
        assert OwnArrivals(arrivals, p)[..|OwnArrivals(arrivals, p)| - 1] == OwnArrivals(front, p);
      } else {
        assert OwnArrivals(arrivals, p) == OwnArrivals(front, p);
        assert Own(m.events, p) == Own(before.events, p);
      }
    }
    Locality(env, m.events, p);
  }

  lemma {:induction false} MachineStep(env: Env, service: Oracle, show: Printer, front: seq<Arrival>, a: Arrival)
    requires Steady(service) && a.Arrived?
    ensures var before := Drive(env, service, show, front);
            var rec := View(RunStore(env, before.events), a.report.Subject());
            Consult(service, show, before.memo, rec, a).ip == Ask(service, show, rec, a)
  {
    var before := Drive(env, service, show, front);
    MemoOverRuns(env, service, show, front);
    match a.report {
      case OnlineReport(o) =>
        if o.info.addresses != [] {
          MemoTransparent(service, before.memo, show(o.info.addresses[0]));
        }
      case ReachableReport(p, _) => MemoTransparentFirst(service, before.memo, Addresses(show, p.addresses));
      case UnknownReport(_) =>
    }
  }
}
