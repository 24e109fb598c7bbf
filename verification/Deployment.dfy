/** marci and the query service on one Redis: what a reader is shown, told from what arrived at marci. */
module Deployment {
  import opened Wrappers
  import opened Redis
  import opened Keys
  import opened Types
  import opened Arms
  import opened Store
  import opened Geo
  import opened Exposed
  import Facts
  import Interleaving
  import Marci

  /** Everything marci has handled, with the answers its lookups got. */
  ghost function Handled(m: Marci.Marci): seq<Event>
    reads m, m.info
  {
    Drive(m.env, m.info.service, m.show, m.arrivals).events
  }

  predicate DotFreeArrivals(arrivals: seq<Arrival>) {
    forall i | 0 <= i < |arrivals| && arrivals[i].Arrived? :: DotFree(arrivals[i].report.Subject())
  }

  lemma {:induction false} SubjectsArrived(env: Env, service: Oracle, show: Printer, arrivals: seq<Arrival>)
    requires DotFreeArrivals(arrivals)
    ensures DotFreeSubjects(Drive(env, service, show, arrivals).events)
  {
    if arrivals != [] {
      var front, a := arrivals[..|arrivals| - 1], arrivals[|arrivals| - 1];
      SubjectsArrived(env, service, show, front);
      var before, after := Drive(env, service, show, front).events, Drive(env, service, show, arrivals).events;
      forall i | 0 <= i < |after| && after[i].Reported?
        ensures DotFree(after[i].input.report.Subject())
      {
        assert i < |before| ==> after[i] == before[i];
      }
    }
  }

  /** The table of a network, asked for after anything at all has arrived at marci: one row for each
      peer ever reported reachable there whose online, ex or unknown lease is live, and no other. */
  method ShowTable(m: Marci.Marci, service: Service, network: Network)
      returns (rows: seq<Row>, ghost owners: seq<string>)
    requires m.Valid() && m.env.Sound() && service.con == m.con && network != Dev
    requires DotFreeArrivals(m.arrivals)
    modifies m.con`now
    ensures m.Valid() && m.con.now == old(m.con.now)
    ensures IsTable(service.read, m.con.data, m.con.now, network, rows, owners)
    ensures forall p :: p in owners <==>
              Facts.ReportedUnder(Own(Handled(m), p), network) && HasStatus(m.env, Own(Handled(m), p), m.con.now)
  {
    ghost var es := Handled(m);
    SubjectsArrived(m.env, m.info.service, m.show, m.arrivals);
    DriveInOrder(m.env, m.info.service, m.show, m.arrivals, m.con.now);
    RunsAreReadable(m.env, es);
    rows, owners := GetPeersAtOnce(service, network);
    forall p
      ensures p in owners <==> Facts.ReportedUnder(Own(es, p), network) && HasStatus(m.env, Own(es, p), m.con.now)
    {
      TableOfRun(service.read, m.env, es, m.con.now, network, rows, owners, p);
    }
  }

  // ---------- freshness of what is shown ----------

  lemma {:induction false} SightingShown(rec: Record, now: nat)
    requires Interleaving.Seen(rec).Some?
    ensures ReadTimestamp(Get(rec, now, LastSeen)) == Interleaving.Seen(rec).value
  {}

  /** Read between any two arms, however marci's commands were timed: every row shows a last sighting
      no older, to the second, than the longer of the two timeouts. */
  lemma {:induction false} RowsAreFresh(env: Env, run: seq<Interleaving.State>, read: FloatReader, p: string, row: Row)
    requires Interleaving.IsRun(env, run) && run[|run| - 1].pc == Interleaving.Idle
    requires RowOf(read, View(run[|run| - 1].db, p), run[|run| - 1].now) == Some(row)
    ensures var age := run[|run| - 1].now / 1000 - row.lastSeen; age <= env.timeout || age <= env.unknownTimeout
  {
    var s := run[|run| - 1];
    ViewFind(s.db, p, Online);
    ViewFind(s.db, p, Online2);
    ViewFind(s.db, p, Unknown);
    Interleaving.DisplayFreshness(env, run, p, Online);
    Interleaving.DisplayFreshness(env, run, p, Online2);
    Interleaving.DisplayFreshness(env, run, p, Unknown);
    SightingShown(View(s.db, p), s.now);
  }
}
