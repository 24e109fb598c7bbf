/** The model that takes an arm to happen at one instant is part of the one in which it happens command by
    command: every timed history of arrivals is a run of the latter, with the same store at its end. */
module Simulation {
  import opened Wrappers
  import opened Redis
  import opened Keys
  import opened Types
  import opened Arms
  import opened Interleaving
  import opened OverTime
  import opened Store
  import Induction
  import Numerals
  import Race

  /** The same share of every peer, and the same service time stamp. */
  ghost predicate SameStore(a: Db, b: Db) {
    (forall p :: View(a, p) == View(b, p)) && Find(a, LAST_UPDATE) == Find(b, LAST_UPDATE)
  }

  /** Nothing but the share of `p` differs. */
  ghost predicate SameBut(a: Db, b: Db, p: string) {
    (forall q | q != p :: View(a, q) == View(b, q)) && Find(a, LAST_UPDATE) == Find(b, LAST_UPDATE)
  }

  // ---------- one arm ----------

  /** The arms that end with the service time stamp. */
  predicate WillStamp(pc: Pc) {
    pc.ReachableDetails? || pc.ReachableSeen? || pc.ReachableCountry? || pc.ReachableGeo? || pc.ServiceStamp?
  }

  lemma {:induction false} StampIsDue(env: Env, rec: Record, now: nat, pc: Pc, p: string)
    requires pc.About(p)
    ensures WillStamp(Act(env, rec, now, pc).next) <==> WillStamp(pc)
  {}

  lemma {:induction false} PerformKeepsOthers(env: Env, s: State, p: string)
    requires s.pc.About(p)
    ensures var t := Perform(env, s, p); SameBut(s.db, t.db, p) && (WillStamp(t.pc) <==> WillStamp(s.pc))
  {
    var t := Perform(env, s, p);
    StampIsDue(env, View(s.db, p), s.now, s.pc, p);
    ServiceStamps(env, s, p);
    forall q | q != p
      ensures View(s.db, q) == View(t.db, q)
    {
      PerformOn(env, s, p, q);
    }
  }

  ghost predicate LikeAt(run: seq<State>, n: nat, p: string, k: nat) {
    n < |run| && k < |run| && SameBut(run[n].db, run[k].db, p) && (WillStamp(run[k].pc) <==> WillStamp(run[n].pc))
  }

  lemma {:induction false} SameButTwice(a: Db, b: Db, c: Db, p: string)
    requires SameBut(a, b, p) && SameBut(b, c, p)
    ensures SameBut(a, c, p)
  {}

  lemma {:induction false} StaysLike(env: Env, run: seq<State>, n: nat, p: string, k: nat)
    requires n <= k < |run| - 1 && run[k].pc.About(p) && run[k + 1] == Perform(env, run[k], p)
    requires LikeAt(run, n, p, k)
    ensures LikeAt(run, n, p, k + 1)
  {
    PerformKeepsOthers(env, run[k], p);
    SameButTwice(run[n].db, run[k].db, run[k + 1].db, p);
  }

  lemma {:induction false} OthersKept(env: Env, run: seq<State>, n: nat, p: string)
    requires n < |run| && Race.CarriesOn(env, run, n, p)
    ensures LikeAt(run, n, p, |run| - 1)
  {
    forall k: nat | n <= k < |run| - 1 && LikeAt(run, n, p, k)
      ensures LikeAt(run, n, p, k + 1)
    {
      StaysLike(env, run, n, p, k);
    }
    Induction.Carries((k: nat) => LikeAt(run, n, p, k), n, |run| - 1);
  }

  /** What an arm taken up at once has done when it is over. */
  ghost predicate Served(env: Env, a: Db, b: Db, x: Input, stamped: bool) {
    var p := x.report.Subject();
    && View(b, p) == Next(env, View(a, p), x) && (forall q | q != p :: View(b, q) == View(a, q))
    && Find(b, LAST_UPDATE) ==
       if stamped then Some(Entry(Text(Numerals.Decimal(x.at / 1000)), None)) else Find(a, LAST_UPDATE)
  }

  lemma {:induction false} ArmOver(env: Env, run: seq<State>, x: Input) returns (more: seq<State>)
    requires IsRun(env, run) && run[|run| - 1].pc == Idle && run[|run| - 1].now == x.at
    ensures IsRun(env, more)
    ensures var t := more[|more| - 1];
            && t.now == x.at && t.pc == (if x.report.ReachableReport? then ServiceStamp else Idle)
            && Served(env, run[|run| - 1].db, t.db, x, false)
  {
    var s, p := run[|run| - 1], x.report.Subject();
    var taken := Race.TakeUp(env, run, x.report, x.ip);
    more := Race.Finishes(env, taken, p);
    assert more[|run|] == taken[|run|];
    OthersKept(env, more, |run|, p);
    FinishIsHandle(env, View(s.db, p), x);
    HandleIsNext(env, View(s.db, p), x);
  }

  lemma {:induction false} StampOver(env: Env, run: seq<State>) returns (more: seq<State>)
    requires IsRun(env, run) && run[|run| - 1].pc == ServiceStamp
    ensures IsRun(env, more)
    ensures var s, t := run[|run| - 1], more[|more| - 1];
            && t.pc == Idle && t.now == s.now && (forall q :: View(t.db, q) == View(s.db, q))
            && Find(t.db, LAST_UPDATE) == Some(Entry(Text(Numerals.Decimal(s.now / 1000)), None))
  {
    var s := run[|run| - 1];
    var t := Perform(env, s, "");
    forall q
      ensures View(t.db, q) == View(s.db, q) && t.pc == Idle
    {
      PerformStamp(env, s, "", q);
      StampTurn(env, View(s.db, ""), s.now);
    }
    ServiceStamps(env, s, "");
    assert Step(env, s, t);
    Race.RunSnoc(env, run, t);
    more := run + [t];
  }

  // ---------- one event ----------

  lemma {:induction false} ReportServed(env: Env, run: seq<State>, x: Input) returns (more: seq<State>)
    requires IsRun(env, run) && run[|run| - 1].pc == Idle && run[|run| - 1].now == x.at
    ensures IsRun(env, more)
    ensures var t := more[|more| - 1];
            t.now == x.at && t.pc == Idle && Served(env, run[|run| - 1].db, t.db, x, x.report.ReachableReport?)
  {
    more := ArmOver(env, run, x);
    if x.report.ReachableReport? {
      more := StampOver(env, more);
    }
  }

  lemma {:induction false} TimerServed(env: Env, run: seq<State>) returns (more: seq<State>)
    requires IsRun(env, run) && run[|run| - 1].pc == Idle
    ensures IsRun(env, more)
    ensures var s, t := run[|run| - 1], more[|more| - 1];
            && t.pc == Idle && t.now == s.now && (forall q :: View(t.db, q) == View(s.db, q))
            && Find(t.db, LAST_UPDATE) == Some(Entry(Text(Numerals.Decimal(s.now / 1000)), None))
  {
    var due := run[|run| - 1].(pc := ServiceStamp);
    assert Step(env, run[|run| - 1], due);
    Race.RunSnoc(env, run, due);
    more := StampOver(env, run + [due]);
  }

  lemma {:induction false} ServedAlike(env: Env, a: Db, b: Db, db: Db, x: Input)
    requires SameStore(a, db) && Served(env, a, b, x, x.report.ReachableReport?)
    ensures SameStore(b, Serve(env, db, Reported(x)))
  {
    forall q
      ensures View(b, q) == View(Serve(env, db, Reported(x)), q)
    {
      ServeRefines(env, db, Reported(x), q);
    }
    StampServed(env, db, Reported(x));
  }

  lemma {:induction false} TickedAlike(env: Env, a: Db, b: Db, db: Db, t: nat)
    requires SameStore(a, db) && (forall q :: View(b, q) == View(a, q))
    requires Find(b, LAST_UPDATE) == Some(Entry(Text(Numerals.Decimal(t / 1000)), None))
    ensures SameStore(b, Serve(env, db, Ticked(t)))
  {
    forall q
      ensures View(b, q) == View(Serve(env, db, Ticked(t)), q)
    {
      ServeRefines(env, db, Ticked(t), q);
    }
    StampServed(env, db, Ticked(t));
  }

  lemma {:induction false} EventServed(env: Env, run: seq<State>, db: Db, e: Event) returns (more: seq<State>)
    requires IsRun(env, run) && run[|run| - 1].pc == Idle && run[|run| - 1].now == e.Time()
    requires SameStore(run[|run| - 1].db, db)
    ensures IsRun(env, more)
    ensures var t := more[|more| - 1]; t.now == e.Time() && t.pc == Idle && SameStore(t.db, Serve(env, db, e))
  {
    match e {
      case Reported(x) =>
        more := ReportServed(env, run, x);
        ServedAlike(env, run[|run| - 1].db, more[|more| - 1].db, db, x);
      case Ticked(t) =>
        more := TimerServed(env, run);
        TickedAlike(env, run[|run| - 1].db, more[|more| - 1].db, db, t);
    }
  }

  lemma {:induction false} TimePasses(env: Env, run: seq<State>, t: nat) returns (more: seq<State>)
    requires IsRun(env, run) && run[|run| - 1].now <= t
    ensures IsRun(env, more) && more[|more| - 1] == run[|run| - 1].(now := t)
  {
    var later := run[|run| - 1].(now := t);
    assert Step(env, run[|run| - 1], later);
    Race.RunSnoc(env, run, later);
    more := run + [later];
  }

  // ---------- every history ----------

  /** Every timed history of events is a run of the model in which arms go command by command: one that
      ends idle, at any time from the last event on, with the same store. */
  lemma {:induction false} EveryHistoryRuns(env: Env, es: seq<Event>, t: nat) returns (run: seq<State>)
    requires InOrder(es, t)
    ensures IsRun(env, run)
    ensures var s := run[|run| - 1]; s.now == t && s.pc == Idle && SameStore(s.db, RunStore(env, es))
    decreases |es|
  {
    if es == [] {
      run := [State(map[], 0, Idle)];
    } else {
      var front, e := es[..|es| - 1], es[|es| - 1];
      run := EveryHistoryRuns(env, front, e.Time());
      run := EventServed(env, run, RunStore(env, front), e);
    }
    run := TimePasses(env, run, t);
  }
}
