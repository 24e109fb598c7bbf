/** A query reads the three status listings one after the other while marci goes on working. A peer can
    have a status all the time and still be in none of them; here is when. */
module Race {
  import opened Wrappers
  import opened Redis
  import opened Keys
  import opened Types
  import opened Arms
  import opened Interleaving
  import opened OverTime
  import Store
  import Induction

  /** A listing of family `f` in this state has `p`. */
  predicate Shows(s: State, f: Family, p: string) {
    Live(Find(s.db, Format(f, p)), s.now).Some?
  }

  /** The peer is online or unknown in every state from `i` to `k`, and never holds an ex lease. */
  predicate StatusThroughout(run: seq<State>, i: nat, k: nat, p: string)
    requires k < |run|
  {
    forall n | i <= n <= k :: (Shows(run[n], Online, p) || Shows(run[n], Unknown, p)) && !Shows(run[n], Online2, p)
  }

  /** Listed as online at `i`, as ex at `j` and as unknown at `k`: in none of them. */
  predicate Missed(run: seq<State>, i: nat, j: nat, k: nat, p: string)
    requires i <= j <= k < |run|
  {
    !Shows(run[i], Online, p) && !Shows(run[j], Online2, p) && !Shows(run[k], Unknown, p)
  }

  /** Step `a` is the online arm of `p` writing its lease, which was not live before. */
  predicate LeaseWritten(env: Env, run: seq<State>, a: nat, p: string)
    requires a + 1 < |run|
  {
    && run[a].pc.OnlineLease? && run[a].pc.About(p) && run[a + 1] == Perform(env, run[a], p)
    && !Shows(run[a], Online, p) && Shows(run[a + 1], Online, p)
  }

  /** Step `b` ends the unknown lease between the online arm's write and its delete: it is the delete, or
      the lease has just run out. */
  predicate UnknownEnds(run: seq<State>, b: nat, p: string)
    requires b + 1 < |run|
  {
    && BetweenSetAndDelete(run[b].pc) && run[b].pc.About(p)
    && Shows(run[b], Online, p) && Shows(run[b], Unknown, p) && !Shows(run[b + 1], Unknown, p)
  }

  // ---------- one step ----------

  lemma {:induction false} ShowsInView(s: State, f: Family, p: string)
    ensures Shows(s, f, p) <==> Live(Find(Store.View(s.db, p), f), s.now).Some?
  {
    Store.ViewFind(s.db, p, f);
  }

  /** A write makes a key live, or dead, only if it is a write to that key. */
  lemma {:induction false} OtherKey(rec: Record, now: nat, c: Command, f: Family)
    requires c.key != f
    ensures Find(Exec(rec, now, c), f) == Find(rec, f)
  {
    ExecOnly(rec, now, c, f);
  }

  /** What a command of the arm of `p` can do to its online key. */
  lemma {:induction false} OnlineWritten(env: Env, rec: Record, now: nat, pc: Pc)
    requires Holds(env, rec, now, pc)
    requires Live(Find(rec, Online), now) == None && Live(Find(ActOn(env, rec, now, pc), Online), now).Some?
    ensures pc.OnlineLease?
  {
    var a := Act(env, rec, now, pc).action;
    if a.Write? && a.c.key != Online {
      OtherKey(rec, now, a.c, Online);
    }
    if pc.UnknownExpire? {
      ExecOnly(rec, now, a.c, Online);
    }
  }

  /** And to its unknown key. */
  lemma {:induction false} UnknownWritten(env: Env, rec: Record, now: nat, pc: Pc)
    requires Holds(env, rec, now, pc) && env.unknownTimeout > 0
    ensures var after := ActOn(env, rec, now, pc);
            && (Live(Find(rec, Unknown), now).Some? && Live(Find(after, Unknown), now) == None ==>
                  pc.OnlineDel? && Find(after, Online) == Find(rec, Online))
            && (Live(Find(rec, Unknown), now) == None && Live(Find(after, Unknown), now).Some? ==> pc.UnknownSet?)
  {
    var a := Act(env, rec, now, pc).action;
    if a.Write? {
      ExecOnly(rec, now, a.c, Unknown);
      ExecOnly(rec, now, a.c, Online);
    }
  }

  lemma {:induction false} NobodyElses(env: Env, s: State, t: State, p: string, q: string)
    requires (s.pc.About(q) || s.pc.ServiceStamp?) && t == Perform(env, s, q)
    requires s.pc.ServiceStamp? || p != q
    ensures t.now == s.now && Store.View(t.db, p) == Store.View(s.db, p)
  {
    if s.pc.ServiceStamp? {
      PerformStamp(env, s, q, p);
    } else {
      PerformOther(env, s, q, p);
    }
  }

  lemma {:induction false} OnlineAppears(env: Env, s: State, t: State, p: string)
    requires Step(env, s, t) && Holds(env, Store.View(s.db, p), s.now, PcOf(s.pc, p))
    requires !Shows(s, Online, p) && Shows(t, Online, p)
    ensures s.pc.OnlineLease? && s.pc.About(p) && t == Perform(env, s, p)
  {
    ShowsInView(s, Online, p);
    ShowsInView(t, Online, p);
    if q :| (s.pc.About(q) || s.pc.ServiceStamp?) && t == Perform(env, s, q) {
      if s.pc.ServiceStamp? || p != q {
        NobodyElses(env, s, t, p, q);
      } else {
        PerformOn(env, s, p, p);
        OnlineWritten(env, Store.View(s.db, p), s.now, s.pc);
      }
    }
  }

  lemma {:induction false} UnknownGoes(env: Env, s: State, t: State, p: string)
    requires Step(env, s, t) && Holds(env, Store.View(s.db, p), s.now, PcOf(s.pc, p)) && env.unknownTimeout > 0
    requires Shows(s, Unknown, p) && !Shows(t, Unknown, p) && Shows(t, Online, p)
    ensures Shows(s, Online, p) && BetweenSetAndDelete(s.pc) && s.pc.About(p)
  {
    ShowsInView(s, Online, p);
    ShowsInView(t, Online, p);
    ShowsInView(s, Unknown, p);
    ShowsInView(t, Unknown, p);
    if q :| (s.pc.About(q) || s.pc.ServiceStamp?) && t == Perform(env, s, q) {
      if s.pc.ServiceStamp? || p != q {
        NobodyElses(env, s, t, p, q);
      } else {
        PerformOn(env, s, p, p);
        UnknownWritten(env, Store.View(s.db, p), s.now, s.pc);
      }
    } else {
      BothShown(env, s, p);
    }
  }

  /** Online and unknown at once: between the write and the delete. */
  lemma {:induction false} BothShown(env: Env, s: State, p: string)
    requires Holds(env, Store.View(s.db, p), s.now, PcOf(s.pc, p))
    ensures Shows(s, Online, p) && Shows(s, Unknown, p) ==> BetweenSetAndDelete(s.pc) && s.pc.About(p)
  {
    ShowsInView(s, Online, p);
    ShowsInView(s, Unknown, p);
  }

  lemma {:induction false} UnknownStaysAway(env: Env, s: State, t: State, p: string)
    requires Step(env, s, t) && Holds(env, Store.View(s.db, p), s.now, PcOf(s.pc, p)) && env.unknownTimeout > 0
    requires !Shows(s, Unknown, p) && Shows(s, Online, p)
    ensures !Shows(t, Unknown, p)
  {
    ShowsInView(s, Online, p);
    ShowsInView(s, Unknown, p);
    ShowsInView(t, Unknown, p);
    if q :| (s.pc.About(q) || s.pc.ServiceStamp?) && t == Perform(env, s, q) {
      if s.pc.ServiceStamp? || p != q {
        NobodyElses(env, s, t, p, q);
      } else {
        PerformOn(env, s, p, p);
        UnknownWritten(env, Store.View(s.db, p), s.now, s.pc);
      }
    }
  }

  // ---------- over a run ----------

  lemma {:induction false} HoldsAt(env: Env, run: seq<State>, n: nat, p: string)
    requires IsRun(env, run) && n < |run|
    ensures Holds(env, Store.View(run[n].db, p), run[n].now, PcOf(run[n].pc, p))
  {
    var front := run[..n + 1];
    forall i | 0 <= i < |front| - 1
      ensures Step(env, front[i], front[i + 1])
    {
      assert Step(env, run[i], run[i + 1]);
    }
    RunKeepsInv(env, front);
    assert Holds(env, Store.View(front[n].db, p), front[n].now, PcOf(front[n].pc, p));
  }

  /** The first step after which `f` shows, or no longer shows. */
  lemma {:induction false} Changes(run: seq<State>, f: Family, p: string, i: nat, k: nat) returns (n: nat)
    requires i <= k < |run| && Shows(run[i], f, p) != Shows(run[k], f, p)
    ensures i <= n < k && Shows(run[n], f, p) == Shows(run[i], f, p) != Shows(run[n + 1], f, p)
  {
    n := i;
    while Shows(run[n + 1], f, p) == Shows(run[i], f, p)
      invariant i <= n < k && Shows(run[n], f, p) == Shows(run[i], f, p)
      decreases k - n
    {
      n := n + 1;
    }
  }

  lemma {:induction false} NeverAgain(env: Env, run: seq<State>, i: nat, k: nat, b: nat, p: string)
    requires env.Sound() && IsRun(env, run) && k < |run| && i <= b <= k
    requires StatusThroughout(run, i, k, p) && !Shows(run[b], Unknown, p)
    ensures !Shows(run[k], Unknown, p)
    decreases k - b
  {
    if b < k {
      assert Step(env, run[b], run[b + 1]);
      HoldsAt(env, run, b, p);
      UnknownStaysAway(env, run[b], run[b + 1], p);
      NeverAgain(env, run, i, k, b + 1, p);
    }
  }

  lemma {:induction false} MissedSteps(env: Env, run: seq<State>, i: nat, j: nat, k: nat, p: string)
      returns (a: nat, b: nat)
    requires env.Sound() && IsRun(env, run) && i <= j <= k < |run|
    requires StatusThroughout(run, i, k, p) && Missed(run, i, j, k, p)
    ensures i <= a < b < k && LeaseWritten(env, run, a, p) && UnknownEnds(run, b, p)
  {
    b := Changes(run, Unknown, p, i, k);
    assert Step(env, run[b], run[b + 1]);
    HoldsAt(env, run, b, p);
    UnknownGoes(env, run[b], run[b + 1], p);
    a := Changes(run, Online, p, i, b);
    assert Step(env, run[a], run[a + 1]);
    HoldsAt(env, run, a, p);
    OnlineAppears(env, run[a], run[a + 1], p);
  }

  /** The online arm of `p` writes its lease after `i`, and by `k` the unknown lease has ended. */
  predicate OvertakenBy(env: Env, run: seq<State>, i: nat, k: nat, p: string, a: nat, b: nat)
    requires k < |run|
  {
    i <= a < b < k && LeaseWritten(env, run, a, p) && UnknownEnds(run, b, p)
  }

  ghost predicate Overtaken(env: Env, run: seq<State>, i: nat, k: nat, p: string)
    requires k < |run|
  {
    exists a: nat, b: nat :: OvertakenBy(env, run, i, k, p, a, b)
  }

  lemma {:induction false} OvertakenIsMissed(env: Env, run: seq<State>, i: nat, j: nat, k: nat, p: string,
                                             a: nat, b: nat)
    requires env.Sound() && IsRun(env, run) && i <= j <= k < |run|
    requires StatusThroughout(run, i, k, p) && !Shows(run[i], Online, p) && OvertakenBy(env, run, i, k, p, a, b)
    ensures Missed(run, i, j, k, p)
  {
    NeverAgain(env, run, i, k, b + 1, p);
    assert !Shows(run[j], Online2, p);
  }

  /** A peer that is not listed as online, and has a status the whole time, is missed by all three
      listings exactly when its online arm writes the lease after the first of them and the unknown lease
      has ended, by that arm's delete or by itself, when the last is made. */
  lemma {:induction false} MissedExactly(env: Env, run: seq<State>, i: nat, j: nat, k: nat, p: string)
    requires env.Sound() && IsRun(env, run) && i <= j <= k < |run|
    requires StatusThroughout(run, i, k, p) && !Shows(run[i], Online, p)
    ensures Missed(run, i, j, k, p) <==> Overtaken(env, run, i, k, p)
  {
    if Missed(run, i, j, k, p) {
      var a, b := MissedSteps(env, run, i, j, k, p);
      assert OvertakenBy(env, run, i, k, p, a, b);
    }
    if Overtaken(env, run, i, k, p) {
      var a: nat, b: nat :| OvertakenBy(env, run, i, k, p, a, b);
      OvertakenIsMissed(env, run, i, j, k, p, a, b);
    }
  }

  // ---------- it happens ----------

  lemma {:induction false} RunSnoc(env: Env, run: seq<State>, t: State)
    requires IsRun(env, run) && Step(env, run[|run| - 1], t)
    ensures IsRun(env, run + [t])
  {
    var more := run + [t];
    forall i | 0 <= i < |more| - 1
      ensures Step(env, more[i], more[i + 1])
    {
      if i < |run| - 1 {
        assert Step(env, run[i], run[i + 1]);
      }
    }
  }

  /** From `n` on the run does nothing but carry on the arm of `p`, at one instant. */
  ghost predicate CarriesOn(env: Env, run: seq<State>, n: nat, p: string)
    requires n < |run|
  {
    forall m | n <= m < |run| - 1 ::
      run[m].pc.About(p) && run[m + 1] == Perform(env, run[m], p) && run[m + 1].now == run[m].now
  }

  lemma {:induction false} PerformsNow(env: Env, s: State, p: string)
    requires s.pc.About(p)
    ensures var t := Perform(env, s, p);
            && Step(env, s, t) && t.now == s.now
            && Store.View(t.db, p) == ActOn(env, Store.View(s.db, p), s.now, s.pc)
            && t.pc == Act(env, Store.View(s.db, p), s.now, s.pc).next
  {
    PerformOn(env, s, p, p);
  }

  /** Any arm can run to its end at once, and leaves what the arm as one step leaves. */
  lemma {:induction false} Finishes(env: Env, run: seq<State>, p: string) returns (more: seq<State>)
    requires IsRun(env, run)
    requires run[|run| - 1].pc.About(p) || IsOver(run[|run| - 1].pc)
    ensures FinishedBy(env, run, more, p)
    decreases Phase(run[|run| - 1].pc), Left(run[|run| - 1].pc)
  {
    var s := run[|run| - 1];
    if IsOver(s.pc) {
      more := run;
    } else {
      var t := Perform(env, s, p);
      GoesOneStep(env, s, p);
      RunSnoc(env, run, t);
      assert (run + [t])[|run + [t]| - 1] == t;
      more := Finishes(env, run + [t], p);
      FinishedLater(env, run, more, p);
    }
  }

  /** `more` is the run carried on until the arm of `p` is over, and what it leaves. */
  ghost predicate FinishedBy(env: Env, run: seq<State>, more: seq<State>, p: string)
    requires run != []
  {
    && IsRun(env, more) && run <= more && CarriesOn(env, more, |run| - 1, p)
    && var s, t := run[|run| - 1], more[|more| - 1];
       && IsOver(t.pc) && t.now == s.now
       && Store.View(t.db, p) == Finish(env, Store.View(s.db, p), s.now, s.pc)
  }

  lemma {:induction false} FinishedLater(env: Env, run: seq<State>, more: seq<State>, p: string)
    requires run != [] && run[|run| - 1].pc.About(p)
    requires FinishedBy(env, run + [Perform(env, run[|run| - 1], p)], more, p)
    ensures FinishedBy(env, run, more, p)
  {
    var s := run[|run| - 1];
    var t := Perform(env, s, p);
    assert (run + [t])[|run + [t]| - 1] == t;
    GoesOneStep(env, s, p);
    OneMoreStep(env, run, t, more, p);
  }

  lemma {:induction false} GoesOneStep(env: Env, s: State, p: string)
    requires s.pc.About(p)
    ensures var t := Perform(env, s, p);
            && Step(env, s, t) && t.now == s.now
            && (t.pc.About(p) || IsOver(t.pc))
            && (Phase(t.pc) < Phase(s.pc) || (Phase(t.pc) == Phase(s.pc) && Left(t.pc) < Left(s.pc)))
            && Finish(env, Store.View(t.db, p), t.now, t.pc) == Finish(env, Store.View(s.db, p), s.now, s.pc)
  {
    PerformsNow(env, s, p);
    OverOrAbout(env, Store.View(s.db, p), s.now, s.pc, p);
    OneStepLess(env, Store.View(s.db, p), s.now, s.pc, p);
  }

  lemma {:induction false} OneStepLess(env: Env, rec: Record, now: nat, pc: Pc, p: string)
    requires pc.About(p)
    ensures var next := Act(env, rec, now, pc).next;
            Phase(next) < Phase(pc) || (Phase(next) == Phase(pc) && Left(next) < Left(pc))
    ensures Finish(env, rec, now, pc) == Finish(env, ActOn(env, rec, now, pc), now, Act(env, rec, now, pc).next)
  {}

  lemma {:induction false} OneMoreStep(env: Env, run: seq<State>, t: State, more: seq<State>, p: string)
    requires run != [] && run[|run| - 1].pc.About(p) && t == Perform(env, run[|run| - 1], p)
    requires t.now == run[|run| - 1].now
    requires run + [t] <= more && CarriesOn(env, more, |run|, p)
    ensures run <= more && CarriesOn(env, more, |run| - 1, p)
  {
    assert more[|run| - 1] == (run + [t])[|run| - 1] == run[|run| - 1];
    assert more[|run|] == (run + [t])[|run|] == t;
  }

  lemma {:induction false} ToIdle(env: Env, run: seq<State>, p: string) returns (more: seq<State>)
    requires IsRun(env, run) && IsOver(run[|run| - 1].pc)
    ensures IsRun(env, more)
    ensures var s, t := run[|run| - 1], more[|more| - 1];
            t.pc == Idle && t.now == s.now && Store.View(t.db, p) == Store.View(s.db, p)
  {
    var s := run[|run| - 1];
    more := run;
    if s.pc.ServiceStamp? {
      PerformStamp(env, s, p, p);
      StampTurn(env, Store.View(s.db, p), s.now);
      assert Step(env, s, Perform(env, s, p));
      RunSnoc(env, run, Perform(env, s, p));
      more := run + [Perform(env, s, p)];
    }
  }

  lemma {:induction false} TakeUp(env: Env, run: seq<State>, report: Report, ip: Option<IpDetails>)
      returns (more: seq<State>)
    requires IsRun(env, run) && run[|run| - 1].pc == Idle
    ensures more == run + [run[|run| - 1].(pc := Start(env, report, ip))] && IsRun(env, more)
    ensures Start(env, report, ip).About(report.Subject())
  {
    var t := run[|run| - 1].(pc := Start(env, report, ip));
    assert Step(env, run[|run| - 1], t);
    RunSnoc(env, run, t);
    more := run + [t];
  }

  /** A whole report, handled at once. */
  lemma {:induction false} ServeNow(env: Env, run: seq<State>, report: Report) returns (more: seq<State>)
    requires IsRun(env, run) && run[|run| - 1].pc == Idle
    ensures IsRun(env, more)
    ensures var s, t, p := run[|run| - 1], more[|more| - 1], report.Subject();
            && t.pc == Idle && t.now == s.now
            && Store.View(t.db, p) == Next(env, Store.View(s.db, p), Input(s.now, report, None))
  {
    var s, p := run[|run| - 1], report.Subject();
    more := TakeUp(env, run, report, None);
    more := Finishes(env, more, p);
    more := ToIdle(env, more, p);
    FinishIsHandle(env, Store.View(s.db, p), Input(s.now, report, None));
    HandleIsNext(env, Store.View(s.db, p), Input(s.now, report, None));
  }

  /** A peer vouched for once, then found unreachable, with threshold one. */
  lemma {:induction false} MadeUnknown(env: Env, m: NodeMetaInfo, from: NodeMetaInfo) returns (run: seq<State>)
    requires env.Sound() && env.witnesses == 1
    ensures IsRun(env, run)
    ensures var t := run[|run| - 1];
            && t.pc == Idle && t.now == 0
            && Store.View(t.db, m.peerId) ==
               Run(env, [Input(0, ReachableReport(m, from), None)] + [Input(0, UnknownReport(m), None)])
  {
    var x, y := Input(0, ReachableReport(m, from), None), Input(0, UnknownReport(m), None);
    run := [State(map[], 0, Idle)];
    assert Store.View(map[], m.peerId) == map[];
    run := ServeNow(env, run, ReachableReport(m, from));
    run := ServeNow(env, run, UnknownReport(m));
    assert ([x] + [y])[..1] == [x] && [x][..0] == [];
    assert Run(env, [x]) == Next(env, map[], x);
  }

  lemma {:induction false} OneUpgrade(env: Env, m: NodeMetaInfo, from: NodeMetaInfo)
    requires env.Sound() && env.witnesses == 1
    ensures var rec := Run(env, [Input(0, ReachableReport(m, from), None)] + [Input(0, UnknownReport(m), None)]);
            && Live(Find(rec, Unknown), 0).Some?
            && Find(rec, Online) == None && Find(rec, Online2) == None
  {
    var x, y := Input(0, ReachableReport(m, from), None), Input(0, UnknownReport(m), None);
    assert [] + [x] == [x];
    OnlineKey(env, [], x);
    Online2Key(env, [], x);
    ReachableKey(env, [], x);
    assert Find(Run(env, [x]), Reachable) == Some(Entry(Members({from.peerId}), None));
    OnlineKey(env, [x], y);
    Online2Key(env, [x], y);
    UnknownKey(env, [x], y);
  }

  /** In the online arm after its lease is written, no command touches the online and ex keys. */
  lemma {:induction false} LeaseStays(env: Env, rec: Record, now: nat, pc: Pc)
    requires BetweenSetAndDelete(pc) && Holds(env, rec, now, pc) && (pc.OnlineDetails? ==> AllAside(pc.todo))
    ensures var g := Act(env, rec, now, pc).next;
            && Find(ActOn(env, rec, now, pc), Online) == Find(rec, Online)
            && Find(ActOn(env, rec, now, pc), Online2) == Find(rec, Online2)
            && (BetweenSetAndDelete(g) || g.Idle?) && (g.OnlineDetails? ==> AllAside(g.todo))
  {
    var a := Act(env, rec, now, pc).action;
    if a.Write? {
      ExecOnly(rec, now, a.c, Online);
      ExecOnly(rec, now, a.c, Online2);
    }
  }

  /** What the states of that part of the arm show. */
  ghost predicate Leased(s: State, p: string) {
    && (BetweenSetAndDelete(s.pc) || s.pc.Idle?) && (s.pc.OnlineDetails? ==> AllAside(s.pc.todo))
    && Shows(s, Online, p) && !Shows(s, Online2, p)
  }

  lemma {:induction false} LeasedStep(env: Env, s: State, p: string)
    requires s.pc.About(p) && Leased(s, p) && Holds(env, Store.View(s.db, p), s.now, s.pc)
    ensures Leased(Perform(env, s, p), p)
  {
    var t := Perform(env, s, p);
    PerformsNow(env, s, p);
    LeaseStays(env, Store.View(s.db, p), s.now, s.pc);
    ShowsInView(s, Online, p);
    ShowsInView(s, Online2, p);
    ShowsInView(t, Online, p);
    ShowsInView(t, Online2, p);
  }

  lemma {:induction false} StaysLeased(env: Env, run: seq<State>, n: nat, p: string, m: nat)
    requires IsRun(env, run) && n <= m < |run| && CarriesOn(env, run, n, p) && Leased(run[n], p)
    ensures Leased(run[m], p)
  {
    forall k: nat | n <= k < m && LeasedAt(run, k, p)
      ensures LeasedAt(run, k + 1, p)
    {
      NextLeased(env, run, n, p, k);
    }
    Induction.Carries((k: nat) => LeasedAt(run, k, p), n, m);
  }

  ghost predicate LeasedAt(run: seq<State>, n: nat, p: string) {
    n < |run| && Leased(run[n], p)
  }

  lemma {:induction false} NextLeased(env: Env, run: seq<State>, n: nat, p: string, m: nat)
    requires IsRun(env, run) && n <= m < |run| - 1 && CarriesOn(env, run, n, p) && Leased(run[m], p)
    ensures Leased(run[m + 1], p)
  {
    var s, t := run[m], run[m + 1];
    HoldsAt(env, run, m, p);
    assert s.pc.About(p) && t == Perform(env, s, p);
    LeasedStep(env, s, p);
  }

  /** An unknown peer whose online arm is about to write its lease. */
  ghost predicate AtLease(s: State, p: string, o: PeerInfo) {
    && s.pc == OnlineLease(o, None, false)
    && Shows(s, Unknown, p) && !Shows(s, Online, p) && !Shows(s, Online2, p)
  }

  /** The online arm of an unknown peer, up to before its lease is written. */
  lemma {:induction false} AboutToLease(env: Env, m: NodeMetaInfo, from: NodeMetaInfo, o: PeerInfo)
      returns (run: seq<State>)
    requires env.Sound() && env.witnesses == 1 && o.info.peerId == m.peerId
    ensures IsRun(env, run) && AtLease(run[|run| - 1], m.peerId, o)
  {
    run := MadeUnknown(env, m, from);
    OneUpgrade(env, m, from);
    run := TakeUp(env, run, OnlineReport(o), None);
    var s := run[|run| - 1];
    PerformsNow(env, s, m.peerId);
    var t := Perform(env, s, m.peerId);
    RunSnoc(env, run, t);
    run := run + [t];
    ShowsInView(t, Unknown, m.peerId);
    ShowsInView(t, Online, m.peerId);
    ShowsInView(t, Online2, m.peerId);
  }

  /** Writing the lease: from now on the peer is online. */
  lemma {:induction false} LeaseNow(env: Env, s: State, o: PeerInfo)
    requires env.Sound() && !o.isEx && s.pc == OnlineLease(o, None, false) && !Shows(s, Online2, o.info.peerId)
    ensures Leased(Perform(env, s, o.info.peerId), o.info.peerId)
  {
    var p := o.info.peerId;
    var t, c := Perform(env, s, p), LeaseCmd(env, false, o);
    PerformsNow(env, s, p);
    ExecOnly(Store.View(s.db, p), s.now, c, Online);
    ExecOnly(Store.View(s.db, p), s.now, c, Online2);
    AddressesAside(env, o, None);
    ShowsInView(s, Online2, p);
    ShowsInView(t, Online, p);
    ShowsInView(t, Online2, p);
  }

  lemma {:induction false} UnknownDeleted(env: Env, rec: Record, now: nat, o: PeerInfo)
    ensures Find(Finish(env, rec, now, OnlineLease(o, None, false)), Unknown) == None
  {
    var r := Exec(rec, now, LeaseCmd(env, false, o));
    FinishDetails(env, r, now, o, AddressCmds(env, o, None) + [Cmd(Full, Set(BoolText(o.full)))]);
    assert Finish(env, rec, now, OnlineLease(o, None, false)) ==
           Finish(env, r, now, OnlineDetails(o, AddressCmds(env, o, None) + [Cmd(Full, Set(BoolText(o.full)))]));
  }

  lemma {:induction false} ShownThroughout(env: Env, run: seq<State>, i: nat, p: string, o: PeerInfo)
    requires env.Sound() && IsRun(env, run) && i + 1 < |run| && CarriesOn(env, run, i, p)
    requires !o.isEx && o.info.peerId == p && run[i].pc == OnlineLease(o, None, false)
    requires Shows(run[i], Unknown, p) && !Shows(run[i], Online2, p)
    ensures StatusThroughout(run, i, |run| - 1, p)
  {
    assert run[i + 1] == Perform(env, run[i], p);
    LeaseNow(env, run[i], o);
    forall n | i < n < |run|
      ensures Shows(run[n], Online, p) && !Shows(run[n], Online2, p)
    {
      StaysLeased(env, run, i + 1, p, n);
    }
  }

  lemma {:induction false} RaceFrom(env: Env, start: seq<State>, run: seq<State>, p: string, o: PeerInfo)
    requires env.Sound() && start != [] && !o.isEx && o.info.peerId == p
    requires AtLease(start[|start| - 1], p, o) && FinishedBy(env, start, run, p)
    ensures IsRun(env, run) && |start| <= |run|
    ensures StatusThroughout(run, |start| - 1, |run| - 1, p)
    ensures Missed(run, |start| - 1, |start| - 1, |run| - 1, p)
  {
    var i, k := |start| - 1, |run| - 1;
    assert run[i] == start[i];
    UnknownDeleted(env, Store.View(run[i].db, p), run[i].now, o);
    ShowsInView(run[k], Unknown, p);
    assert i < k;
    ShownThroughout(env, run, i, p, o);
  }

  /** There is a run, with threshold one, and places for the listings, so that a peer with a status in
      every state is missed by all three. */
  lemma {:induction false} RaceHappens(env: Env, m: NodeMetaInfo, from: NodeMetaInfo, o: PeerInfo)
      returns (run: seq<State>, i: nat, k: nat)
    requires env.Sound() && env.witnesses == 1 && o.info.peerId == m.peerId && !o.isEx
    ensures IsRun(env, run) && i <= k < |run|
    ensures StatusThroughout(run, i, k, m.peerId) && Missed(run, i, i, k, m.peerId)
  {
    var start := AboutToLease(env, m, from, o);
    run := Finishes(env, start, m.peerId);
    i, k := |start| - 1, |run| - 1;
    RaceFrom(env, start, run, m.peerId, o);
  }
}
