/** The whole store: one map from key strings to entries, written by marci's loop for all peers at
    once. Every theorem about one peer's record carries over to it, because no key is shared. */
module Store {
  import opened Wrappers
  import opened Redis
  import opened Keys
  import opened Arms
  import opened Leases
  import opened Witnesses
  import Numerals

  type Db = map<string, Entry>

  /** What the loop handles: a report from one of its queues, or the broadcast timer. */
  datatype Event = Reported(input: Input) | Ticked(at: nat) {
    function Time(): nat {
      match this
      case Reported(i) => i.at
      case Ticked(t) => t
    }

    predicate About(p: string) {
      Reported? && input.report.Subject() == p
    }
  }

  /** One peer's share of the store. */
  function View(db: Db, p: string): Record {
    map f: Family | Format(f, p) in db :: db[Format(f, p)]
  }

  /** Commands on a peer's record, as commands on its keys. */
  function Named(p: string, cmds: seq<Command>): (r: seq<Cmd<string>>)
    ensures |r| == |cmds| && forall i | 0 <= i < |r| :: r[i] == Cmd(Format(cmds[i].key, p), cmds[i].op)
  {
    seq(|cmds|, i requires 0 <= i < |cmds| => Cmd(Format(cmds[i].key, p), cmds[i].op))
  }

  /** Everything one event makes marci write. */
  function Writes(env: Env, db: Db, e: Event): seq<Cmd<string>> {
    match e
    case Ticked(t) => [Cmd(LAST_UPDATE, Set(Seconds(t)))]
    case Reported(i) =>
      var p := i.report.Subject();
      var own := Named(p, Commands(env, View(db, p), i));
      if i.report.ReachableReport? then own + [Cmd(LAST_UPDATE, Set(Seconds(i.at)))] else own
  }

  function Serve(env: Env, db: Db, e: Event): Db {
    ExecAll(db, e.Time(), Writes(env, db, e))
  }

  lemma {:induction false} ServeStamped(env: Env, db: Db, i: Input, own: seq<Command>)
    requires i.report.ReachableReport? && own == Commands(env, View(db, i.report.Subject()), i)
    ensures Serve(env, db, Reported(i)) ==
            Exec(ExecAll(db, i.at, Named(i.report.Subject(), own)), i.at, Cmd(LAST_UPDATE, Set(Seconds(i.at))))
  {
    ExecSnoc(db, i.at, Named(i.report.Subject(), own), Cmd(LAST_UPDATE, Set(Seconds(i.at))));
  }

  /** The store after a run of the loop, from empty. */
  function RunStore(env: Env, es: seq<Event>): Db {
    if es == [] then map[] else Serve(env, RunStore(env, es[..|es| - 1]), es[|es| - 1])
  }

  /** The reports about one peer, in order. */
  function Own(es: seq<Event>, p: string): seq<Input> {
    if es == [] then []
    else
      var last := es[|es| - 1];
      Own(es[..|es| - 1], p) + (if last.About(p) then [last.input] else [])
  }

  predicate InOrder(es: seq<Event>, t: nat) {
    es == [] || (es[|es| - 1].Time() <= t && InOrder(es[..|es| - 1], es[|es| - 1].Time()))
  }

  lemma {:induction false} OwnOrdered(es: seq<Event>, t: nat, p: string)
    requires InOrder(es, t)
    ensures Ordered(Own(es, p), t)
  {
    if es != [] {
      var front, last := es[..|es| - 1], es[|es| - 1];
      OwnOrdered(front, last.Time(), p);
      if last.About(p) {
        assert Own(es, p)[..|Own(es, p)| - 1] == Own(front, p);
      } else {
        assert Own(es, p) == Own(front, p);
        OrderedLater(Own(front, p), last.Time(), t);
      }
    }
  }

  // ---------- the store refines the records ----------

  lemma {:induction false} ViewFind(db: Db, p: string, f: Family)
    ensures Find(View(db, p), f) == Find(db, Format(f, p))
  {}

  lemma {:induction false} ExecRefines(db: Db, at: nat, c: Command, p: string, q: string)
    ensures View(Exec(db, at, Cmd(Format(c.key, p), c.op)), q) ==
            if p == q then Exec(View(db, p), at, c) else View(db, q)
  {
    var named := Cmd(Format(c.key, p), c.op);
    var after := Exec(db, at, named);
    var expected := if p == q then Exec(View(db, p), at, c) else View(db, q);
    forall f: Family
      ensures Find(View(after, q), f) == Find(expected, f)
    {
      FormatInjective(f, q, c.key, p);
      ViewFind(after, q, f);
      ViewFind(db, q, f);
      ViewFind(db, p, c.key);
      ExecOnly(db, at, named, Format(f, q));
      ExecOnly(View(db, p), at, c, f);
    }
    SameRecord(View(after, q), expected);
  }

  lemma {:induction false} NamedSnoc(db: Db, at: nat, p: string, front: seq<Command>, last: Command)
    ensures ExecAll(db, at, Named(p, front + [last])) ==
            Exec(ExecAll(db, at, Named(p, front)), at, Cmd(Format(last.key, p), last.op))
  {
    assert Named(p, front + [last]) == Named(p, front) + [Cmd(Format(last.key, p), last.op)];
    ExecSnoc(db, at, Named(p, front), Cmd(Format(last.key, p), last.op));
  }

  /** Commands on the keys of `p` act on the view of `p` as on a record of its own, and leave every
      other view alone. */
  lemma {:induction false} ExecAllRefines(db: Db, at: nat, cmds: seq<Command>, p: string, q: string)
    ensures View(ExecAll(db, at, Named(p, cmds)), q) ==
            if p == q then ExecAll(View(db, p), at, cmds) else View(db, q)
    decreases |cmds|
  {
    if cmds == [] {
      assert Named(p, cmds) == [];
    } else {
      ExecAllRefines(db, at, cmds[..|cmds| - 1], p, q);
      OneMoreRefines(db, at, cmds, p, q);
    }
  }

  lemma {:induction false} NamedLast(db: Db, at: nat, p: string, cmds: seq<Command>)
    requires cmds != []
    ensures ExecAll(db, at, Named(p, cmds)) ==
            Exec(ExecAll(db, at, Named(p, cmds[..|cmds| - 1])), at,
                 Cmd(Format(cmds[|cmds| - 1].key, p), cmds[|cmds| - 1].op))
  {
    assert cmds == cmds[..|cmds| - 1] + [cmds[|cmds| - 1]];
    NamedSnoc(db, at, p, cmds[..|cmds| - 1], cmds[|cmds| - 1]);
  }

  lemma {:induction false} OneMoreRefines(db: Db, at: nat, cmds: seq<Command>, p: string, q: string)
    requires cmds != []
    requires View(ExecAll(db, at, Named(p, cmds[..|cmds| - 1])), q) ==
             if p == q then ExecAll(View(db, p), at, cmds[..|cmds| - 1]) else View(db, q)
    ensures View(ExecAll(db, at, Named(p, cmds)), q) ==
            if p == q then ExecAll(View(db, p), at, cmds) else View(db, q)
  {
    NamedLast(db, at, p, cmds);
    ExecRefines(ExecAll(db, at, Named(p, cmds[..|cmds| - 1])), at, cmds[|cmds| - 1], p, q);
  }

  lemma {:induction false} LastUpdateIsNobodys(db: Db, at: nat, text: string, q: string)
    ensures View(Exec(db, at, Cmd(LAST_UPDATE, Set(text))), q) == View(db, q)
  {
    var after := Exec(db, at, Cmd(LAST_UPDATE, Set(text)));
    forall f: Family
      ensures Find(View(after, q), f) == Find(View(db, q), f)
    {
      FormatIsNotLastUpdate(f, q);
      ViewFind(after, q, f);
      ViewFind(db, q, f);
    }
    SameRecord(View(after, q), View(db, q));
  }

  lemma {:induction false} ServeRefines(env: Env, db: Db, e: Event, q: string)
    ensures View(Serve(env, db, e), q) ==
            if e.About(q) then Next(env, View(db, q), e.input) else View(db, q)
  {
    match e {
      case Ticked(t) =>
        assert Writes(env, db, e) == [] + [Cmd(LAST_UPDATE, Set(Seconds(t)))];
        ExecSnoc(db, t, [], Cmd(LAST_UPDATE, Set(Seconds(t))));
        LastUpdateIsNobodys(db, t, Seconds(t), q);
      case Reported(i) =>
        var p := i.report.Subject();
        var cmds := Commands(env, View(db, p), i);
        ExecAllRefines(db, i.at, cmds, p, q);
        HandleIsNext(env, View(db, p), i);
        if i.report.ReachableReport? {
          ServeStamped(env, db, i, cmds);
          LastUpdateIsNobodys(ExecAll(db, i.at, Named(p, cmds)), i.at, Seconds(i.at), q);
        }
    }
  }

  lemma {:induction false} RunOwn(env: Env, front: seq<Event>, last: Event, p: string)
    ensures Run(env, Own(front + [last], p)) ==
            if last.About(p) then Next(env, Run(env, Own(front, p)), last.input) else Run(env, Own(front, p))
  {
    assert (front + [last])[..|front|] == front;
    if last.About(p) {
      assert (Own(front, p) + [last.input])[..|Own(front, p)|] == Own(front, p);
    } else {
      assert Own(front, p) + [] == Own(front, p);
    }
  }

  /** Locality: after any interleaving of all queues and timers, a peer's keys are what its own
      reports alone would have left. */
  lemma {:induction false} Locality(env: Env, es: seq<Event>, p: string)
    ensures View(RunStore(env, es), p) == Run(env, Own(es, p))
  {
    if es == [] {
      assert View(map[], p) == map[];
    } else {
      var front, last := es[..|es| - 1], es[|es| - 1];
      Locality(env, front, p);
      ServeRefines(env, RunStore(env, front), last, p);
      RunOwn(env, front, last, p);
      assert es == front + [last];
    }
  }

  // ---------- nothing else is in the store ----------

  /** Every key is some peer's, or marci's own. */
  ghost predicate OnlyOurKeys(db: Db) {
    forall k | k in db && k != LAST_UPDATE :: exists f, p :: k == Format(f, p)
  }

  lemma {:induction false} ExecKeepsKeys(db: Db, at: nat, cmds: seq<Cmd<string>>)
    requires OnlyOurKeys(db)
    requires forall i | 0 <= i < |cmds| :: cmds[i].key == LAST_UPDATE || exists f, p :: cmds[i].key == Format(f, p)
    ensures OnlyOurKeys(ExecAll(db, at, cmds))
    decreases |cmds|
  {
    if cmds != [] {
      ExecKeepsKeys(db, at, cmds[..|cmds| - 1]);
    }
  }

  lemma {:induction false} StoreKeys(env: Env, es: seq<Event>)
    ensures OnlyOurKeys(RunStore(env, es))
  {
    if es != [] {
      var front, last := es[..|es| - 1], es[|es| - 1];
      StoreKeys(env, front);
      var db := RunStore(env, front);
      var cmds := Writes(env, db, last);
      if last.Reported? {
        var p := last.input.report.Subject();
        var own := Commands(env, View(db, p), last.input);
        forall i | 0 <= i < |own|
          ensures cmds[i].key == Format(own[i].key, p)
        {}
      }
      ExecKeepsKeys(db, last.Time(), cmds);
    }
  }

  // ---------- marci's own key ----------

  /** The events that leave a service time stamp: reachable reports and the timer. */
  predicate Stamps(e: Event) {
    e.Ticked? || e.input.report.ReachableReport?
  }

  lemma {:induction false} OthersNamed(db: Db, at: nat, p: string, cmds: seq<Command>)
    ensures Find(ExecAll(db, at, Named(p, cmds)), LAST_UPDATE) == Find(db, LAST_UPDATE)
  {
    forall i | 0 <= i < |Named(p, cmds)|
      ensures Named(p, cmds)[i].key != LAST_UPDATE
    {
      FormatIsNotLastUpdate(cmds[i].key, p);
    }
    ExecFrame(db, at, Named(p, cmds), LAST_UPDATE);
  }

  lemma {:induction false} StampServed(env: Env, db: Db, e: Event)
    ensures Find(Serve(env, db, e), LAST_UPDATE) ==
            if Stamps(e) then Some(Entry(Text(Numerals.Decimal(e.Time() / 1000)), None)) else Find(db, LAST_UPDATE)
  {
    match e {
      case Ticked(t) =>
        assert Writes(env, db, e) == [] + [Cmd(LAST_UPDATE, Set(Seconds(t)))];
        ExecSnoc(db, t, [], Cmd(LAST_UPDATE, Set(Seconds(t))));
      case Reported(i) =>
        var p := i.report.Subject();
        var cmds := Commands(env, View(db, p), i);
        OthersNamed(db, i.at, p, cmds);
        if i.report.ReachableReport? {
          ServeStamped(env, db, i, cmds);
        }
    }
  }

  /** One more event, as the end of a part of the run. */
  lemma {:induction false} StampOfPart(env: Env, es: seq<Event>, n: nat)
    requires 0 < n <= |es|
    ensures Find(RunStore(env, es[..n]), LAST_UPDATE) ==
            if Stamps(es[n - 1]) then Some(Entry(Text(Numerals.Decimal(es[n - 1].Time() / 1000)), None))
            else Find(RunStore(env, es[..n - 1]), LAST_UPDATE)
  {
    assert es[..n][..n - 1] == es[..n - 1];
    StampServed(env, RunStore(env, es[..n - 1]), es[n - 1]);
  }

  lemma {:induction false} StampStays(env: Env, es: seq<Event>, k: nat, n: nat)
    requires k <= n <= |es| && forall i | k <= i < n :: !Stamps(es[i])
    ensures Find(RunStore(env, es[..n]), LAST_UPDATE) == Find(RunStore(env, es[..k]), LAST_UPDATE)
    decreases n
  {
    if k < n {
      StampOfPart(env, es, n);
      StampStays(env, es, k, n - 1);
    }
  }

  /** The service time stamp is the time, in whole seconds, of the latest reachable report or timer. */
  lemma {:induction false} ServiceStamp(env: Env, es: seq<Event>, k: nat)
    requires k <= |es| && forall i | k <= i < |es| :: !Stamps(es[i])
    ensures Find(RunStore(env, es), LAST_UPDATE) ==
            if k == 0 then None
            else if Stamps(es[k - 1]) then Some(Entry(Text(Numerals.Decimal(es[k - 1].Time() / 1000)), None))
            else Find(RunStore(env, es[..k - 1]), LAST_UPDATE)
  {
    assert es[..|es|] == es;
    StampStays(env, es, k, |es|);
    if k > 0 {
      StampOfPart(env, es, k);
    }
  }

  /** Reordering the queues against one another changes nothing but marci's own time stamp: two runs
      that give every peer the same reports in the same order leave the same store. */
  lemma {:induction false} InterleavingIrrelevant(env: Env, es: seq<Event>, fs: seq<Event>, k: string)
    requires forall p :: Own(es, p) == Own(fs, p)
    requires k != LAST_UPDATE
    ensures Find(RunStore(env, es), k) == Find(RunStore(env, fs), k)
  {
    var a, b := RunStore(env, es), RunStore(env, fs);
    forall f, p | k == Format(f, p)
      ensures Find(a, k) == Find(b, k)
    {
      Locality(env, es, p);
      Locality(env, fs, p);
      ViewFind(a, p, f);
      ViewFind(b, p, f);
    }
    StoreKeys(env, es);
    StoreKeys(env, fs);
  }

  lemma {:induction false} OwnAppend(a: seq<Event>, b: seq<Event>, p: string)
    ensures Own(a + b, p) == Own(a, p) + Own(b, p)
    decreases |b|
  {
    if b == [] {
      assert a + b == a;
    } else {
      assert (a + b)[..|a + b| - 1] == a + b[..|b| - 1];
      OwnAppend(a, b[..|b| - 1], p);
    }
  }

  /** Two adjacent events commute unless they report on the same peer. */
  lemma {:induction false} EventsCommute(env: Env, a: seq<Event>, x: Event, y: Event, b: seq<Event>, k: string)
    requires !exists p :: x.About(p) && y.About(p)
    requires k != LAST_UPDATE
    ensures Find(RunStore(env, a + [x, y] + b), k) == Find(RunStore(env, a + [y, x] + b), k)
  {
    forall p
      ensures Own(a + [x, y] + b, p) == Own(a + [y, x] + b, p)
    {
      OwnAppend(a + [x, y], b, p);
      OwnAppend(a + [y, x], b, p);
      OwnAppend(a, [x, y], p);
      OwnAppend(a, [y, x], p);
      assert [x, y][..1] == [x] && [y, x][..1] == [y];
      assert [x][..0] == [] && [y][..0] == [];
      assert x.About(p) ==> !y.About(p);
      assert Own([x], p) == if x.About(p) then [x.input] else [];
      assert Own([y], p) == if y.About(p) then [y.input] else [];
    }
    InterleavingIrrelevant(env, a + [x, y] + b, a + [y, x] + b, k);
  }

  // ---------- the status keys, over every run of the loop ----------

  /** `peer.online.{p}`. */
  lemma {:induction false} OnlineKeyMeaning(env: Env, es: seq<Event>, t: nat, p: string, version: string)
    requires env.Sound() && InOrder(es, t)
    ensures Get(RunStore(env, es), t, Format(Online, p)) == Some(version) <==>
            exists j: nat :: FirstAnchor(env, Beats(Own(es, p)), j, t)
                             && Beats(Own(es, p))[j].report.online.version == version
  {
    Locality(env, es, p);
    OwnOrdered(es, t, p);
    ViewFind(RunStore(env, es), p, Online);
    OnlineLease(env, Own(es, p), t, version);
  }

  /** `peer.online2.{p}`. */
  lemma {:induction false} Online2KeyMeaning(env: Env, es: seq<Event>, t: nat, p: string, version: string)
    requires env.Sound() && InOrder(es, t)
    ensures Get(RunStore(env, es), t, Format(Online2, p)) == Some(version) <==>
            exists i: nat :: LastOpensEx(env, Own(es, p), i)
                             && t < Own(es, p)[i].at + 1000 * env.timeout
                             && Own(es, p)[i].report.online.version == version
  {
    Locality(env, es, p);
    OwnOrdered(es, t, p);
    ViewFind(RunStore(env, es), p, Online2);
    ExLease(env, Own(es, p), t, version);
  }

  /** `peer.unknown.{p}`, never live beside `peer.online.{p}`. */
  lemma {:induction false} UnknownKeyMeaning(env: Env, es: seq<Event>, t: nat, p: string)
    requires env.Sound() && InOrder(es, t)
    ensures Live(Find(RunStore(env, es), Format(Unknown, p)), t).Some? <==>
            exists u: nat :: OpensUnknown(env, Own(es, p), u)
                             && t < Own(es, p)[u].at + 1000 * env.unknownTimeout
    ensures Live(Find(RunStore(env, es), Format(Unknown, p)), t).Some? ==>
            Live(Find(RunStore(env, es), Format(Online, p)), t) == None
  {
    Locality(env, es, p);
    OwnOrdered(es, t, p);
    ViewFind(RunStore(env, es), p, Unknown);
    ViewFind(RunStore(env, es), p, Online);
    UnknownLease(env, Own(es, p), t);
    NeverOnlineAndUnknown(env, Own(es, p), t);
  }

  /** `peer.reachable.{p}`, with the account of what its members paid for. */
  lemma {:induction false} ReachableKeyMeaning(env: Env, es: seq<Event>, t: nat, p: string)
    requires env.Sound() && InOrder(es, t)
    ensures SMembers(RunStore(env, es), t, Format(Reachable, p)) == Since(env, Own(es, p))
    ensures env.witnesses * Upgrades(env, Own(es, p)) + SCard(RunStore(env, es), t, Format(Reachable, p))
            <= Vouches(Own(es, p))
  {
    Locality(env, es, p);
    OwnOrdered(es, t, p);
    ViewFind(RunStore(env, es), p, Reachable);
    WitnessSet(env, Own(es, p), t);
    WitnessConservation(env, Own(es, p));
  }
}
