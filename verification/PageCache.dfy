/** The 30-second cache of `/peer`: any number of requests interleaving at every lock they wait for.
    Three mutexes: the table (`data`), its store time (`last_cache_update`) and the Redis client. */
module PageCache {
  import opened Wrappers
  import Exposed
  import Induction

  type Table = seq<Exposed.Row>

  type Rid = nat

  /** What a finished request answered with: the cache, its own fetch, or an error. */
  datatype Reply = Cached(rows: Table, asOf: nat) | Fetched(rows: Table) | Failed

  /** Where a request stands. `seen` is the store time it read, `asOf` the clock it compared with. */
  datatype Pc =
    | Start                                  // about to lock data
    | TestEmpty                              // holds data
    | WantTime(asOf: nat)                    // about to lock the store time
    | TestAge(asOf: nat)                     // holds the store time
    | WantClient                             // about to lock the client
    | Fetching                               // holds the client
    | TryStore(rows: Table)               // about to try data
    | Storing(rows: Table)                // holds data
    | WantStamp(rows: Table)              // holds data, already replaced; about to lock the store time
    | Stamping(rows: Table)               // holds data and the store time
    | Answering(rows: Table)              // holds data
    | WantCached(asOf: nat, seen: nat)       // about to lock data
    | ReadCached(asOf: nat, seen: nat)       // holds data
    | Done(reply: Reply)

  datatype Store = Store(rows: Table, time: nat, owner: Rid)

  /** What one call of `get_peers` returned, and to which request. */
  datatype Fetch = Fetch(owner: Rid, rows: Table)

  /** `stores` and `fetches` only record what happened. A lock is the request holding it. */
  datatype State = State(
    now: nat,
    data: Table, last: nat,
    dataLock: Option<Rid>, timeLock: Option<Rid>, clientLock: Option<Rid>,
    pcs: seq<Pc>,
    stores: seq<Store>, fetches: set<Fetch>)

  /** Whether the guard taken to test emptiness is kept until the age is tested too. The language
      decides; both answers are covered. */
  datatype Guard = Kept | Dropped

  ghost predicate Init(s: State) {
    && s.data == [] && s.last == 0
    && s.dataLock == None && s.timeLock == None && s.clientLock == None
    && s.stores == [] && s.fetches == {}
    && forall r | 0 <= r < |s.pcs| :: s.pcs[r] == Start
  }

  function Goto(s: State, r: Rid, pc: Pc): State
    requires r < |s.pcs|
  {
    s.(pcs := s.pcs[r := pc])
  }

  /** More than thirty whole seconds; a store time ahead of the clock counts as no age. */
  predicate Stale(asOf: nat, seen: nat) {
    seen <= asOf && (asOf - seen) / 1000 > 30
  }

  /** The request can take its next step. */
  predicate Enabled(s: State, r: Rid)
    requires r < |s.pcs|
  {
    match s.pcs[r]
    case Start | WantCached(_, _) => s.dataLock == None
    case WantTime(_) | WantStamp(_) => s.timeLock == None
    case WantClient => s.clientLock == None
    case Done(_) => false
    case _ => true
  }

  /** The step itself; `outcome` is what `get_peers` returns, when it is called. */
  function Advance(g: Guard, s: State, r: Rid, outcome: Option<Table>): State
    requires r < |s.pcs| && Enabled(s, r)
  {
    match s.pcs[r]
    case Start => Goto(s, r, TestEmpty).(dataLock := Some(r))
    case TestEmpty =>
      if s.data == [] then Goto(s, r, WantClient).(dataLock := None)
      else Goto(s, r, WantTime(s.now)).(dataLock := if g == Kept then Some(r) else None)
    case WantTime(asOf) => Goto(s, r, TestAge(asOf)).(timeLock := Some(r))
    case TestAge(asOf) =>
      Goto(s, r, if Stale(asOf, s.last) then WantClient else WantCached(asOf, s.last))
      .(timeLock := None, dataLock := if g == Kept then None else s.dataLock)
    case WantClient => Goto(s, r, Fetching).(clientLock := Some(r))
    case Fetching =>
      (match outcome
       case None => Goto(s, r, Done(Failed)).(clientLock := None)
       case Some(rows) => Goto(s, r, TryStore(rows)).(clientLock := None, fetches := s.fetches + {Fetch(r, rows)}))
    case TryStore(rows) =>
      if s.dataLock == None then Goto(s, r, Storing(rows)).(dataLock := Some(r))
      else Goto(s, r, Done(Fetched(rows)))
    case Storing(rows) => Goto(s, r, WantStamp(rows)).(data := rows)
    case WantStamp(rows) => Goto(s, r, Stamping(rows)).(timeLock := Some(r))
    case Stamping(rows) =>
      Goto(s, r, Answering(rows)).(timeLock := None, last := s.now, stores := s.stores + [Store(rows, s.now, r)])
    case Answering(_) => Goto(s, r, Done(Fetched(s.data))).(dataLock := None)
    case WantCached(asOf, seen) => Goto(s, r, ReadCached(asOf, seen)).(dataLock := Some(r))
    case ReadCached(asOf, seen) => Goto(s, r, Done(Cached(s.data, asOf))).(dataLock := None)
    case Done(_) => s
  }

  ghost predicate Step(g: Guard, s: State, t: State) {
    || (t == s.(now := t.now) && t.now >= s.now)
    || (t == s.(pcs := s.pcs + [Start]))
    || (exists r: Rid, outcome :: r < |s.pcs| && Enabled(s, r) && t == Advance(g, s, r, outcome))
  }

  ghost predicate IsRun(g: Guard, run: seq<State>) {
    && run != [] && Init(run[0])
    && forall i | 0 <= i < |run| - 1 :: Step(g, run[i], run[i + 1])
  }

  // ---------- who holds what ----------

  predicate HoldsData(g: Guard, pc: Pc) {
    match pc
    case TestEmpty | Storing(_) | WantStamp(_) | Stamping(_) | Answering(_) | ReadCached(_, _) => true
    case WantTime(_) | TestAge(_) => g == Kept
    case _ => false
  }

  predicate HoldsTime(pc: Pc) {
    pc.TestAge? || pc.Stamping?
  }

  predicate HoldsClient(pc: Pc) {
    pc.Fetching?
  }

  ghost predicate DataRight(g: Guard, s: State) {
    && (s.dataLock.Some? ==> s.dataLock.value < |s.pcs|)
    && forall r | 0 <= r < |s.pcs| :: HoldsData(g, s.pcs[r]) <==> s.dataLock == Some(r)
  }

  ghost predicate TimeRight(s: State) {
    && (s.timeLock.Some? ==> s.timeLock.value < |s.pcs|)
    && forall r | 0 <= r < |s.pcs| :: HoldsTime(s.pcs[r]) <==> s.timeLock == Some(r)
  }

  ghost predicate ClientRight(s: State) {
    && (s.clientLock.Some? ==> s.clientLock.value < |s.pcs|)
    && forall r | 0 <= r < |s.pcs| :: HoldsClient(s.pcs[r]) <==> s.clientLock == Some(r)
  }

  /** Each lock is held by the one request whose place in the handler says so. */
  ghost predicate LocksRight(g: Guard, s: State) {
    DataRight(g, s) && TimeRight(s) && ClientRight(s)
  }

  // ---------- what the cache holds ----------

  /** The cache is untouched, or the latest store with its own time. */
  predicate Settled(s: State) {
    if s.stores == [] then s.data == [] && s.last == 0
    else s.data == s.stores[|s.stores| - 1].rows && s.last == s.stores[|s.stores| - 1].time
  }

  /** The table is replaced but its time is not: only while that request holds the data lock. */
  predicate MidStore(s: State) {
    s.dataLock.Some? && s.dataLock.value < |s.pcs| &&
    (s.pcs[s.dataLock.value].WantStamp? || s.pcs[s.dataLock.value].Stamping?)
  }

  /** `k` is a store whose table is `rows`, less than 31 seconds old at `asOf`. */
  predicate RecentStore(s: State, rows: Table, asOf: nat, k: nat) {
    k < |s.stores| && s.stores[k].rows == rows && asOf < s.stores[k].time + 31000
  }

  ghost predicate TableRight(s: State) {
    && (!MidStore(s) ==> Settled(s))
    && (s.stores != [] ==> s.last == s.stores[|s.stores| - 1].time)
    && (s.stores == [] ==> s.last == 0 && (s.data == [] || MidStore(s)))
    && s.last <= s.now
    && forall k | 0 <= k < |s.stores| :: Fetch(s.stores[k].owner, s.stores[k].rows) in s.fetches
  }

  ghost predicate CacheRight(s: State) {
    TableRight(s) && forall r | 0 <= r < |s.pcs| :: PcRight(s, r, s.pcs[r])
  }

  /** What holds of a request `r` standing at `pc`. */
  ghost predicate PcRight(s: State, r: Rid, pc: Pc) {
    match pc
    case WantTime(asOf) => s.stores != [] && asOf <= s.now
    case TestAge(asOf) => s.stores != [] && asOf <= s.now
    case WantCached(asOf, seen) => s.stores != [] && seen <= s.last && asOf < seen + 31000
    case ReadCached(asOf, seen) => s.stores != [] && seen <= s.last && asOf < seen + 31000
    case TryStore(rows) => Fetch(r, rows) in s.fetches
    case Storing(rows) => Fetch(r, rows) in s.fetches
    case WantStamp(rows) => Fetch(r, rows) in s.fetches && s.data == rows
    case Stamping(rows) => Fetch(r, rows) in s.fetches && s.data == rows
    case Answering(rows) => Fetch(r, rows) in s.fetches && s.data == rows
    case Done(Fetched(rows)) => Fetch(r, rows) in s.fetches
    case Done(Cached(rows, asOf)) => exists k: nat :: RecentStore(s, rows, asOf, k)
    case _ => true
  }

  ghost predicate Inv(g: Guard, s: State) {
    LocksRight(g, s) && CacheRight(s)
  }

  // ---------- every step keeps it ----------

  /** Who has a lock after a step of `r`, given whether `r` should hold it now. */
  function Moved(lock: Option<Rid>, r: Rid, holds: bool): Option<Rid> {
    if holds then Some(r) else if lock == Some(r) then None else lock
  }

  /** A step changes the place of one request, and takes or frees a lock only as its places say. */
  lemma {:induction false} LocksMove(g: Guard, s: State, r: Rid, outcome: Option<Table>)
    requires LocksRight(g, s) && r < |s.pcs| && Enabled(s, r)
    ensures var t := Advance(g, s, r, outcome);
            && t.pcs == s.pcs[r := t.pcs[r]]
            && t.dataLock == Moved(s.dataLock, r, HoldsData(g, t.pcs[r]))
            && t.timeLock == Moved(s.timeLock, r, HoldsTime(t.pcs[r]))
            && t.clientLock == Moved(s.clientLock, r, HoldsClient(t.pcs[r]))
            && (HoldsData(g, t.pcs[r]) ==> s.dataLock == None || s.dataLock == Some(r))
            && (HoldsTime(t.pcs[r]) ==> s.timeLock == None || s.timeLock == Some(r))
            && (HoldsClient(t.pcs[r]) ==> s.clientLock == None || s.clientLock == Some(r))
  {
    assert HoldsData(g, s.pcs[r]) <==> s.dataLock == Some(r);
    assert HoldsTime(s.pcs[r]) <==> s.timeLock == Some(r);
    assert HoldsClient(s.pcs[r]) <==> s.clientLock == Some(r);
  }

  lemma {:induction false} AdvanceKeepsLocks(g: Guard, s: State, r: Rid, outcome: Option<Table>)
    requires LocksRight(g, s) && r < |s.pcs| && Enabled(s, r)
    ensures LocksRight(g, Advance(g, s, r, outcome))
  {
    LocksMove(g, s, r, outcome);
    MovedLocks(g, s, Advance(g, s, r, outcome), r);
  }

  lemma {:induction false} MovedLocks(g: Guard, s: State, t: State, r: Rid)
    requires LocksRight(g, s) && r < |s.pcs| == |t.pcs|
    requires t.pcs == s.pcs[r := t.pcs[r]]
    requires t.dataLock == Moved(s.dataLock, r, HoldsData(g, t.pcs[r]))
    requires t.timeLock == Moved(s.timeLock, r, HoldsTime(t.pcs[r]))
    requires t.clientLock == Moved(s.clientLock, r, HoldsClient(t.pcs[r]))
    requires HoldsData(g, t.pcs[r]) ==> s.dataLock == None || s.dataLock == Some(r)
    requires HoldsTime(t.pcs[r]) ==> s.timeLock == None || s.timeLock == Some(r)
    requires HoldsClient(t.pcs[r]) ==> s.clientLock == None || s.clientLock == Some(r)
    ensures LocksRight(g, t)
  {
    forall q | 0 <= q < |t.pcs|
      ensures HoldsData(g, t.pcs[q]) <==> t.dataLock == Some(q)
      ensures HoldsTime(t.pcs[q]) <==> t.timeLock == Some(q)
      ensures HoldsClient(t.pcs[q]) <==> t.clientLock == Some(q)
    {
      assert q != r ==> t.pcs[q] == s.pcs[q];
      assert HoldsData(g, s.pcs[q]) <==> s.dataLock == Some(q);
      assert HoldsTime(s.pcs[q]) <==> s.timeLock == Some(q);
      assert HoldsClient(s.pcs[q]) <==> s.clientLock == Some(q);
    }
  }

  /** The request that steps arrives where it should. */
  lemma {:induction false} MoverRight(g: Guard, s: State, r: Rid, outcome: Option<Table>)
    requires Inv(g, s) && r < |s.pcs| && Enabled(s, r)
    ensures PcRight(Advance(g, s, r, outcome), r, Advance(g, s, r, outcome).pcs[r])
  {
    assert PcRight(s, r, s.pcs[r]);
    var t := Advance(g, s, r, outcome);
    assert t.stores == s.stores || t.stores[..|s.stores|] == s.stores;
    if s.pcs[r].ReadCached? {
      assert !MidStore(s);
      assert RecentStore(t, s.data, s.pcs[r].asOf, |s.stores| - 1);
    }
  }

  /** The others stay right: only a request holding data replaces the table or stamps it, and store
      times never run back. */
  lemma {:induction false} OthersRight(g: Guard, s: State, r: Rid, outcome: Option<Table>, q: Rid)
    requires Inv(g, s) && r < |s.pcs| && Enabled(s, r) && q < |s.pcs| && q != r
    ensures PcRight(Advance(g, s, r, outcome), q, s.pcs[q])
  {
    var pc, t := s.pcs[q], Advance(g, s, r, outcome);
    assert PcRight(s, q, pc);
    assert HoldsData(g, pc) ==> s.dataLock == Some(q);
    assert HoldsData(g, s.pcs[r]) ==> s.dataLock == Some(r);
    if pc.Done? && pc.reply.Cached? {
      var k: nat :| RecentStore(s, pc.reply.rows, pc.reply.asOf, k);
      assert RecentStore(t, pc.reply.rows, pc.reply.asOf, k);
    }
  }

  lemma {:induction false} AdvanceKeepsTable(g: Guard, s: State, r: Rid, outcome: Option<Table>)
    requires Inv(g, s) && r < |s.pcs| && Enabled(s, r)
    ensures TableRight(Advance(g, s, r, outcome))
  {
    assert PcRight(s, r, s.pcs[r]);
    assert HoldsData(g, s.pcs[r]) <==> s.dataLock == Some(r);
    var t := Advance(g, s, r, outcome);
    if s.pcs[r].Stamping? {
      assert !MidStore(t);
    }
  }

  lemma {:induction false} AdvanceKeepsCache(g: Guard, s: State, r: Rid, outcome: Option<Table>)
    requires Inv(g, s) && r < |s.pcs| && Enabled(s, r)
    ensures Inv(g, Advance(g, s, r, outcome))
  {
    var t := Advance(g, s, r, outcome);
    AdvanceKeepsLocks(g, s, r, outcome);
    AdvanceKeepsTable(g, s, r, outcome);
    LocksMove(g, s, r, outcome);
    forall q | 0 <= q < |t.pcs|
      ensures PcRight(t, q, t.pcs[q])
    {
      if q == r {
        MoverRight(g, s, r, outcome);
      } else {
        OthersRight(g, s, r, outcome, q);
      }
    }
  }

  // ---------- over every interleaving ----------

  lemma {:induction false} TimePasses(g: Guard, s: State, t: State)
    requires Inv(g, s) && t == s.(now := t.now) && t.now >= s.now
    ensures Inv(g, t)
  {
    forall r | 0 <= r < |t.pcs|
      ensures PcRight(t, r, t.pcs[r])
    {
      SameTable(s, t, r, s.pcs[r]);
    }
  }

  lemma {:induction false} SameTable(s: State, t: State, r: Rid, pc: Pc)
    requires PcRight(s, r, pc)
    requires t.data == s.data && t.last == s.last && t.stores == s.stores && t.fetches == s.fetches && t.now >= s.now
    ensures PcRight(t, r, pc)
  {
    if pc.Done? && pc.reply.Cached? {
      var k: nat :| RecentStore(s, pc.reply.rows, pc.reply.asOf, k);
      assert RecentStore(t, pc.reply.rows, pc.reply.asOf, k);
    }
  }

  lemma {:induction false} RequestArrives(g: Guard, s: State, t: State)
    requires Inv(g, s) && t == s.(pcs := s.pcs + [Start])
    ensures Inv(g, t)
  {
    forall r | 0 <= r < |t.pcs|
      ensures PcRight(t, r, t.pcs[r])
    {
      if r < |s.pcs| {
        SameTable(s, t, r, s.pcs[r]);
      }
    }
    assert t.pcs[|s.pcs|] == Start;
  }

  lemma {:induction false} RunKeepsInv(g: Guard, run: seq<State>)
    requires IsRun(g, run)
    ensures Inv(g, run[|run| - 1])
    decreases |run|
  {
    if |run| > 1 {
      var front, s, t := run[..|run| - 1], run[|run| - 2], run[|run| - 1];
      forall i | 0 <= i < |front| - 1
        ensures Step(g, front[i], front[i + 1])
      {
        assert Step(g, run[i], run[i + 1]);
      }
      RunKeepsInv(g, front);
      assert Step(g, run[|run| - 2], run[|run| - 2 + 1]);
      if t == s.(now := t.now) && t.now >= s.now {
        TimePasses(g, s, t);
      } else if t == s.(pcs := s.pcs + [Start]) {
        RequestArrives(g, s, t);
      } else {
        var r: Rid, outcome :| r < |s.pcs| && Enabled(s, r) && t == Advance(g, s, r, outcome);
        AdvanceKeepsCache(g, s, r, outcome);
      }
    }
  }

  /** Whenever the data lock is free, the cache is untouched, or one whole result of `get_peers`
      beside the time it was stored. */
  lemma {:induction false} CacheIsWhole(g: Guard, run: seq<State>)
    requires IsRun(g, run)
    ensures var s := run[|run| - 1];
            s.dataLock == None ==>
              || (s.stores == [] && s.data == [] && s.last == 0)
              || (s.stores != [] && exists q :: s.stores[|s.stores| - 1] == Store(s.data, s.last, q)
                                                && Fetch(q, s.data) in s.fetches)
  {
    RunKeepsInv(g, run);
    var s := run[|run| - 1];
    if s.dataLock == None && s.stores != [] {
      assert s.stores[|s.stores| - 1] == Store(s.data, s.last, s.stores[|s.stores| - 1].owner);
    }
  }

  /** A reply from the cache is the table of one store, less than 31 seconds old at the clock its
      freshness was judged by. */
  lemma {:induction false} CachedReplyIsRecent(g: Guard, run: seq<State>, r: Rid)
    requires IsRun(g, run)
    requires var s := run[|run| - 1]; r < |s.pcs| && s.pcs[r].Done? && s.pcs[r].reply.Cached?
    ensures var s := run[|run| - 1];
            exists k: nat :: RecentStore(s, s.pcs[r].reply.rows, s.pcs[r].reply.asOf, k)
                             && Fetch(s.stores[k].owner, s.pcs[r].reply.rows) in s.fetches
  {
    var s := run[|run| - 1];
    RunKeepsInv(g, run);
    assert PcRight(s, r, s.pcs[r]);
  }

  /** Every reply that carries rows carries one whole result of `get_peers`: the request's own, unless it
      answered from the cache. */
  lemma {:induction false} RepliesAreWhole(g: Guard, run: seq<State>, r: Rid)
    requires IsRun(g, run)
    requires var s := run[|run| - 1]; r < |s.pcs| && s.pcs[r].Done? && !s.pcs[r].reply.Failed?
    ensures var s := run[|run| - 1];
            match s.pcs[r].reply
            case Fetched(rows) => Fetch(r, rows) in s.fetches
            case Cached(rows, _) => exists q :: Fetch(q, rows) in s.fetches
            case Failed => true
  {
    var s := run[|run| - 1];
    RunKeepsInv(g, run);
    assert PcRight(s, r, s.pcs[r]);
  }

  /** The request in the way of `r`: the holder of the lock it waits for. */
  function Blocker(s: State, r: Rid): Option<Rid>
    requires r < |s.pcs|
  {
    match s.pcs[r]
    case Start | WantCached(_, _) => s.dataLock
    case WantTime(_) | WantStamp(_) => s.timeLock
    case WantClient => s.clientLock
    case _ => None
  }

  /** No request deadlocks: from any waiting request, at most two lock holders on, someone can step. */
  lemma {:induction false} NoDeadlock(g: Guard, run: seq<State>, r: Rid) returns (q: Rid)
    requires IsRun(g, run)
    requires r < |run[|run| - 1].pcs| && !run[|run| - 1].pcs[r].Done?
    ensures var s := run[|run| - 1]; q < |s.pcs| && Enabled(s, q)
    ensures var s := run[|run| - 1];
            || q == r
            || Blocker(s, r) == Some(q)
            || (Blocker(s, r).Some? && Blocker(s, r).value < |s.pcs| && Blocker(s, Blocker(s, r).value) == Some(q))
  {
    var s := run[|run| - 1];
    RunKeepsInv(g, run);
    q := r;
    if !Enabled(s, q) {
      q := Blocker(s, r).value;
      BlockerHolds(g, s, r, q);
      if !Enabled(s, q) {
        var h := Blocker(s, q).value;
        BlockerHolds(g, s, q, h);
        q := h;
      }
    }
  }

  lemma {:induction false} BlockerHolds(g: Guard, s: State, r: Rid, h: Rid)
    requires LocksRight(g, s) && r < |s.pcs| && !Enabled(s, r) && !s.pcs[r].Done?
    requires Blocker(s, r) == Some(h)
    ensures h < |s.pcs|
    ensures match s.pcs[r]
            case Start | WantCached(_, _) => HoldsData(g, s.pcs[h])
            case WantTime(_) | WantStamp(_) => HoldsTime(s.pcs[h])
            case _ => HoldsClient(s.pcs[h])
  {}

  /** The steps a request has left; each one it takes leaves fewer, whatever the others do. */
  function StepsLeft(pc: Pc): nat {
    match pc
    case Start => 11
    case TestEmpty => 10
    case WantTime(_) => 9
    case TestAge(_) => 8
    case WantClient => 7
    case Fetching => 6
    case TryStore(_) => 5
    case Storing(_) => 4
    case WantStamp(_) => 3
    case Stamping(_) => 2
    case Answering(_) => 1
    case WantCached(_, _) => 2
    case ReadCached(_, _) => 1
    case Done(_) => 0
  }

  lemma {:induction false} StepsRunOut(g: Guard, s: State, r: Rid, outcome: Option<Table>, q: Rid)
    requires r < |s.pcs| && Enabled(s, r) && q < |s.pcs|
    ensures var t := Advance(g, s, r, outcome);
            && |t.pcs| == |s.pcs|
            && StepsLeft(t.pcs[q]) <= StepsLeft(s.pcs[q])
            && (q == r ==> StepsLeft(t.pcs[q]) < StepsLeft(s.pcs[q]) <= 11)
  {}

  function AllLeft(pcs: seq<Pc>): nat {
    if pcs == [] then 0 else AllLeft(pcs[..|pcs| - 1]) + StepsLeft(pcs[|pcs| - 1])
  }

  lemma {:induction false} OneFewer(a: seq<Pc>, b: seq<Pc>, r: Rid)
    requires r < |a| == |b| && StepsLeft(b[r]) < StepsLeft(a[r])
    requires forall q | 0 <= q < |a| && q != r :: b[q] == a[q]
    ensures AllLeft(b) < AllLeft(a)
    decreases |a|
  {
    var n := |a| - 1;
    if r == n {
      assert a[..n] == b[..n];
    } else {
      OneFewer(a[..n], b[..n], r);
    }
  }

  lemma {:induction false} OneMoreStep(g: Guard, run: seq<State>, r: Rid, outcome: Option<Table>)
      returns (more: seq<State>)
    requires IsRun(g, run) && r < |run[|run| - 1].pcs| && Enabled(run[|run| - 1], r)
    ensures more == run + [Advance(g, run[|run| - 1], r, outcome)] && IsRun(g, more)
  {
    assert Step(g, run[|run| - 1], Advance(g, run[|run| - 1], r, outcome));
    more := RunSnoc(g, run, Advance(g, run[|run| - 1], r, outcome));
  }

  lemma {:induction false} RunSnoc(g: Guard, run: seq<State>, t: State) returns (more: seq<State>)
    requires IsRun(g, run) && Step(g, run[|run| - 1], t)
    ensures more == run + [t] && IsRun(g, more)
  {
    more := run + [t];
    forall i | 0 <= i < |more| - 1
      ensures Step(g, more[i], more[i + 1])
    {
      assert i < |run| - 1 ==> Step(g, run[i], run[i + 1]);
    }
  }

  predicate AllDone(pcs: seq<Pc>) {
    forall r | 0 <= r < |pcs| :: pcs[r].Done?
  }

  /** From any point of any run all requests can be brought to their ends, with no more steps than they
      have left. */
  lemma {:induction false} AllCanFinish(g: Guard, run: seq<State>) returns (more: seq<State>)
    requires IsRun(g, run)
    ensures IsRun(g, more) && run <= more && |more| <= |run| + AllLeft(run[|run| - 1].pcs)
    ensures |more[|more| - 1].pcs| == |run[|run| - 1].pcs|
    ensures AllDone(more[|more| - 1].pcs)
    decreases AllLeft(run[|run| - 1].pcs)
  {
    var s := run[|run| - 1];
    if r: Rid :| r < |s.pcs| && !s.pcs[r].Done? {
      var q := NoDeadlock(g, run, r);
      var t := Advance(g, s, q, None);
      OnlyAppends(g, s, q, None);
      StepsRunOut(g, s, q, None, q);
      OneFewer(s.pcs, t.pcs, q);
      more := OneMoreStep(g, run, q, None);
      more := AllCanFinish(g, more);
    } else {
      more := run;
    }
  }

  // ---------- one request at a time ----------

  /** All requests but `r` are at their ends. */
  predicate Alone(pcs: seq<Pc>, r: Rid) {
    r < |pcs| && forall q | 0 <= q < |pcs| && q != r :: pcs[q].Done?
  }

  function FetchReply(outcome: Option<Table>): Reply {
    match outcome
    case None => Failed
    case Some(rows) => Fetched(rows)
  }

  /** What a request standing at `pc` will answer, if nobody and no time comes in between. */
  function Verdict(s: State, pc: Pc, outcome: Option<Table>): Reply {
    match pc
    case Start | TestEmpty =>
      if s.data != [] && s.now < s.last + 31000 then Cached(s.data, s.now) else FetchReply(outcome)
    case WantTime(asOf) => if asOf < s.last + 31000 then Cached(s.data, asOf) else FetchReply(outcome)
    case TestAge(asOf) => if asOf < s.last + 31000 then Cached(s.data, asOf) else FetchReply(outcome)
    case WantClient | Fetching => FetchReply(outcome)
    case TryStore(rows) => Fetched(rows)
    case Storing(rows) => Fetched(rows)
    case WantStamp(rows) => Fetched(rows)
    case Stamping(rows) => Fetched(rows)
    case Answering(_) => Fetched(s.data)
    case WantCached(asOf, _) => Cached(s.data, asOf)
    case ReadCached(asOf, _) => Cached(s.data, asOf)
    case Done(reply) => reply
  }

  /** The table it will leave, and its time: what it fetches, or what was there. */
  function Leaves(s: State, pc: Pc, outcome: Option<Table>): (Table, nat) {
    match pc
    case Answering(_) => (s.data, s.last)
    case Done(_) => (s.data, s.last)
    case _ => if Verdict(s, pc, outcome).Fetched? then (Verdict(s, pc, outcome).rows, s.now) else (s.data, s.last)
  }

  lemma {:induction false} StillAlone(g: Guard, s: State, r: Rid, outcome: Option<Table>)
    requires Alone(s.pcs, r) && Enabled(s, r)
    ensures var t := Advance(g, s, r, outcome); Alone(t.pcs, r) && t.now == s.now
  {
    OnlyAppends(g, s, r, outcome);
  }

  lemma {:induction false} AloneStep(g: Guard, s: State, r: Rid, outcome: Option<Table>)
    requires LocksRight(g, s) && Alone(s.pcs, r) && Enabled(s, r) && PcRight(s, r, s.pcs[r])
    ensures var t := Advance(g, s, r, outcome);
            && |t.pcs| == |s.pcs|
            && Verdict(t, t.pcs[r], outcome) == Verdict(s, s.pcs[r], outcome)
            && Leaves(t, t.pcs[r], outcome) == Leaves(s, s.pcs[r], outcome)
  {
    var t := Advance(g, s, r, outcome);
    if s.pcs[r].TestAge? {
      WholeSeconds(s.pcs[r].asOf, s.last);
    }
    if s.pcs[r].TryStore? {
      assert s.dataLock.Some? ==> HoldsData(g, s.pcs[s.dataLock.value]);
    }
  }

  lemma {:induction false} AloneEnds(g: Guard, run: seq<State>, r: Rid, outcome: Option<Table>)
      returns (more: seq<State>)
    requires IsRun(g, run) && Alone(run[|run| - 1].pcs, r)
    ensures IsRun(g, more) && run <= more
    ensures var s, t := run[|run| - 1], more[|more| - 1];
            && t.now == s.now && |t.pcs| == |s.pcs| && t.pcs[r] == Done(Verdict(s, s.pcs[r], outcome))
            && (t.data, t.last) == Leaves(s, s.pcs[r], outcome)
    decreases StepsLeft(run[|run| - 1].pcs[r])
  {
    var s := run[|run| - 1];
    if s.pcs[r].Done? {
      more := run;
    } else {
      RunKeepsInv(g, run);
      var q := NoDeadlock(g, run, r);
      assert q == r;
      StillAlone(g, s, r, outcome);
      AloneStep(g, s, r, outcome);
      StepsRunOut(g, s, r, outcome, r);
      more := OneMoreStep(g, run, r, outcome);
      more := AloneEnds(g, more, r, outcome);
    }
  }

  lemma {:induction false} RequestComes(g: Guard, run: seq<State>, wait: nat) returns (more: seq<State>)
    requires IsRun(g, run)
    ensures IsRun(g, more) && run <= more
    ensures var s := run[|run| - 1];
            more[|more| - 1] == s.(now := s.now + wait, pcs := s.pcs + [Start])
  {
    var s := run[|run| - 1];
    var later := s.(now := s.now + wait);
    assert Step(g, s, later);
    more := RunSnoc(g, run, later);
    assert Step(g, later, later.(pcs := later.pcs + [Start]));
    more := RunSnoc(g, more, later.(pcs := later.pcs + [Start]));
  }

  /** A request that comes when all others are done, `wait` later: from the cache if there is a table less
      than 31 seconds old, which stays; else from its own fetch, which replaces the table and its time,
      unless it fails. */
  lemma {:induction false} RequestAlone(g: Guard, run: seq<State>, wait: nat, outcome: Option<Table>)
      returns (more: seq<State>)
    requires IsRun(g, run) && AllDone(run[|run| - 1].pcs)
    ensures IsRun(g, more) && run <= more
    ensures var s, t := run[|run| - 1], more[|more| - 1];
            var now := s.now + wait;
            && t.now == now && |t.pcs| == |s.pcs| + 1
            && var reply := t.pcs[|s.pcs|];
               if s.data != [] && now < s.last + 31000 then
                 reply == Done(Cached(s.data, now)) && t.data == s.data && t.last == s.last
               else if outcome == None then reply == Done(Failed) && t.data == s.data && t.last == s.last
               else reply == Done(Fetched(outcome.value)) && t.data == outcome.value && t.last == now
  {
    var s := run[|run| - 1];
    more := RequestComes(g, run, wait);
    more := AloneEnds(g, more, |s.pcs|, outcome);
  }

  // ---------- what is served from where ----------

  /** The decisions: a request fetches when it finds the table empty, or the latest store at least 31
      seconds old; otherwise it answers from the cache, with the table it finds there. It fails only when
      the fetch does. */
  lemma {:induction false} Decisions(g: Guard, s: State, r: Rid, outcome: Option<Table>)
    requires r < |s.pcs| && Enabled(s, r)
    ensures var next := Advance(g, s, r, outcome).pcs[r];
            && (s.pcs[r] == TestEmpty ==> next == if s.data == [] then WantClient else WantTime(s.now))
            && (s.pcs[r].TestAge? ==>
                  var asOf := s.pcs[r].asOf;
                  next == if asOf < s.last + 31000 then WantCached(asOf, s.last) else WantClient)
            && (s.pcs[r].ReadCached? ==> next == Done(Cached(s.data, s.pcs[r].asOf)))
            && (s.pcs[r] == Fetching ==> next == if outcome.Some? then TryStore(outcome.value) else Done(Failed))
  {
    if s.pcs[r].TestAge? {
      WholeSeconds(s.pcs[r].asOf, s.last);
    }
  }

  lemma {:induction false} WholeSeconds(asOf: nat, seen: nat)
    ensures Stale(asOf, seen) <==> asOf >= seen + 31000
  {}

  /** The client is asked only by requests that decided to fetch, and not when the cache is fresh. */
  predicate OnCachedPath(pc: Pc) {
    pc.WantCached? || pc.ReadCached? || (pc.Done? && pc.reply.Cached?)
  }

  lemma {:induction false} PathStep(g: Guard, s: State, t: State, r: Rid)
    requires Step(g, s, t) && r < |s.pcs| && OnCachedPath(s.pcs[r])
    ensures r < |t.pcs| && OnCachedPath(t.pcs[r])
  {
    if q: Rid, outcome :| q < |s.pcs| && Enabled(s, q) && t == Advance(g, s, q, outcome) {
      OnlyAppends(g, s, q, outcome);
      if q == r {
        OwnPathStep(g, s, r, outcome);
      }
    }
  }

  lemma {:induction false} OwnPathStep(g: Guard, s: State, r: Rid, outcome: Option<Table>)
    requires r < |s.pcs| && Enabled(s, r) && OnCachedPath(s.pcs[r])
    ensures OnCachedPath(Advance(g, s, r, outcome).pcs[r])
  {}

  predicate OnPathAt(run: seq<State>, r: Rid, n: nat) {
    n < |run| && r < |run[n].pcs| && OnCachedPath(run[n].pcs[r])
  }

  lemma {:induction false} PathGoesOn(g: Guard, run: seq<State>, r: Rid, n: nat)
    requires IsRun(g, run) && n + 1 < |run| && OnPathAt(run, r, n)
    ensures OnPathAt(run, r, n + 1)
  {
    PathStep(g, run[n], run[n + 1], r);
  }

  lemma {:induction false} StaysOnPath(g: Guard, run: seq<State>, r: Rid, i: nat, n: nat)
    requires IsRun(g, run) && i <= n < |run| && OnPathAt(run, r, i)
    ensures OnPathAt(run, r, n)
  {
    forall k: nat | i <= k < n && OnPathAt(run, r, k)
      ensures OnPathAt(run, r, k + 1)
    {
      PathGoesOn(g, run, r, k);
    }
    Induction.Carries((k: nat) => OnPathAt(run, r, k), i, n);
  }

  /** Over every run: once a request finds the latest store less than 31 seconds old, it never holds the
      client, and when it is done it has answered from the cache. */
  lemma {:induction false} FreshIsServed(g: Guard, run: seq<State>, r: Rid, i: nat, n: nat, outcome: Option<Table>)
    requires IsRun(g, run) && i < n < |run| && r < |run[i].pcs| && Enabled(run[i], r)
    requires run[i].pcs[r].TestAge? && run[i].pcs[r].asOf < run[i].last + 31000
    requires run[i + 1] == Advance(g, run[i], r, outcome)
    ensures r < |run[n].pcs| && run[n].clientLock != Some(r)
    ensures run[n].pcs[r].Done? ==> run[n].pcs[r].reply.Cached?
  {
    Decisions(g, run[i], r, outcome);
    StaysOnPath(g, run, r, i + 1, n);
    LocksAt(g, run, n);
    assert HoldsClient(run[n].pcs[r]) <==> run[n].clientLock == Some(r);
  }

  lemma {:induction false} LocksAt(g: Guard, run: seq<State>, n: nat)
    requires IsRun(g, run) && n < |run|
    ensures Inv(g, run[n])
  {
    var front := run[..n + 1];
    forall i | 0 <= i < |front| - 1
      ensures Step(g, front[i], front[i + 1])
    {
      assert Step(g, run[i], run[i + 1]);
    }
    RunKeepsInv(g, front);
  }

  // ---------- what is fetched is stored ----------

  /** A fetched table goes to the cache when its lock is free, and only to the one who asked when not. */
  lemma {:induction false} TriesToStore(g: Guard, s: State, r: Rid, outcome: Option<Table>)
    requires r < |s.pcs| && s.pcs[r].TryStore?
    ensures Enabled(s, r)
    ensures var t, rows := Advance(g, s, r, outcome), s.pcs[r].rows;
            if s.dataLock == None then t.dataLock == Some(r) && t.pcs[r] == Storing(rows)
            else t.pcs[r] == Done(Fetched(rows)) && t.data == s.data && t.stores == s.stores
  {}

  /** Request `r` is storing `rows`, or has stored them. */
  ghost predicate StoresOrStored(s: State, r: Rid, rows: Table) {
    && r < |s.pcs|
    && (s.pcs[r] == Storing(rows) || s.pcs[r] == WantStamp(rows) || s.pcs[r] == Stamping(rows)
        || ((s.pcs[r] == Answering(rows) || s.pcs[r] == Done(Fetched(rows)))
            && exists k :: 0 <= k < |s.stores| && s.stores[k].owner == r && s.stores[k].rows == rows))
  }

  lemma {:induction false} StillThere(s: State, t: State, r: Rid, rows: Table)
    requires StoresOrStored(s, r, rows) && r < |t.pcs| && t.pcs[r] == s.pcs[r] && s.stores <= t.stores
    ensures StoresOrStored(t, r, rows)
  {
    if s.pcs[r].Answering? || s.pcs[r].Done? {
      var k :| 0 <= k < |s.stores| && s.stores[k].owner == r && s.stores[k].rows == rows;
      assert t.stores[k] == s.stores[k];
    }
  }

  lemma {:induction false} OnlyAppends(g: Guard, s: State, r: Rid, outcome: Option<Table>)
    requires r < |s.pcs| && Enabled(s, r)
    ensures s.stores <= Advance(g, s, r, outcome).stores
    ensures forall q | 0 <= q < |s.pcs| && q != r :: Advance(g, s, r, outcome).pcs[q] == s.pcs[q]
  {}

  lemma {:induction false} OwnStoring(g: Guard, s: State, r: Rid, outcome: Option<Table>, rows: Table)
    requires r < |s.pcs| && PcRight(s, r, s.pcs[r]) && Enabled(s, r) && StoresOrStored(s, r, rows)
    ensures StoresOrStored(Advance(g, s, r, outcome), r, rows)
  {
    var t := Advance(g, s, r, outcome);
    if s.pcs[r].Stamping? {
      assert t.stores[|s.stores|] == Store(rows, s.now, r);
    } else if s.pcs[r].Answering? {
      var k :| 0 <= k < |s.stores| && s.stores[k].owner == r && s.stores[k].rows == rows;
      assert t.stores[k] == s.stores[k];
    }
  }

  lemma {:induction false} StoringStep(g: Guard, s: State, t: State, r: Rid, rows: Table)
    requires CacheRight(s) && Step(g, s, t) && StoresOrStored(s, r, rows)
    ensures StoresOrStored(t, r, rows)
  {
    if q: Rid, outcome :| q < |s.pcs| && Enabled(s, q) && t == Advance(g, s, q, outcome) {
      OnlyAppends(g, s, q, outcome);
      if q == r {
        OwnStoring(g, s, r, outcome, rows);
      } else {
        StillThere(s, t, r, rows);
      }
    } else {
      StillThere(s, t, r, rows);
    }
  }

  /** Over every run: a fetch that found the data lock free is in the cache by the time its request
      answers, and its request answers with it. */
  lemma {:induction false} FetchIsStored(g: Guard, run: seq<State>, r: Rid, i: nat, n: nat, rows: Table)
    requires IsRun(g, run) && i <= n < |run| && r < |run[i].pcs| && run[i].pcs[r] == Storing(rows)
    ensures r < |run[n].pcs|
    ensures run[n].pcs[r].Done? ==>
              && run[n].pcs[r] == Done(Fetched(rows))
              && exists k :: 0 <= k < |run[n].stores| && run[n].stores[k].owner == r && run[n].stores[k].rows == rows
  {
    StillStored(g, run, r, i, n, rows);
  }

  lemma {:induction false} StillStored(g: Guard, run: seq<State>, r: Rid, i: nat, n: nat, rows: Table)
    requires IsRun(g, run) && i <= n < |run| && r < |run[i].pcs| && run[i].pcs[r] == Storing(rows)
    ensures StoresOrStored(run[n], r, rows)
  {
    forall k: nat | i <= k < n && StoresAt(run, r, k, rows)
      ensures StoresAt(run, r, k + 1, rows)
    {
      StoringAt(g, run, r, k, rows);
    }
    Induction.Carries((k: nat) => StoresAt(run, r, k, rows), i, n);
  }

  ghost predicate StoresAt(run: seq<State>, r: Rid, n: nat, rows: Table) {
    n < |run| && StoresOrStored(run[n], r, rows)
  }

  lemma {:induction false} StoringAt(g: Guard, run: seq<State>, r: Rid, n: nat, rows: Table)
    requires IsRun(g, run) && n + 1 < |run| && StoresOrStored(run[n], r, rows)
    ensures StoresOrStored(run[n + 1], r, rows)
  {
    var s, t := run[n], run[n + 1];
    LocksAt(g, run, n);
    assert Step(g, s, t);
    StoringStep(g, s, t, r, rows);
  }
}
