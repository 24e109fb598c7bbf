/** Witnesses: who vouched for a peer since it was last upgraded, when an unknown report upgrades
    it, and what the accounts add up to. Told from the peer's history of reports alone. */
module Witnesses {
  import opened Wrappers
  import opened Redis
  import opened Keys
  import opened Arms
  import opened Leases

  predicate IsReachable(i: Input) {
    i.report.ReachableReport?
  }

  /** Report `i` is an unknown report that finds the peer offline and vouched for often enough. */
  ghost predicate IsUpgrade(env: Env, h: seq<Input>, i: nat)
    requires i <= |h|
    decreases i, 2
  {
    && i < |h|
    && h[i].report.UnknownReport?
    && Dead(env, h[..i], h[i].at)
    && |Since(env, h[..i])| >= env.witnesses
  }

  /** Reachable report `k` came after every upgrade. */
  ghost predicate Counts(env: Env, h: seq<Input>, k: nat)
    requires k < |h|
    decreases |h|, 0
  {
    IsReachable(h[k]) && forall u: nat | k < u < |h| :: !IsUpgrade(env, h, u)
  }

  /** The distinct reporters since the last upgrade. */
  ghost function Since(env: Env, h: seq<Input>): set<string>
    decreases |h|, 1
  {
    set k: nat | k < |h| && Counts(env, h, k) :: if IsReachable(h[k]) then h[k].report.from.peerId else ""
  }

  lemma {:induction false} UpgradePrefix(env: Env, g: seq<Input>, x: Input, i: nat)
    requires i < |g|
    ensures IsUpgrade(env, g + [x], i) <==> IsUpgrade(env, g, i)
  {
    assert (g + [x])[..i] == g[..i];
  }

  /** How one more report changes the set of witnesses. */
  lemma {:induction false} SinceSnoc(env: Env, g: seq<Input>, x: Input)
    ensures Since(env, g + [x]) ==
            if IsUpgrade(env, g + [x], |g|) then {}
            else if IsReachable(x) then Since(env, g) + {x.report.from.peerId}
            else Since(env, g)
  {
    var h := g + [x];
    forall k: nat | k < |g|
      ensures Counts(env, h, k) <==> Counts(env, g, k) && !IsUpgrade(env, h, |g|)
    {
      CountsPrefix(env, g, x, k);
    }
    assert Counts(env, h, |g|) <==> IsReachable(x);
    if IsUpgrade(env, h, |g|) {
      assert Since(env, h) == {};
    } else {
      forall p
        ensures p in Since(env, h) <==> p in Since(env, g) || (IsReachable(x) && p == x.report.from.peerId)
      {
        SinceMember(env, h, p);
        SinceMember(env, g, p);
        if p in Since(env, g) {
          var k: nat :| k < |g| && Counts(env, g, k) && g[k].report.from.peerId == p;
          assert Counts(env, h, k) && h[k] == g[k];
        }
        if IsReachable(x) && p == x.report.from.peerId {
          assert h[|g|] == x;
        }
      }
    }
  }

  lemma {:induction false} SinceMember(env: Env, h: seq<Input>, p: string)
    ensures p in Since(env, h) <==> exists k: nat :: k < |h| && Counts(env, h, k) && h[k].report.from.peerId == p
  {}

  lemma {:induction false} CountsPrefix(env: Env, g: seq<Input>, x: Input, k: nat)
    requires k < |g|
    ensures Counts(env, g + [x], k) <==> Counts(env, g, k) && !IsUpgrade(env, g + [x], |g|)
  {
    forall u: nat | u < |g|
      ensures IsUpgrade(env, g + [x], u) <==> IsUpgrade(env, g, u)
    {
      UpgradePrefix(env, g, x, u);
    }
  }

  // ---------- the witness set ----------

  /** A set key and the set it stands for: redis keeps no empty sets. */
  predicate HoldsSet(e: Option<Entry>, s: set<string>) {
    e == if s == {} then None else Some(Entry(Members(s), None))
  }

  ghost predicate WitnessKey(env: Env, h: seq<Input>) {
    HoldsSet(Find(Run(env, h), Reachable), Since(env, h))
  }

  /** What the unknown arm decides on, read from the history instead of the store. */
  lemma {:induction false} UpgradeGuard(env: Env, g: seq<Input>, x: Input)
    requires env.Sound() && Ordered(g, x.at) && WitnessKey(env, g)
    ensures IsUpgrade(env, g + [x], |g|) <==>
            UpgradesOn(env, Find(Run(env, g), Online), Find(Run(env, g), Reachable), x)
  {
    assert (g + [x])[..|g|] == g;
    OnlineLease(env, g, x.at, "");
  }

  lemma {:induction false} WitnessStep(env: Env, g: seq<Input>, x: Input)
    requires env.Sound() && Ordered(g, x.at) && WitnessKey(env, g)
    ensures WitnessKey(env, g + [x])
  {
    SinceSnoc(env, g, x);
    ReachableKey(env, g, x);
    UpgradeGuard(env, g, x);
    SetStep(env, Find(Run(env, g), Online), Find(Run(env, g), Reachable), Since(env, g), x);
  }

  lemma {:induction false} SetStep(env: Env, online: Option<Entry>, e: Option<Entry>, s: set<string>, x: Input)
    requires HoldsSet(e, s)
    ensures HoldsSet(ReachableNext(env, online, e, x),
                     if UpgradesOn(env, online, e, x) then {}
                     else if IsReachable(x) then s + {x.report.from.peerId}
                     else s)
  {
    if IsReachable(x) {
      assert x.report.from.peerId in s + {x.report.from.peerId};
      assert {} + {x.report.from.peerId} == {x.report.from.peerId};
    }
  }

  /** The set under the reachable key is exactly the distinct reporters since the last upgrade. */
  lemma {:induction false} WitnessSet(env: Env, h: seq<Input>, t: nat)
    requires env.Sound() && Ordered(h, t)
    ensures WitnessKey(env, h)
    ensures SMembers(Run(env, h), t, Reachable) == Since(env, h)
  {
    if h != [] {
      var g, x := h[..|h| - 1], h[|h| - 1];
      assert h == g + [x];
      WitnessSet(env, g, x.at);
      WitnessStep(env, g, x);
    }
  }

  // ---------- conservation ----------

  ghost function Upgrades(env: Env, h: seq<Input>): nat {
    if h == [] then 0
    else Upgrades(env, h[..|h| - 1]) + if IsUpgrade(env, h, |h| - 1) then 1 else 0
  }

  function Vouches(h: seq<Input>): nat {
    if h == [] then 0 else Vouches(h[..|h| - 1]) + if IsReachable(h[|h| - 1]) then 1 else 0
  }

  /** Every upgrade is paid for by at least the threshold of distinct reporters, none of whom is
      counted again: W times the upgrades plus the witnesses still held never exceeds the number of
      reachable reports, redelivered ones included. */
  lemma {:induction false} WitnessConservation(env: Env, h: seq<Input>)
    ensures env.witnesses * Upgrades(env, h) + |Since(env, h)| <= Vouches(h)
  {
    if h != [] {
      var g, x := h[..|h| - 1], h[|h| - 1];
      assert h == g + [x];
      WitnessConservation(env, g);
      SinceSnoc(env, g, x);
      if IsUpgrade(env, h, |g|) {
        assert h[..|g|] == g;
        PaidOnceMore(env.witnesses, Upgrades(env, g));
      }
    }
  }

  lemma {:induction false} PaidOnceMore(w: nat, n: nat)
    ensures w * (n + 1) == w * n + w
  {}

  /** A report delivered again before any upgrade adds no witness and changes no status key. */
  lemma {:induction false} RedeliveryAddsNothing(env: Env, h: seq<Input>, x: Input, f: Family)
    requires env.Sound() && Ordered(h, x.at)
    requires IsReachable(x) && x.report.from.peerId in Since(env, h)
    requires f in {Online, Online2, Reachable, Unknown}
    ensures Since(env, h + [x]) == Since(env, h)
    ensures Find(Run(env, h + [x]), f) == Find(Run(env, h), f)
  {
    SinceSnoc(env, h, x);
    assert Since(env, h) + {x.report.from.peerId} == Since(env, h);
    match f {
      case Online => OnlineKey(env, h, x);
      case Online2 => Online2Key(env, h, x);
      case Unknown => UnknownKey(env, h, x);
      case _ =>
        WitnessSet(env, h, x.at);
        ReachableKey(env, h, x);
        AddedAgain(Since(env, h), Find(Run(env, h), Reachable), x);
    }
  }

  lemma {:induction false} AddedAgain(s: set<string>, e: Option<Entry>, x: Input)
    requires IsReachable(x) && x.report.from.peerId in s && HoldsSet(e, s)
    ensures Apply(e, x.at, SAdd(x.report.from.peerId)) == e
  {
    assert s + {x.report.from.peerId} == s;
  }

  // ---------- the unknown lease ----------

  /** Report `u` upgraded the peer and no online report came after it. */
  ghost predicate OpensUnknown(env: Env, h: seq<Input>, u: nat) {
    u < |h| && IsUpgrade(env, h, u) && forall k | u < k < |h| :: !IsOnline(h[k])
  }

  ghost predicate UnknownKeyIs(env: Env, h: seq<Input>, e: Option<Entry>) {
    match e
    case None => forall u: nat :: !OpensUnknown(env, h, u)
    case Some(entry) => exists u: nat :: UnknownEntry(env, h, entry, u)
  }

  ghost predicate UnknownEntry(env: Env, h: seq<Input>, e: Entry, u: nat) {
    && OpensUnknown(env, h, u)
    && (forall k: nat | u < k < |h| :: !IsUpgrade(env, h, k))
    && e == Entry(Text("unknown"), Some(h[u].at + 1000 * env.unknownTimeout))
  }

  lemma {:induction false} UnknownKeyStep(env: Env, g: seq<Input>, x: Input, online: Option<Entry>,
                                          reachable: Option<Entry>, was: Option<Entry>)
    requires UnknownKeyIs(env, g, was)
    requires IsUpgrade(env, g + [x], |g|) <==> UpgradesOn(env, online, reachable, x)
    ensures UnknownKeyIs(env, g + [x], UnknownNext(env, online, reachable, was, x))
  {
    var h := g + [x];
    var e := UnknownNext(env, online, reachable, was, x);
    forall u: nat | u < |g|
      ensures IsUpgrade(env, h, u) <==> IsUpgrade(env, g, u)
      ensures OpensUnknown(env, h, u) <==> OpensUnknown(env, g, u) && !IsOnline(x)
    {
      UpgradePrefix(env, g, x, u);
      if OpensUnknown(env, g, u) && !IsOnline(x) {
        forall k | u < k < |h|
          ensures !IsOnline(h[k])
        {}
      }
      if OpensUnknown(env, h, u) {
        assert !IsOnline(h[|g|]);
        forall k | u < k < |g|
          ensures !IsOnline(g[k])
        {
          assert !IsOnline(h[k]);
        }
      }
    }
    if IsUpgrade(env, h, |g|) {
      assert UnknownEntry(env, h, e.value, |g|);
    } else if !IsOnline(x) && was.Some? {
      var u: nat :| UnknownEntry(env, g, was.value, u);
      assert UnknownEntry(env, h, was.value, u);
    }
  }

  lemma {:induction false} UnknownTracksHistory(env: Env, h: seq<Input>, t: nat)
    requires env.Sound() && Ordered(h, t)
    ensures UnknownKeyIs(env, h, Find(Run(env, h), Unknown))
  {
    if h != [] {
      var g, x := h[..|h| - 1], h[|h| - 1];
      assert h == g + [x];
      UnknownTracksHistory(env, g, x.at);
      WitnessSet(env, g, x.at);
      UpgradeGuard(env, g, x);
      UnknownKey(env, g, x);
      UnknownKeyStep(env, g, x, Find(Run(env, g), Online), Find(Run(env, g), Reachable), Find(Run(env, g), Unknown));
    }
  }

  /** The unknown lease over every timed history: live at `t` exactly when an upgrade less than the
      unknown timeout ago was followed by no online report. */
  lemma {:induction false} UnknownLease(env: Env, h: seq<Input>, t: nat)
    requires env.Sound() && Ordered(h, t)
    ensures Live(Find(Run(env, h), Unknown), t).Some? <==>
            exists u: nat :: OpensUnknown(env, h, u) && t < h[u].at + 1000 * env.unknownTimeout
    ensures Get(Run(env, h), t, Unknown).Some? <==> Live(Find(Run(env, h), Unknown), t).Some?
  {
    UnknownTracksHistory(env, h, t);
    var e := Find(Run(env, h), Unknown);
    if e.Some? {
      var u: nat :| UnknownEntry(env, h, e.value, u);
      forall k: nat | OpensUnknown(env, h, k)
        ensures h[k].at <= h[u].at
      {
        assert k <= u;
        OrderedPrefix(h, t, u);
        if k < u {
          OrderedBounds(h[..u], h[u].at, k);
        }
      }
    }
  }

  // ---------- exclusion ----------

  /** A peer is never both online and unknown: whatever its history, at most one of the two leases is live. */
  lemma {:induction false} NeverOnlineAndUnknown(env: Env, h: seq<Input>, t: nat)
    requires env.Sound() && Ordered(h, t)
    ensures Live(Find(Run(env, h), Unknown), t).Some? ==> Live(Find(Run(env, h), Online), t) == None
  {
    UnknownLease(env, h, t);
    OnlineLease(env, h, t, "");
    if Live(Find(Run(env, h), Unknown), t).Some? {
      var u: nat :| OpensUnknown(env, h, u);
      DeadStays(env, h, u, t);
    }
  }

  /** Once the peer is offline, only a non-ex online report brings it back. */
  lemma {:induction false} DeadStays(env: Env, h: seq<Input>, u: nat, t: nat)
    requires Ordered(h, t) && u < |h| && IsBeat(h[u])
    requires Dead(env, h[..u], h[u].at)
    requires forall k | u <= k < |h| :: !IsOnline(h[k])
    ensures Dead(env, h, t)
    decreases |h|, t
  {
    var g, x := h[..|h| - 1], h[|h| - 1];
    assert h == g + [x];
    if u < |g| {
      assert g[..u] == h[..u];
      DeadStays(env, g, u, x.at);
    } else {
      assert h[..u] == g;
    }
    DeadStep(env, g, x, t);
  }

  lemma {:induction false} DeadStep(env: Env, g: seq<Input>, x: Input, t: nat)
    requires Dead(env, g, x.at) && !IsOnline(x) && x.at <= t
    ensures Dead(env, g + [x], t)
  {
    assert (g + [x])[..|g|] == g;
    var b := Beats(g);
    assert Beats(g + [x]) == if IsBeat(x) then b + [x] else b;
    forall j: nat
      ensures !Anchors(env, Beats(g + [x]), j, t)
    {
      assert !Anchors(env, b, j, x.at);
      if IsBeat(x) {
        AnchorsSnoc(env, b, x, j, t);
        if j > |b| {
          assert !Anchors(env, b + [x], j, t);
        }
      } else if Anchors(env, b, j, t) {
        AnchorsLater(env, b, j, x.at, t);
      }
    }
  }

  lemma {:induction false} AnchorsLater(env: Env, b: seq<Input>, j: nat, t: nat, u: nat)
    requires t <= u && Anchors(env, b, j, u)
    ensures Anchors(env, b, j, t)
  {
    forall k | j <= k < |b|
      ensures NextBeat(b, k, t) < b[k].at + 1000 * env.timeout
    {
      assert NextBeat(b, k, u) < b[k].at + 1000 * env.timeout;
    }
  }
}
