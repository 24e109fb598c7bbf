/** What the three status leases of a peer mean, told from its history of reports alone: no store,
    no commands, only which reports came when. */
module Leases {
  import opened Wrappers
  import opened Redis
  import opened Keys
  import opened Arms

  /** Report times do not decrease, and none lies after `t`. */
  predicate Ordered(h: seq<Input>, t: nat) {
    h == [] || (h[|h| - 1].at <= t && Ordered(h[..|h| - 1], h[|h| - 1].at))
  }

  lemma {:induction false} OrderedLater(h: seq<Input>, t: nat, u: nat)
    requires Ordered(h, t) && t <= u
    ensures Ordered(h, u)
  {}

  lemma {:induction false} OrderedBounds(h: seq<Input>, t: nat, i: nat)
    requires Ordered(h, t) && i < |h|
    ensures h[i].at <= t
  {
    if i < |h| - 1 {
      OrderedBounds(h[..|h| - 1], h[|h| - 1].at, i);
    }
  }

  lemma {:induction false} OrderedPrefix(h: seq<Input>, t: nat, i: nat)
    requires Ordered(h, t) && i < |h|
    ensures Ordered(h[..i], h[i].at)
  {
    if i < |h| - 1 {
      OrderedPrefix(h[..|h| - 1], h[|h| - 1].at, i);
      assert h[..|h| - 1][..i] == h[..i];
    }
  }

  // ---------- the online lease ----------

  /** Online and unknown reports are the ones that can keep an online lease alive. */
  predicate IsBeat(i: Input) {
    !i.report.ReachableReport?
  }

  function Beats(h: seq<Input>): (b: seq<Input>)
    ensures forall i | 0 <= i < |b| :: IsBeat(b[i])
  {
    if h == [] then []
    else Beats(h[..|h| - 1]) + (if IsBeat(h[|h| - 1]) then [h[|h| - 1]] else [])
  }

  predicate IsOnline(i: Input) {
    i.report.OnlineReport?
  }

  predicate IsEx(i: Input) {
    IsOnline(i) && i.report.online.isEx
  }

  predicate IsPlain(i: Input) {
    IsOnline(i) && !i.report.online.isEx
  }

  /** When the beat after `k` came, or `t` after the last one. */
  function NextBeat(b: seq<Input>, k: nat, t: nat): nat
    requires k < |b|
  {
    if k + 1 < |b| then b[k + 1].at else t
  }

  /** From beat `j` until `t`, every gap is shorter than the timeout. */
  predicate Unbroken(env: Env, b: seq<Input>, j: nat, t: nat) {
    forall k | j <= k < |b| :: NextBeat(b, k, t) < b[k].at + 1000 * env.timeout
  }

  /** Beat `j` is a non-ex online report from which the beats run unbroken to `t`. */
  predicate Anchors(env: Env, b: seq<Input>, j: nat, t: nat) {
    j < |b| && IsPlain(b[j]) && Unbroken(env, b, j, t)
  }

  predicate FirstAnchor(env: Env, b: seq<Input>, j: nat, t: nat) {
    Anchors(env, b, j, t) && forall i: nat | i < j :: !Anchors(env, b, i, t)
  }

  /** No non-ex online report in the unbroken suffix of beats before `t`. */
  ghost predicate Dead(env: Env, h: seq<Input>, t: nat) {
    forall j: nat :: !Anchors(env, Beats(h), j, t)
  }

  lemma UnbrokenSnoc(env: Env, b: seq<Input>, x: Input, j: nat, t: nat)
    requires j < |b|
    ensures Unbroken(env, b + [x], j, t) <==> Unbroken(env, b, j, x.at) && t < x.at + 1000 * env.timeout
  {
    var c := b + [x];
    forall k | j <= k < |b|
      ensures NextBeat(c, k, t) == NextBeat(b, k, x.at) && c[k] == b[k]
    {}
    assert NextBeat(c, |b|, t) == t && c[|b|] == x;
  }

  lemma AnchorsSnoc(env: Env, b: seq<Input>, x: Input, j: nat, t: nat)
    ensures j < |b| ==>
              (Anchors(env, b + [x], j, t) <==> Anchors(env, b, j, x.at) && t < x.at + 1000 * env.timeout)
    ensures Anchors(env, b + [x], |b|, t) <==> IsPlain(x) && t < x.at + 1000 * env.timeout
  {
    if j < |b| {
      UnbrokenSnoc(env, b, x, j, t);
    }
    assert NextBeat(b + [x], |b|, t) == t;
  }

  /** The stored lease at any time after the history: live with the first anchor's version until one
      timeout after the last beat, or not live. */
  ghost predicate LeaseIs(env: Env, b: seq<Input>, t: nat, e: Option<Entry>, j: Option<nat>) {
    match j
    case None => (forall i: nat :: !Anchors(env, b, i, t)) && Live(e, t) == None
    case Some(a) =>
      && FirstAnchor(env, b, a, t)
      && e == Some(Entry(Text(b[a].report.online.version), Some(b[|b| - 1].at + 1000 * env.timeout)))
      && t < b[|b| - 1].at + 1000 * env.timeout
  }

  lemma {:induction false} LeaseTracksHistory(env: Env, h: seq<Input>, t: nat) returns (j: Option<nat>)
    requires env.Sound() && Ordered(h, t)
    ensures LeaseIs(env, Beats(h), t, Find(Run(env, h), Online), j)
  {
    if h == [] {
      return None;
    }
    var g, x := h[..|h| - 1], h[|h| - 1];
    assert h == g + [x];
    OnlineKey(env, g, x);
    assert Beats(h) == if IsBeat(x) then Beats(g) + [x] else Beats(g);
    if IsBeat(x) {
      var was := LeaseTracksHistory(env, g, x.at);
      j := LeaseStep(env, Beats(g), x, t, Find(Run(env, g), Online), was);
    } else {
      OrderedLater(g, x.at, t);
      j := LeaseTracksHistory(env, g, t);
    }
  }

  lemma {:induction false} LeaseStep(env: Env, b: seq<Input>, x: Input, t: nat, e: Option<Entry>, was: Option<nat>)
      returns (j: Option<nat>)
    requires env.Sound() && x.at <= t && IsBeat(x)
    requires LeaseIs(env, b, x.at, e, was)
    ensures LeaseIs(env, b + [x], t, OnlineNext(env, e, x), j)
  {
    forall i: nat
      ensures i < |b| ==>
                (Anchors(env, b + [x], i, t) <==> Anchors(env, b, i, x.at) && t < x.at + 1000 * env.timeout)
      ensures Anchors(env, b + [x], |b|, t) <==> IsPlain(x) && t < x.at + 1000 * env.timeout
    {
      AnchorsSnoc(env, b, x, i, t);
    }
    if t >= x.at + 1000 * env.timeout {
      j := None;
    } else if was.Some? {
      j := was;
    } else if IsPlain(x) {
      j := Some(|b|);
    } else {
      j := None;
    }
  }

  /** The online lease over every timed history: live at `t` exactly when some non-ex online report
      opens an unbroken run of beats to `t`, and then it carries the version of the first such report,
      however many newer versions were reported since. */
  lemma {:induction false} OnlineLease(env: Env, h: seq<Input>, t: nat, version: string)
    requires env.Sound() && Ordered(h, t)
    ensures Get(Run(env, h), t, Online) == Some(version) <==>
            exists j: nat :: FirstAnchor(env, Beats(h), j, t) && Beats(h)[j].report.online.version == version
    ensures Live(Find(Run(env, h), Online), t) == None <==> Dead(env, h, t)
    ensures Alive(Find(Run(env, h), Online), t) <==> !Dead(env, h, t)
  {
    var j := LeaseTracksHistory(env, h, t);
    LeaseMeans(env, Beats(h), t, Find(Run(env, h), Online), j, version);
    assert LedBy(env, Beats(h), t, version) <==> Get(Run(env, h), t, Online) == Some(version);
  }

  /** The first anchor carries `version`. */
  ghost predicate LedBy(env: Env, b: seq<Input>, t: nat, version: string) {
    exists j: nat :: FirstAnchor(env, b, j, t) && b[j].report.online.version == version
  }

  lemma {:induction false} LeaseMeans(env: Env, b: seq<Input>, t: nat, e: Option<Entry>, j: Option<nat>,
                                      version: string)
    requires LeaseIs(env, b, t, e, j)
    ensures Live(e, t) == Some(Text(version)) <==> LedBy(env, b, t, version)
    ensures Live(e, t) == None <==> forall j: nat :: !Anchors(env, b, j, t)
    ensures Alive(e, t) <==> Live(e, t).Some?
  {
    if j.Some? {
      assert FirstAnchor(env, b, j.value, t) && Anchors(env, b, j.value, t);
      forall i: nat | FirstAnchor(env, b, i, t)
        ensures i == j.value
      {
        assert Anchors(env, b, i, t);
      }
    }
  }

  // ---------- the ex lease ----------

  /** Report `i` is an ex report that found no live online lease. */
  ghost predicate OpensEx(env: Env, h: seq<Input>, i: nat) {
    i < |h| && IsEx(h[i]) && Dead(env, h[..i], h[i].at)
  }

  ghost predicate LastOpensEx(env: Env, h: seq<Input>, i: nat) {
    OpensEx(env, h, i) && forall k | i < k < |h| :: !OpensEx(env, h, k)
  }

  lemma OpensExPrefix(env: Env, g: seq<Input>, x: Input, i: nat)
    requires i < |g|
    ensures OpensEx(env, g + [x], i) <==> OpensEx(env, g, i)
  {
    assert (g + [x])[..i] == g[..i];
  }

  lemma {:induction false} ExKeyAfter(env: Env, g: seq<Input>, x: Input)
    requires env.Sound() && Ordered(g, x.at)
    ensures Find(Run(env, g + [x]), Online2) ==
            if OpensEx(env, g + [x], |g|) then
              Some(Entry(Text(x.report.online.version), Some(x.at + 1000 * env.timeout)))
            else Find(Run(env, g), Online2)
  {
    assert (g + [x])[..|g|] == g;
    OnlineLease(env, g, x.at, "");
    Online2Key(env, g, x);
  }

  ghost predicate ExEntry(env: Env, h: seq<Input>, e: Entry, i: nat) {
    && LastOpensEx(env, h, i)
    && e == Entry(Text(h[i].report.online.version), Some(h[i].at + 1000 * env.timeout))
  }

  /** The ex key holds the last ex report that found online dead; later ex reports that only refresh
      a live online lease leave it alone. */
  lemma {:induction false} ExLeaseEntry(env: Env, h: seq<Input>, t: nat)
    requires env.Sound() && Ordered(h, t)
    ensures ExKeyIs(env, h, Find(Run(env, h), Online2))
  {
    if h != [] {
      var g, x := h[..|h| - 1], h[|h| - 1];
      assert h == g + [x];
      ExLeaseEntry(env, g, x.at);
      ExKeyAfter(env, g, x);
      ExStep(env, g, x, Find(Run(env, g), Online2), Find(Run(env, h), Online2));
    }
  }

  ghost predicate ExKeyIs(env: Env, h: seq<Input>, e: Option<Entry>) {
    match e
    case None => forall i: nat :: !OpensEx(env, h, i)
    case Some(entry) => exists i: nat :: ExEntry(env, h, entry, i)
  }

  lemma {:induction false} ExStep(env: Env, g: seq<Input>, x: Input, was: Option<Entry>, e: Option<Entry>)
    requires ExKeyIs(env, g, was)
    requires e == if OpensEx(env, g + [x], |g|) then
                    Some(Entry(Text(x.report.online.version), Some(x.at + 1000 * env.timeout)))
                  else was
    ensures ExKeyIs(env, g + [x], e)
  {
    var h := g + [x];
    forall i: nat | i < |g|
      ensures OpensEx(env, h, i) <==> OpensEx(env, g, i)
    {
      OpensExPrefix(env, g, x, i);
    }
    if OpensEx(env, h, |g|) {
      assert ExEntry(env, h, e.value, |g|);
    } else if was.Some? {
      var i: nat :| ExEntry(env, g, was.value, i);
      assert ExEntry(env, h, was.value, i);
    }
  }

  lemma ExLease(env: Env, h: seq<Input>, t: nat, version: string)
    requires env.Sound() && Ordered(h, t)
    ensures Get(Run(env, h), t, Online2) == Some(version) <==>
            exists i: nat :: LastOpensEx(env, h, i) && t < h[i].at + 1000 * env.timeout
                             && h[i].report.online.version == version
  {
    ExLeaseEntry(env, h, t);
    var e := Find(Run(env, h), Online2);
    if e.Some? {
      var i: nat :| ExEntry(env, h, e.value, i);
      forall k: nat | LastOpensEx(env, h, k)
        ensures k == i
      {}
    }
  }
}
