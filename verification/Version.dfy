/** The short version: what a backtracking regular-expression matcher makes of `^(.*?)[^0-9.].*$`,
    with the whole text when it finds no match. */
module Version {
  import opened Wrappers

  /** `.` is any character but a newline; the other class is `[^0-9.]`. */
  datatype Class = Dot | NotNumeric {
    predicate Has(c: char) {
      match this
      case Dot => c != '\n'
      case NotNumeric => !IsNumeric(c)
    }
  }

  predicate IsNumeric(c: char) {
    '0' <= c <= '9' || c == '.'
  }

  datatype Node = Begin | One(c: Class) | Lazy(c: Class) | Greedy(c: Class) | End

  /** Where each node ends, for the first match from `i` in the matcher's order of preference:
      a lazy repetition tries to stop first, a greedy one to go on. */
  function MatchAt(nodes: seq<Node>, s: string, i: nat): (ends: Option<seq<nat>>)
    requires i <= |s|
    ensures ends.Some? ==> |ends.value| == |nodes| && forall k | 0 <= k < |nodes| :: i <= ends.value[k] <= |s|
    decreases |nodes|, |s| - i
  {
    if nodes == [] then Some([])
    else
      match nodes[0]
      case Begin => if i == 0 then Ended(i, MatchAt(nodes[1..], s, i)) else None
      case End => if i == |s| then Ended(i, MatchAt(nodes[1..], s, i)) else None
      case One(c) => if i < |s| && c.Has(s[i]) then Ended(i + 1, MatchAt(nodes[1..], s, i + 1)) else None
      case Lazy(c) =>
        var stop := Ended(i, MatchAt(nodes[1..], s, i));
        if stop.Some? then stop
        else if i < |s| && c.Has(s[i]) then MatchAt(nodes, s, i + 1) else None
      case Greedy(c) =>
        var on := if i < |s| && c.Has(s[i]) then MatchAt(nodes, s, i + 1) else None;
        if on.Some? then on else Ended(i, MatchAt(nodes[1..], s, i))
  }

  function Ended(i: nat, rest: Option<seq<nat>>): Option<seq<nat>> {
    match rest
    case Some(ends) => Some([i] + ends)
    case None => None
  }

  /** The leftmost match: the first start that matches at all. */
  function Search(nodes: seq<Node>, s: string, start: nat): (m: Option<(nat, seq<nat>)>)
    requires start <= |s|
    ensures m.Some? ==> start <= m.value.0 <= |s| && MatchAt(nodes, s, m.value.0) == Some(m.value.1)
    decreases |s| - start
  {
    var here := MatchAt(nodes, s, start);
    if here.Some? then Some((start, here.value))
    else if start < |s| then Search(nodes, s, start + 1) else None
  }

  /** `^(.*?)[^0-9.].*$` */
  const VERSION_PATTERN := [Begin, Lazy(Dot), One(NotNumeric), Greedy(Dot), End]

  /** The first capture of the leftmost match, or the text itself. */
  function Shorten(version: string): string {
    match Search(VERSION_PATTERN, version, 0)
    case Some((start, ends)) => version[start..ends[1]]
    case None => version
  }

  // ---------- what it computes ----------

  predicate NoNewline(s: string) {
    forall i | 0 <= i < |s| :: s[i] != '\n'
  }

  /** A place to cut: the character there is neither digit nor dot, and no other character is a newline. */
  predicate CutsAt(s: string, i: nat) {
    i < |s| && !('0' <= s[i] <= '9') && s[i] != '.' && NoNewline(s[..i]) && NoNewline(s[i + 1..])
  }

  lemma {:induction false} EndMatches(s: string, i: nat)
    requires i <= |s|
    ensures MatchAt([End], s, i).Some? <==> i == |s|
  {
    assert [End][1..] == [];
    assert MatchAt([], s, i) == Some([]);
  }

  lemma {:induction false} TailMatches(s: string, i: nat)
    requires i <= |s|
    ensures MatchAt([Greedy(Dot), End], s, i).Some? <==> NoNewline(s[i..])
    decreases |s| - i
  {
    var nodes := [Greedy(Dot), End];
    assert nodes[1..] == [End];
    EndMatches(s, i);
    if i < |s| {
      TailMatches(s, i + 1);
      assert s[i..] == [s[i]] + s[i + 1..];
    }
  }

  lemma {:induction false} CutMatches(s: string, i: nat)
    requires i <= |s|
    ensures MatchAt([One(NotNumeric), Greedy(Dot), End], s, i).Some? <==>
            i < |s| && !IsNumeric(s[i]) && NoNewline(s[i + 1..])
  {
    var nodes := [One(NotNumeric), Greedy(Dot), End];
    assert nodes[1..] == [Greedy(Dot), End];
    if i < |s| {
      TailMatches(s, i + 1);
    }
  }

  /** The lazy group stops at the first place from which the rest can match. */
  lemma {:induction false} LazyStops(s: string, i: nat)
    requires i <= |s| && NoNewline(s[..i])
    requires forall j: nat | j < i :: !CutsAt(s, j)
    ensures var m := MatchAt([Lazy(Dot), One(NotNumeric), Greedy(Dot), End], s, i);
            && (m.Some? ==> CutsAt(s, m.value[0]) && forall j: nat | j < m.value[0] :: !CutsAt(s, j))
            && (m.None? ==> forall j: nat :: !CutsAt(s, j))
    decreases |s| - i
  {
    var nodes := [Lazy(Dot), One(NotNumeric), Greedy(Dot), End];
    assert nodes[1..] == [One(NotNumeric), Greedy(Dot), End];
    CutMatches(s, i);
    if !CutsAt(s, i) {
      if i < |s| && s[i] != '\n' {
        assert s[..i + 1] == s[..i] + [s[i]];
        LazyStops(s, i + 1);
      } else {
        forall j: nat
          ensures !CutsAt(s, j)
        {
          if i < j < |s| {
            assert s[..j][i] == '\n';
          }
        }
      }
    }
  }

  lemma {:induction false} OnlyAtStart(s: string, k: nat)
    requires 0 < k <= |s|
    ensures Search(VERSION_PATTERN, s, k) == None
    decreases |s| - k
  {
    if k < |s| {
      OnlyAtStart(s, k + 1);
    }
  }

  /** On every text: the short version is cut at the least place where a non-numeric character stands
      with no newline before or after it, and is the whole text when there is no such place. */
  lemma {:induction false} ShortenMeaning(s: string)
    ensures (forall i: nat :: !CutsAt(s, i)) ==> Shorten(s) == s
    ensures forall i: nat | CutsAt(s, i) && (forall j: nat | j < i :: !CutsAt(s, j)) :: Shorten(s) == s[..i]
    ensures (exists i: nat :: CutsAt(s, i)) ==>
              exists i: nat :: CutsAt(s, i) && (forall j: nat | j < i :: !CutsAt(s, j)) && Shorten(s) == s[..i]
  {
    assert VERSION_PATTERN[1..] == [Lazy(Dot), One(NotNumeric), Greedy(Dot), End];
    LazyStops(s, 0);
    if s != "" {
      OnlyAtStart(s, 1);
    }
    var m := MatchAt([Lazy(Dot), One(NotNumeric), Greedy(Dot), End], s, 0);
    if m.Some? {
      assert MatchAt(VERSION_PATTERN, s, 0) == Some([0] + m.value);
      assert Shorten(s) == s[..m.value[0]];
      forall i: nat | CutsAt(s, i) && (forall j: nat | j < i :: !CutsAt(s, j))
        ensures i == m.value[0]
      {}
    }
  }

  /** `short` is the text up to its first place to cut, or all of it when there is none. */
  ghost predicate IsShortOf(short: string, s: string) {
    if exists i: nat :: CutsAt(s, i) then
      exists i: nat :: CutsAt(s, i) && (forall j: nat | j < i :: !CutsAt(s, j)) && short == s[..i]
    else short == s
  }

  lemma {:induction false} ShortenShortens(s: string)
    ensures IsShortOf(Shorten(s), s)
    ensures NoNewline(s) ==> Shorten(s) == NumericPrefix(s)
  {
    ShortenMeaning(s);
    if NoNewline(s) {
      ShortenIsNumericPrefix(s);
    }
  }

  /** The longest prefix of digits and dots. */
  function NumericPrefix(s: string): string {
    if s == "" || !IsNumeric(s[0]) then "" else [s[0]] + NumericPrefix(s[1..])
  }

  lemma {:induction false} NumericPrefixIs(s: string)
    ensures var p := NumericPrefix(s);
            && p <= s && (forall j | 0 <= j < |p| :: '0' <= s[j] <= '9' || s[j] == '.')
            && (|p| < |s| ==> !('0' <= s[|p|] <= '9') && s[|p|] != '.')
  {
    if s != "" && IsNumeric(s[0]) {
      NumericPrefixIs(s[1..]);
    }
  }

  /** On a version without newlines, the short version is its longest numeric prefix. */
  lemma {:induction false} ShortenIsNumericPrefix(s: string)
    requires NoNewline(s)
    ensures Shorten(s) == NumericPrefix(s)
  {
    NumericPrefixIs(s);
    ShortenMeaning(s);
    var n := |NumericPrefix(s)|;
    if n < |s| {
      assert CutsAt(s, n);
    } else {
      forall i: nat
        ensures !CutsAt(s, i)
      {}
    }
  }
}
