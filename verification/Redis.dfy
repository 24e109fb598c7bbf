/** The part of Redis that marci and the query service use: string and set values under keys,
    some with an expiry time. The commands are generic in the key type, so that the same
    definition serves the real store, keyed by strings, and a peer's own record, keyed by the
    kind of fact it holds. Time is in milliseconds. */
module Redis {
  import opened Wrappers

  datatype Value = Text(text: string) | Members(members: set<string>)

  datatype Entry = Entry(value: Value, expiry: Option<nat>)

  /** The commands that change a key. A time to live is in seconds. */
  datatype Op =
    | Set(text: string)
    | SetEx(text: string, ttl: nat)
    | Expire(ttl: nat)
    | Del
    | SAdd(member: string)

  datatype Cmd<K> = Cmd(key: K, op: Op)

  function Ms(seconds: nat): nat { 1000 * seconds }

  // ---------- reading ----------

  function Find<K>(db: map<K, Entry>, k: K): Option<Entry> {
    if k in db then Some(db[k]) else None
  }

  /** What a reader sees of an entry: nothing once its time has come. */
  function Live(e: Option<Entry>, now: nat): Option<Value> {
    if e.Some? && (e.value.expiry.None? || now < e.value.expiry.value) then Some(e.value.value) else None
  }

  /** GET as marci and the query service call it: a missing, expired or set-valued key is an error,
      which the callers treat alike. */
  function Get<K>(db: map<K, Entry>, now: nat, k: K): Option<string> {
    match Live(Find(db, k), now)
    case Some(Text(t)) => Some(t)
    case _ => None
  }

  /** SMEMBERS with the callers' default. */
  function SMembers<K>(db: map<K, Entry>, now: nat, k: K): set<string> {
    match Live(Find(db, k), now)
    case Some(Members(ms)) => ms
    case _ => {}
  }

  /** SCARD with the caller's default. */
  function SCard<K>(db: map<K, Entry>, now: nat, k: K): nat {
    |SMembers(db, now, k)|
  }

  // ---------- writing ----------

  /** SET clears a time to live, EXPIRE does nothing on a missing key, SADD keeps the time to live
      and refuses a string. */
  function Apply(e: Option<Entry>, now: nat, op: Op): Option<Entry> {
    match op
    case Set(t) => Some(Entry(Text(t), None))
    case SetEx(t, ttl) => Some(Entry(Text(t), Some(now + Ms(ttl))))
    case Expire(ttl) =>
      (match Live(e, now)
       case Some(v) => Some(Entry(v, Some(now + Ms(ttl))))
       case None => None)
    case Del => None
    case SAdd(m) =>
      (match Live(e, now)
       case Some(Members(ms)) => Some(Entry(Members(ms + {m}), e.value.expiry))
       case Some(Text(_)) => e
       case None => Some(Entry(Members({m}), None)))
  }

  function Exec<K>(db: map<K, Entry>, now: nat, c: Cmd<K>): map<K, Entry> {
    match Apply(Find(db, c.key), now, c.op)
    case Some(e) => db[c.key := e]
    case None => db - {c.key}
  }

  /** All of `cmds`, in order, at one instant. */
  function ExecAll<K>(db: map<K, Entry>, now: nat, cmds: seq<Cmd<K>>): map<K, Entry> {
    if cmds == [] then db
    else Exec(ExecAll(db, now, cmds[..|cmds| - 1]), now, cmds[|cmds| - 1])
  }

  /** No redis error: the command finds a value of the type it works on. */
  predicate WellTyped(e: Option<Entry>, now: nat, op: Op) {
    op.SAdd? ==> !(Live(e, now).Some? && Live(e, now).value.Text?)
  }

  /** An entry is seen until the millisecond its time comes, by the command for its type. */
  lemma {:induction false} ReadingMeaning<K>(db: map<K, Entry>, k: K, text: string, ms: set<string>, e: nat, t: nat)
    ensures Get(db[k := Entry(Text(text), Some(e))], t, k) == if t < e then Some(text) else None
    ensures Get(db[k := Entry(Text(text), None)], t, k) == Some(text)
    ensures SMembers(db[k := Entry(Members(ms), Some(e))], t, k) == if t < e then ms else {}
    ensures SMembers(db[k := Entry(Members(ms), None)], t, k) == ms
    ensures Get(db[k := Entry(Members(ms), None)], t, k) == None
    ensures SMembers(db[k := Entry(Text(text), None)], t, k) == {}
    ensures k !in db ==> Get(db, t, k) == None && SMembers(db, t, k) == {}
  {
    assert Find(db[k := Entry(Text(text), Some(e))], k) == Some(Entry(Text(text), Some(e)));
    assert Find(db[k := Entry(Members(ms), Some(e))], k) == Some(Entry(Members(ms), Some(e)));
  }

  /** What a reader sees of a key at `t`, after a command on it at `now`. */
  lemma {:induction false} CommandMeaning<K>(db: map<K, Entry>, now: nat, k: K, text: string, ttl: nat, t: nat)
    requires now <= t
    ensures Get(Exec(db, now, Cmd(k, Set(text))), t, k) == Some(text)
    ensures Get(Exec(db, now, Cmd(k, SetEx(text, ttl))), t, k) == if t < now + 1000 * ttl then Some(text) else None
    ensures Get(Exec(db, now, Cmd(k, Expire(ttl))), t, k) == if t < now + 1000 * ttl then Get(db, now, k) else None
    ensures SMembers(Exec(db, now, Cmd(k, Expire(ttl))), t, k) ==
            if t < now + 1000 * ttl then SMembers(db, now, k) else {}
    ensures k !in Exec(db, now, Cmd(k, Del))
    ensures k in Exec(db, now, Cmd(k, Expire(ttl))) <==> Live(Find(db, k), now).Some?
  {
    ExecOnly(db, now, Cmd(k, Set(text)), k);
    ExecOnly(db, now, Cmd(k, SetEx(text, ttl)), k);
    ExecOnly(db, now, Cmd(k, Expire(ttl)), k);
  }

  /** SADD widens a live set, which then lasts as long as before; starts one that lasts, when there is
      none; and leaves a string alone. */
  lemma {:induction false} AddMeaning<K>(db: map<K, Entry>, now: nat, k: K, m: string, t: nat)
    requires now <= t
    ensures var was, after := Find(db, k), Exec(db, now, Cmd(k, SAdd(m)));
            if Live(was, now) == None then SMembers(after, t, k) == {m}
            else if Get(db, now, k).Some? then after == db
            else SMembers(after, t, k) == if Live(was, t).Some? then SMembers(db, now, k) + {m} else {}
  {
    ExecOnly(db, now, Cmd(k, SAdd(m)), k);
    if Get(db, now, k).Some? {
      assert db[k := db[k]] == db;
    }
  }

  ghost predicate Untouched<K>(cmds: seq<Cmd<K>>, k: K) {
    forall i | 0 <= i < |cmds| :: cmds[i].key != k
  }

  lemma ExecOnly<K>(db: map<K, Entry>, now: nat, c: Cmd<K>, k: K)
    ensures Find(Exec(db, now, c), k) == if k == c.key then Apply(Find(db, k), now, c.op) else Find(db, k)
  {}

  lemma ExecSnoc<K>(db: map<K, Entry>, now: nat, cmds: seq<Cmd<K>>, c: Cmd<K>)
    ensures ExecAll(db, now, cmds + [c]) == Exec(ExecAll(db, now, cmds), now, c)
  {
    assert (cmds + [c])[..|cmds|] == cmds;
  }

  lemma {:induction false} ExecAppend<K>(db: map<K, Entry>, now: nat, a: seq<Cmd<K>>, b: seq<Cmd<K>>)
    ensures ExecAll(db, now, a + b) == ExecAll(ExecAll(db, now, a), now, b)
    decreases |b|
  {
    if b == [] {
      assert a + b == a;
    } else {
      var front := b[..|b| - 1];
      ExecAppend(db, now, a, front);
      assert (a + b)[..|a + b| - 1] == a + front;
    }
  }

  /** A key no command names keeps its entry. */
  lemma {:induction false} ExecFrame<K>(db: map<K, Entry>, now: nat, cmds: seq<Cmd<K>>, k: K)
    requires Untouched(cmds, k)
    ensures Find(ExecAll(db, now, cmds), k) == Find(db, k)
    decreases |cmds|
  {
    if cmds != [] {
      ExecFrame(db, now, cmds[..|cmds| - 1], k);
    }
  }

  /** A key named once in a list of commands ends as that command leaves it. */
  lemma ExecOnce<K>(db: map<K, Entry>, now: nat, before: seq<Cmd<K>>, c: Cmd<K>, after: seq<Cmd<K>>)
    requires Untouched(before, c.key) && Untouched(after, c.key)
    ensures Find(ExecAll(db, now, before + [c] + after), c.key) == Apply(Find(db, c.key), now, c.op)
  {
    ExecAppend(db, now, before + [c], after);
    ExecFrame(ExecAll(db, now, before + [c]), now, after, c.key);
    ExecSnoc(db, now, before, c);
    ExecFrame(db, now, before, c.key);
  }

  // ---------- glob patterns ----------

  /** Whether a class of characters has `c`, and the pattern after the class. `p` starts inside the
      brackets; a class that is never closed runs to the end of the pattern. */
  function InClass(p: string, c: char): (r: (bool, string))
    ensures |r.1| <= |p|
    ensures p != "" ==> |r.1| < |p|
    ensures p == "" ==> !r.0
    decreases |p|
  {
    if p == "" then (false, "")
    else if p[0] == ']' then (false, p[1..])
    else if p[0] == '\\' && |p| >= 2 then
      var rest := InClass(p[2..], c);
      (p[1] == c || rest.0, rest.1)
    else if |p| >= 3 && p[1] == '-' then
      var rest := InClass(p[3..], c);
      (p[0] <= c <= p[2] || p[2] <= c <= p[0] || rest.0, rest.1)
    else
      var rest := InClass(p[1..], c);
      (p[0] == c || rest.0, rest.1)
  }

  /** Redis's pattern matching: `*`, `?`, `\` and classes in brackets are special. */
  predicate Glob(p: string, s: string)
    decreases |p|, |s|
  {
    if p == "" then s == ""
    else if p[0] == '*' then Glob(p[1..], s) || (s != "" && Glob(p, s[1..]))
    else if s == "" then false
    else if p[0] == '?' then Glob(p[1..], s[1..])
    else if p[0] == '[' then
      var negated := |p| >= 2 && p[1] == '^';
      var found := InClass(if negated then p[2..] else p[1..], s[0]);
      found.0 != negated && Glob(found.1, s[1..])
    else if p[0] == '\\' && |p| >= 2 then p[1] == s[0] && Glob(p[2..], s[1..])
    else p[0] == s[0] && Glob(p[1..], s[1..])
  }

  /** Text that a pattern takes literally. */
  predicate GlobFree(s: string) {
    forall i | 0 <= i < |s| :: s[i] != '*' && s[i] != '?' && s[i] != '[' && s[i] != '\\'
  }

  lemma {:induction false} GlobLiteral(lit: string, p: string, s: string)
    requires GlobFree(lit)
    ensures Glob(lit + p, s) <==> lit <= s && Glob(p, s[|lit|..])
  {
    if lit == "" {
      assert lit + p == p && s[0..] == s;
    } else {
      assert (lit + p)[0] == lit[0] && (lit + p)[1..] == lit[1..] + p;
      if s != "" {
        GlobLiteral(lit[1..], p, s[1..]);
        if lit <= s {
          assert lit[1..] <= s[1..] && s[1..][|lit[1..]|..] == s[|lit|..];
        }
        if s[0] == lit[0] && lit[1..] <= s[1..] {
          assert s == [s[0]] + s[1..] && lit == [lit[0]] + lit[1..];
          assert s[1..][|lit[1..]|..] == s[|lit|..];
        }
      }
    }
  }

  lemma GlobExact(lit: string, s: string)
    requires GlobFree(lit)
    ensures Glob(lit, s) <==> s == lit
  {
    assert lit + "" == lit;
    GlobLiteral(lit, "", s);
  }

  predicate HasSuffix(s: string, suffix: string) {
    |suffix| <= |s| && s[|s| - |suffix|..] == suffix
  }

  lemma {:induction false} GlobStar(suffix: string, s: string)
    requires GlobFree(suffix)
    ensures Glob("*" + suffix, s) <==> HasSuffix(s, suffix)
    decreases |s|
  {
    var p := "*" + suffix;
    assert p[1..] == suffix;
    GlobExact(suffix, s);
    if s != "" {
      GlobStar(suffix, s[1..]);
      if |suffix| < |s| {
        assert s[1..][|s[1..]| - |suffix|..] == s[|s| - |suffix|..];
      }
    }
  }

  /** `prefix*suffix` matches what starts and ends so, without overlap. */
  lemma GlobPrefixStarSuffix(prefix: string, suffix: string, s: string)
    requires GlobFree(prefix) && GlobFree(suffix)
    ensures Glob(prefix + "*" + suffix, s) <==> prefix <= s && HasSuffix(s[|prefix|..], suffix)
  {
    assert prefix + "*" + suffix == prefix + ("*" + suffix);
    GlobLiteral(prefix, "*" + suffix, s);
    if prefix <= s {
      GlobStar(suffix, s[|prefix|..]);
    }
  }

  /** The other special characters, each in front of any pattern: `?` takes any one character, a backslash
      the next character as it is, and a class one of its characters. */
  lemma {:induction false} GlobSpecials(c: char, p: string, s: string)
    ensures Glob("?" + p, s) <==> s != "" && Glob(p, s[1..])
    ensures Glob("\\" + [c] + p, s) <==> s != "" && s[0] == c && Glob(p, s[1..])
  {
    assert ("?" + p)[1..] == p;
    var e := "\\" + [c] + p;
    assert e[0] == '\\' && e[1] == c && e[2..] == p;
  }

  /** Characters that stand for themselves in a class. */
  predicate ClassPlain(cs: string) {
    forall i | 0 <= i < |cs| :: cs[i] != ']' && cs[i] != '\\' && cs[i] != '-' && cs[i] != '^'
  }

  lemma {:induction false} PlainClass(cs: string, p: string, c: char)
    requires ClassPlain(cs)
    ensures InClass(cs + "]" + p, c) == (c in cs, p)
  {
    var q := cs + "]" + p;
    if cs == "" {
      assert q[1..] == p;
    } else {
      assert q[1..] == cs[1..] + "]" + p;
      PlainClass(cs[1..], p, c);
      assert q[1] == if |cs| > 1 then cs[1] else ']';
      assert cs == [cs[0]] + cs[1..];
    }
  }

  lemma {:induction false} GlobClass(cs: string, p: string, s: string)
    requires ClassPlain(cs)
    ensures Glob("[" + cs + "]" + p, s) <==> s != "" && s[0] in cs && Glob(p, s[1..])
    ensures Glob("[^" + cs + "]" + p, s) <==> s != "" && s[0] !in cs && Glob(p, s[1..])
  {
    var q, n := "[" + cs + "]" + p, "[^" + cs + "]" + p;
    assert q[1..] == cs + "]" + p && n[2..] == cs + "]" + p && n[1] == '^';
    assert q[1] == if cs != "" then cs[0] else ']';
    if s != "" {
      PlainClass(cs, p, s[0]);
    }
  }

  lemma {:induction false} GlobRange(a: char, b: char, p: string, s: string)
    requires a != ']' && a != '\\' && a != '^'
    ensures Glob("[" + [a] + "-" + [b] + "]" + p, s) <==>
            s != "" && (a <= s[0] <= b || b <= s[0] <= a) && Glob(p, s[1..])
  {
    var q := "[" + [a] + "-" + [b] + "]" + p;
    var inside := q[1..];
    assert inside[0] == a && inside[1] == '-' && inside[2] == b && inside[3] == ']' && inside[4..] == p;
    assert inside[3..][0] == ']' && inside[3..][1..] == p;
    if s != "" {
      assert InClass(inside[3..], s[0]) == (false, p);
    }
  }

  // ---------- which texts are patterns for themselves alone ----------

  /** Nothing special in it, but perhaps for a backslash at the very end, which has nothing to escape. */
  predicate Literal(s: string) {
    GlobFree(s) || (s != "" && s[|s| - 1] == '\\' && GlobFree(s[..|s| - 1]))
  }

  lemma {:induction false} LiteralExact(lit: string, s: string)
    requires Literal(lit)
    ensures Glob(lit, s) <==> s == lit
  {
    if GlobFree(lit) {
      GlobExact(lit, s);
    } else {
      var front := lit[..|lit| - 1];
      assert lit == front + "\\";
      GlobLiteral(front, "\\", s);
      if front <= s {
        var t := s[|front|..];
        LoneBackslash(t);
        assert s == front + t;
      }
    }
  }

  lemma {:induction false} LoneBackslash(t: string)
    ensures Glob("\\", t) <==> t == "\\"
  {
    if t != "" {
      assert "\\"[1..] == "";
      assert Glob("", t[1..]) <==> t[1..] == "";
      assert t == [t[0]] + t[1..];
    }
  }

  /** The pattern left after its first element has taken the character `c`, if it takes it. */
  function Taken(p: string, c: char): (rest: Option<string>)
    requires p != "" && p[0] != '*'
    ensures rest.Some? ==> |rest.value| < |p|
  {
    if p[0] == '?' then Some(p[1..])
    else if p[0] == '[' then
      var negated := |p| >= 2 && p[1] == '^';
      var found := InClass(if negated then p[2..] else p[1..], c);
      if found.0 != negated then Some(found.1) else None
    else if p[0] == '\\' && |p| >= 2 then if p[1] == c then Some(p[2..]) else None
    else if p[0] == c then Some(p[1..]) else None
  }

  lemma {:induction false} GlobTakes(p: string, s: string)
    requires p != "" && p[0] != '*'
    ensures Glob(p, s) <==> s != "" && Taken(p, s[0]).Some? && Glob(Taken(p, s[0]).value, s[1..])
  {}

  /** A text longer than the pattern it matches owes that to a star, so a longer one matches too. */
  lemma {:induction false} LongerMatches(p: string, s: string) returns (t: string)
    requires Glob(p, s) && |s| > |p|
    ensures Glob(p, t) && |t| > |s|
    decreases |p|
  {
    if p[0] == '*' {
      t := "x" + s;
      assert t[1..] == s;
    } else {
      GlobTakes(p, s);
      var u := LongerMatches(Taken(p, s[0]).value, s[1..]);
      t := [s[0]] + u;
      assert t[1..] == u;
      GlobTakes(p, t);
    }
  }

  /** A text that starts with something special, and is not a lone backslash, does not match itself, or
      matches another text as well. */
  lemma {:induction false} SpecialFirst(p: string) returns (t: string)
    requires p != "" && (p[0] == '*' || p[0] == '?' || p[0] == '[' || (p[0] == '\\' && |p| >= 2))
    ensures Glob(p, p) ==> t != p && Glob(p, t)
  {
    t := p;
    if Glob(p, p) {
      if p[0] == '*' {
        t := "x" + p;
        assert t[1..] == p;
      } else if p[0] == '?' {
        t := (if p[0] == 'x' then "y" else "x") + p[1..];
        assert t[1..] == p[1..] && t[0] != p[0];
        GlobTakes(p, p);
        GlobTakes(p, t);
      } else {
        GlobTakes(p, p);
        var rest := Taken(p, p[0]).value;
        ShortRest(p, p[0]);
        var u := LongerMatches(rest, p[1..]);
        t := [p[0]] + u;
        assert t[1..] == u;
        GlobTakes(p, t);
      }
    }
  }

  /** A class and an escape take up more of the pattern than the one character they match. */
  lemma {:induction false} ShortRest(p: string, c: char)
    requires p != "" && (p[0] == '[' || (p[0] == '\\' && |p| >= 2)) && Taken(p, c).Some?
    ensures |Taken(p, c).value| + 1 < |p|
  {}

  /** The place of the first special character of a text that is not literal. */
  lemma {:induction false} FirstSpecial(s: string) returns (k: nat)
    requires !Literal(s)
    ensures k < |s| && GlobFree(s[..k])
    ensures s[k] == '*' || s[k] == '?' || s[k] == '[' || (s[k] == '\\' && k + 1 < |s|)
  {
    k := 0;
    while k < |s| && s[k] != '*' && s[k] != '?' && s[k] != '[' && s[k] != '\\'
      invariant k <= |s| && GlobFree(s[..k])
    {
      k := k + 1;
    }
    assert s[..|s|] == s;
  }

  /** A text is a pattern for itself alone exactly when it is literal. */
  lemma {:induction false} NotLiteral(s: string) returns (t: string)
    requires !Literal(s)
    ensures Glob(s, s) ==> t != s && Glob(s, t)
  {
    var k := FirstSpecial(s);
    var head, tail := s[..k], s[k..];
    assert s == head + tail;
    GlobLiteral(head, tail, s);
    var u := SpecialFirst(tail);
    t := head + u;
    assert t[k..] == u;
    GlobLiteral(head, tail, t);
  }
}
