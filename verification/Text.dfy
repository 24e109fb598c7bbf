/** Cutting text at a separator, from the left and from the right. */
module Text {

  /** The pieces of `s` between occurrences of `c`, as `str::split` gives them. */
  function Split(s: string, c: char): (parts: seq<string>)
    ensures |parts| >= 1
  {
    if s == "" then [""]
    else
      var rest := Split(s[1..], c);
      if s[0] == c then [""] + rest else [[s[0]] + rest[0]] + rest[1..]
  }

  lemma {:induction false} SplitPlain(s: string, c: char)
    requires c !in s
    ensures Split(s, c) == [s]
  {
    if s != "" {
      SplitPlain(s[1..], c);
      assert [s[0]] + s[1..] == s;
    }
  }

  lemma {:induction false} SplitFirst(s: string, c: char, rest: string)
    requires c !in s
    ensures Split(s + [c] + rest, c) == [s] + Split(rest, c)
  {
    var t := s + [c] + rest;
    if s == "" {
      assert t[1..] == rest;
    } else {
      SplitFirst(s[1..], c, rest);
      assert t[1..] == s[1..] + [c] + rest;
      assert [s[0]] + s[1..] == s;
    }
  }

  /** Pieces put together again with the separator between them. */
  function Glue(parts: seq<string>, c: char): string {
    if parts == [] then ""
    else if |parts| == 1 then parts[0]
    else parts[0] + [c] + Glue(parts[1..], c)
  }

  lemma {:induction false} SplitGlue(s: string, c: char)
    ensures Glue(Split(s, c), c) == s
  {
    if s != "" {
      SplitGlue(s[1..], c);
      var rest := Split(s[1..], c);
      assert s == [s[0]] + s[1..];
      if s[0] == c {
        assert ([""] + rest)[1..] == rest;
      } else {
        var all := [[s[0]] + rest[0]] + rest[1..];
        assert all[1..] == rest[1..];
      }
    }
  }

  /** What follows the last `c` in `s`, all of `s` when there is none. */
  function AfterLast(s: string, c: char): (r: string)
    ensures |r| <= |s| && r == s[|s| - |r|..] && c !in r
    ensures |r| < |s| ==> s[|s| - |r| - 1] == c
  {
    if s == "" || s[|s| - 1] == c then "" else AfterLast(s[..|s| - 1], c) + [s[|s| - 1]]
  }

  /** The second piece from the right, as `rsplit(c).collect()[1]` gives it. */
  function SecondLast(s: string, c: char): string
    requires c in s
  {
    var last := AfterLast(s, c);
    AfterLast(s[..|s| - |last| - 1], c)
  }

  lemma {:induction false} AfterLastPlain(head: string, c: char, tail: string)
    requires c !in tail
    ensures AfterLast(head + [c] + tail, c) == tail
  {
    var s := head + [c] + tail;
    if tail != "" {
      var init := tail[..|tail| - 1];
      AfterLastPlain(head, c, init);
      assert s[..|s| - 1] == head + [c] + init;
      assert init + [tail[|tail| - 1]] == tail;
    }
  }

  /** Cutting after the last separator recovers exactly the suffixes free of it. */
  lemma AfterLastRecovers(head: string, c: char, tail: string)
    ensures AfterLast(head + [c] + tail, c) == tail <==> c !in tail
  {
    if c !in tail {
      AfterLastPlain(head, c, tail);
    }
  }

  lemma SecondLastIs(front: string, c: char, tail: string)
    requires c !in tail
    ensures c in front + [c] + tail
    ensures SecondLast(front + [c] + tail, c) == AfterLast(front, c)
  {
    var s := front + [c] + tail;
    AfterLastPlain(front, c, tail);
    assert s[|front|] == c;
    assert s[..|front|] == front;
  }

  /** The second piece from the right is recovered exactly when it is free of separators. */
  lemma SecondLastRecovers(head: string, c: char, mid: string, tail: string)
    requires c !in tail
    ensures c in head + [c] + mid + [c] + tail
    ensures SecondLast(head + [c] + mid + [c] + tail, c) == mid <==> c !in mid
  {
    SecondLastIs(head + [c] + mid, c, tail);
    AfterLastRecovers(head, c, mid);
  }
}
