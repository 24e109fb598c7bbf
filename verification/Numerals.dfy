/** Positional numerals in any base, and the decimal text Rust's `Display` and `FromStr`
    give to unsigned integers. */
module Numerals {
  import opened Wrappers

  /** Every entry of `ds` is a digit of base `b`. */
  predicate IsNumeral(ds: seq<nat>, b: nat) {
    forall i | 0 <= i < |ds| :: ds[i] < b
  }

  /** The digits of `n`, most significant first, without leading zeros. */
  function Digits(n: nat, b: nat): (ds: seq<nat>)
    requires b >= 2
    ensures IsNumeral(ds, b)
    ensures ds != [] ==> ds[0] != 0
    ensures ds == [] <==> n == 0
  {
    if n == 0 then [] else
      var high := Digits(n / b, b);
      high + [n % b]
  }

  function Value(ds: seq<nat>, b: nat): nat {
    if ds == [] then 0 else Value(ds[..|ds| - 1], b) * b + ds[|ds| - 1]
  }

  lemma {:induction false} ValueOfDigits(n: nat, b: nat)
    requires b >= 2
    ensures Value(Digits(n, b), b) == n
  {
    if n != 0 {
      ValueOfDigits(n / b, b);
      ValueOfStep(n, n / b, n % b, b, Digits(n / b, b));
      DivMod(n, b);
    }
  }

  lemma {:induction false} ValueOfStep(n: nat, q: nat, r: nat, b: nat, high: seq<nat>)
    requires Value(high, b) == q
    ensures Value(high + [r], b) == q * b + r
  {
    ValueOfSnoc(high, r, b);
  }

  lemma {:induction false} ValueOfSnoc(ds: seq<nat>, d: nat, b: nat)
    ensures Value(ds + [d], b) == Value(ds, b) * b + d
  {
    assert (ds + [d])[..|ds|] == ds;
  }

  lemma {:induction false} DivMod(n: nat, b: nat)
    requires b >= 2
    ensures (n / b) * b + n % b == n
  {}

  lemma {:induction false} DigitsOfValue(ds: seq<nat>, b: nat)
    requires b >= 2 && IsNumeral(ds, b)
    requires ds != [] ==> ds[0] != 0
    ensures Digits(Value(ds, b), b) == ds
  {
    if ds != [] {
      var high, low := ds[..|ds| - 1], ds[|ds| - 1];
      DigitsOfValue(high, b);
      var h := Value(high, b);
      DivideOut(h, b, low);
      if h == 0 {
        assert high == [];
      }
      assert high + [low] == ds;
    }
  }

  lemma DivideOut(h: nat, b: nat, low: nat)
    requires low < b
    ensures (h * b + low) / b == h && (h * b + low) % b == low
    ensures h != 0 ==> h * b + low != 0
  {
    var n := h * b + low;
    QuotientUnique(n / b, n % b, h, low, b);
  }

  lemma QuotientUnique(q: int, r: nat, h: int, low: nat, b: nat)
    requires r < b && low < b
    requires q * b + r == h * b + low
    ensures q == h && r == low
  {
    var k := q - h;
    assert k * b == low - r;
    if k >= 1 {
      Multiple(k, b);
    } else if k <= -1 {
      Multiple(-k, b);
    }
  }

  lemma Multiple(k: int, b: nat)
    requires k >= 1
    ensures k * b >= b
  {}

  // ---------- decimal text ----------

  predicate IsDigitChar(c: char) {
    '0' <= c <= '9'
  }

  function DigitChar(d: nat): (c: char)
    requires d < 10
    ensures IsDigitChar(c) && c as int == '0' as int + d
  {
    ('0' as int + d) as char
  }

  function DigitValue(c: char): (d: nat)
    requires IsDigitChar(c)
    ensures d < 10 && DigitChar(d) == c
  {
    c as int - '0' as int
  }

  /** How an unsigned integer is printed. */
  function Decimal(n: nat): (s: string)
    ensures s != "" && forall i | 0 <= i < |s| :: IsDigitChar(s[i])
    ensures s[0] == '0' <==> n == 0
    ensures n == 0 ==> s == "0"
  {
    if n == 0 then "0" else
      var ds := Digits(n, 10);
      seq(|ds|, i requires 0 <= i < |ds| => DigitChar(ds[i]))
  }

  /** Decimal, that is: one digit below ten, and from ten on the text of a tenth followed by that of the
      remainder. */
  lemma {:induction false} DecimalText(n: nat)
    ensures n < 10 ==> Decimal(n) == [('0' as int + n) as char]
    ensures n >= 10 ==> Decimal(n) == Decimal(n / 10) + Decimal(n % 10)
  {
    assert 0 < n < 10 ==> Digits(n, 10) == Digits(0, 10) + [n];
    if n >= 10 {
      var high, low := Digits(n / 10, 10), n % 10;
      assert Digits(n, 10) == high + [low];
      OneDigit(low);
      assert Decimal(n) == Decimal(n / 10) + [DigitChar(low)];
    }
  }

  lemma {:induction false} OneDigit(d: nat)
    requires d < 10
    ensures Decimal(d) == [DigitChar(d)]
  {
    assert d > 0 ==> Digits(d, 10) == Digits(0, 10) + [d];
  }

  /** How an unsigned integer is read: a non-empty run of digits. */
  function ParseDecimal(s: string): Option<nat> {
    if s == "" || exists i | 0 <= i < |s| :: !IsDigitChar(s[i]) then None
    else Some(Value(seq(|s|, i requires 0 <= i < |s| => DigitValue(s[i])), 10))
  }

  lemma ParsePrinted(n: nat)
    ensures ParseDecimal(Decimal(n)) == Some(n)
  {
    var s := Decimal(n);
    var ds := seq(|s|, i requires 0 <= i < |s| => DigitValue(s[i]));
    if n == 0 {
      assert ds == [0];
      assert Value(ds[..0], 10) == 0;
    } else {
      assert ds == Digits(n, 10);
      ValueOfDigits(n, 10);
    }
  }

  /** And text without a needless leading zero is how the number it reads as is printed. */
  lemma {:induction false} PrintParsed(s: string)
    requires ParseDecimal(s).Some? && (s[0] != '0' || |s| == 1)
    ensures Decimal(ParseDecimal(s).value) == s
  {
    var ds := seq(|s|, i requires 0 <= i < |s| => DigitValue(s[i]));
    if s[0] == '0' {
      assert ds == [0] && ds[..0] == [];
      assert Value(ds, 10) == 0;
    } else {
      DigitsOfValue(ds, 10);
      assert Decimal(Value(ds, 10)) == s;
    }
  }

  /** A number below ten to the `k` prints in at most `k` characters, so an octet takes at most three. */
  lemma OctetWidth(n: nat)
    requires n < 256
    ensures |Decimal(n)| <= 3
  {
    if n != 0 {
      assert |Digits(n, 10)| == 1 + |Digits(n / 10, 10)|;
      if n / 10 != 0 {
        assert |Digits(n / 10, 10)| == 1 + |Digits(n / 100, 10)|;
        if n / 100 != 0 {
          assert |Digits(n / 100, 10)| == 1 + |Digits(n / 1000, 10)|;
        }
      }
    }
  }
}
