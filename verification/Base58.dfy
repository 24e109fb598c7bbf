/** The base58 text of a peer id: the bytes read as one big-endian number, with one `1` for
    every leading zero byte, as the bs58 crate writes and reads it. */
module Base58 {
  import opened Wrappers
  import opened Numerals

  type Byte = x: nat | x < 256

  /** Bitcoin's alphabet: digits and letters without 0, I, O and l. */
  function Symbol(d: nat): (c: char)
    requires d < 58
    ensures c != '.' && c != '/'
  {
    if d < 9 then ('1' as int + d) as char
    else if d < 17 then ('A' as int + d - 9) as char
    else if d < 22 then ('J' as int + d - 17) as char
    else if d < 33 then ('P' as int + d - 22) as char
    else if d < 44 then ('a' as int + d - 33) as char
    else ('m' as int + d - 44) as char
  }

  function Digit(c: char): (d: Option<nat>)
    ensures d.Some? ==> d.value < 58 && Symbol(d.value) == c
  {
    if '1' <= c <= '9' then Some(c as int - '1' as int)
    else if 'A' <= c <= 'H' then Some(c as int - 'A' as int + 9)
    else if 'J' <= c <= 'N' then Some(c as int - 'J' as int + 17)
    else if 'P' <= c <= 'Z' then Some(c as int - 'P' as int + 22)
    else if 'a' <= c <= 'k' then Some(c as int - 'a' as int + 33)
    else if 'm' <= c <= 'z' then Some(c as int - 'm' as int + 44)
    else None
  }

  lemma DigitOfSymbol(d: nat)
    requires d < 58
    ensures Digit(Symbol(d)) == Some(d)
  {}

  lemma Alphabet(d: nat)
    requires d < 58
    ensures Symbol(d) == ("123456789" + "ABCDEFGH" + "JKLMN" + "PQRSTUVWXYZ" + "abcdefghijk" + "mnopqrstuvwxyz")[d]
  {
    match d
    case 0 => case 1 => case 2 => case 3 => case 4 => case 5 => case 6 => case 7 => case 8 => case 9 =>
    case 10 => case 11 => case 12 => case 13 => case 14 => case 15 => case 16 => case 17 => case 18 =>
    case 19 => case 20 => case 21 => case 22 => case 23 => case 24 => case 25 => case 26 => case 27 =>
    case 28 => case 29 => case 30 => case 31 => case 32 => case 33 => case 34 => case 35 => case 36 =>
    case 37 => case 38 => case 39 => case 40 => case 41 => case 42 => case 43 => case 44 => case 45 =>
    case 46 => case 47 => case 48 => case 49 => case 50 => case 51 => case 52 => case 53 => case 54 =>
    case 55 => case 56 => case 57 =>
  }

  function LeadingZeros(ds: seq<nat>): (z: nat)
    ensures z <= |ds| && (forall i | 0 <= i < z :: ds[i] == 0)
    ensures z < |ds| ==> ds[z] != 0
  {
    if ds == [] || ds[0] != 0 then 0 else 1 + LeadingZeros(ds[1..])
  }

  function Zeros(z: nat): seq<nat> {
    seq(z, _ => 0)
  }

  /** Change of base that keeps the number of leading zeros. */
  function Rebase(ds: seq<nat>, from: nat, to: nat): (r: seq<nat>)
    requires to >= 2
    ensures IsNumeral(r, to)
  {
    var z := LeadingZeros(ds);
    Zeros(z) + Digits(Value(ds[z..], from), to)
  }

  lemma LeadingZerosUnique(ds: seq<nat>, z: nat)
    requires z <= |ds| && (forall i | 0 <= i < z :: ds[i] == 0)
    requires z < |ds| ==> ds[z] != 0
    ensures LeadingZeros(ds) == z
  {}

  lemma {:induction false} RebaseParts(z: nat, high: seq<nat>, from: nat, to: nat)
    requires to >= 2 && (high != [] ==> high[0] != 0)
    ensures Rebase(Zeros(z) + high, from, to) == Zeros(z) + Digits(Value(high, from), to)
  {
    LeadingZerosUnique(Zeros(z) + high, z);
    assert (Zeros(z) + high)[z..] == high;
  }

  lemma {:induction false} RebaseRoundTrip(ds: seq<nat>, from: nat, to: nat)
    requires from >= 2 && to >= 2 && IsNumeral(ds, from)
    ensures Rebase(Rebase(ds, from, to), to, from) == ds
  {
    var z := LeadingZeros(ds);
    var high := ds[z..];
    assert Zeros(z) + high == ds;
    RebaseParts(z, high, from, to);
    RebaseParts(z, Digits(Value(high, from), to), to, from);
    ValueOfDigits(Value(high, from), to);
    DigitsOfValue(high, from);
  }

  function Symbols(ds: seq<nat>): (s: string)
    requires IsNumeral(ds, 58)
    ensures |s| == |ds| && forall i | 0 <= i < |s| :: s[i] == Symbol(ds[i])
  {
    seq(|ds|, i requires 0 <= i < |ds| => Symbol(ds[i]))
  }

  function ReadSymbols(s: string): (r: Option<seq<nat>>)
    ensures r.Some? ==> |r.value| == |s| && forall i | 0 <= i < |s| :: Digit(s[i]) == Some(r.value[i])
    ensures r.None? ==> exists i | 0 <= i < |s| :: Digit(s[i]) == None
  {
    if exists i | 0 <= i < |s| :: Digit(s[i]) == None then None
    else Some(seq(|s|, i requires 0 <= i < |s| => Digit(s[i]).value))
  }

  lemma SymbolsRead(ds: seq<nat>)
    requires IsNumeral(ds, 58)
    ensures ReadSymbols(Symbols(ds)) == Some(ds)
  {
    forall i | 0 <= i < |ds|
      ensures Digit(Symbols(ds)[i]) == Some(ds[i])
    {
      DigitOfSymbol(ds[i]);
    }
    assert ReadSymbols(Symbols(ds)).value == ds;
  }

  function Encode(bytes: seq<Byte>): (s: string)
    ensures '.' !in s && '/' !in s
  {
    Symbols(Rebase(bytes, 256, 58))
  }

  function Decode(s: string): Option<seq<Byte>> {
    match ReadSymbols(s)
    case None => None
    case Some(ds) => Some(AsBytes(Rebase(ds, 58, 256)))
  }

  function AsBytes(ds: seq<nat>): (bytes: seq<Byte>)
    requires IsNumeral(ds, 256)
    ensures bytes == ds
  {
    seq(|ds|, i requires 0 <= i < |ds| => ds[i] as Byte)
  }

  /** Reading a printed peer id gives back its bytes, leading zero bytes included. */
  lemma DecodeEncode(bytes: seq<Byte>)
    ensures Decode(Encode(bytes)) == Some(bytes)
  {
    SymbolsRead(Rebase(bytes, 256, 58));
    RebaseRoundTrip(bytes, 256, 58);
  }

  /** The digits `ds` are those of the text `s`. */
  predicate Spells(s: string, ds: seq<nat>) {
    |s| == |ds| && forall i | 0 <= i < |s| :: Digit(s[i]) == Some(ds[i])
  }

  /** What the text of some bytes is: as many ones as there are leading zero bytes, and then, without a
      leading one, the digits of the number the other bytes are. */
  lemma {:induction false} EncodeMeaning(zeros: nat, bytes: seq<Byte>)
    requires bytes != [] ==> bytes[0] != 0
    ensures var s := Encode(Zeros(zeros) + bytes);
            && zeros <= |s| && (forall i | 0 <= i < zeros :: s[i] == '1')
            && (zeros < |s| ==> s[zeros] != '1')
            && exists ds :: Spells(s[zeros..], ds) && Value(ds, 58) == Value(bytes, 256)
  {
    var ds := Digits(Value(bytes, 256), 58);
    RebaseParts(zeros, bytes, 256, 58);
    PrintedDigits(zeros, ds);
    ValueOfDigits(Value(bytes, 256), 58);
    assert Spells(Encode(Zeros(zeros) + bytes)[zeros..], ds);
  }

  lemma {:induction false} PrintedDigits(zeros: nat, ds: seq<nat>)
    requires IsNumeral(ds, 58) && (ds != [] ==> ds[0] != 0)
    ensures var s := Symbols(Zeros(zeros) + ds);
            && (forall i | 0 <= i < zeros :: s[i] == '1')
            && (zeros < |s| ==> s[zeros] != '1')
            && Spells(s[zeros..], ds)
  {
    var all := Zeros(zeros) + ds;
    forall i | 0 <= i < |all|
      ensures Digit(Symbol(all[i])) == Some(all[i]) && (Symbol(all[i]) == '1' <==> all[i] == 0)
    {
      DigitOfSymbol(all[i]);
    }
  }
}
