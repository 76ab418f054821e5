/** The C integer types and strtol, as far as status codes, lengths and read sizes depend on them (LP64). */
module CNumbers {
  import opened ByteStrings

  const INT_MAX: int := 0x7FFF_FFFF
  const LONG_MAX: int := 0x7FFF_FFFF_FFFF_FFFF
  const LONG_MIN: int := -0x8000_0000_0000_0000
  const OFF_MAX: int := 0x7FFF_FFFF_FFFF_FFFF

  /** Conversion of a wider integer to a 32-bit signed int. */
  function ToInt(x: int): (r: int)
    ensures -INT_MAX - 1 <= r <= INT_MAX
    ensures -INT_MAX - 1 <= x <= INT_MAX ==> r == x
  {
    var m := x % 0x1_0000_0000;
    if m <= INT_MAX then m else m - 0x1_0000_0000
  }

  /** Conversion to a 64-bit signed off_t. */
  function ToOff(x: int): (r: int)
    ensures -OFF_MAX - 1 <= r <= OFF_MAX
    ensures -OFF_MAX - 1 <= x <= OFF_MAX ==> r == x
  {
    var m := x % 0x1_0000_0000_0000_0000;
    if m <= OFF_MAX then m else m - 0x1_0000_0000_0000_0000
  }

  predicate IsSpace(c: byte) {
    c == SPACE || 9 <= c <= 13
  }

  predicate IsDigit(c: byte) {
    48 <= c <= 57
  }

  predicate IsSign(c: byte) {
    c == 43 || c == 45
  }

  predicate AllSpaces(t: Bytes) {
    forall i :: 0 <= i < |t| ==> IsSpace(t[i])
  }

  predicate AllDigits(t: Bytes) {
    forall i :: 0 <= i < |t| ==> IsDigit(t[i])
  }

  function SpaceRun(t: Bytes): (n: nat)
    ensures n <= |t| && AllSpaces(t[..n]) && (n < |t| ==> !IsSpace(t[n]))
  {
    if t == [] || !IsSpace(t[0]) then 0
    else
      var n := 1 + SpaceRun(t[1..]);
      assert forall i :: 1 <= i < n ==> t[i] == t[1..][..n - 1][i - 1];
      n
  }

  function DigitRun(t: Bytes): (n: nat)
    ensures n <= |t| && AllDigits(t[..n]) && (n < |t| ==> !IsDigit(t[n]))
  {
    if t == [] || !IsDigit(t[0]) then 0
    else
      var n := 1 + DigitRun(t[1..]);
      assert forall i :: 1 <= i < n ==> t[i] == t[1..][..n - 1][i - 1];
      n
  }

  /** The number a run of digits denotes, most significant digit first. */
  function Value(t: Bytes): nat
    requires AllDigits(t)
  {
    if t == [] then 0 else 10 * Value(t[..|t| - 1]) + (t[|t| - 1] as int - 48)
  }

  datatype Parsed = Parsed(value: int, rest: Bytes, erange: bool)

  function Saturate(v: int): int {
    if v > LONG_MAX then LONG_MAX else if v < LONG_MIN then LONG_MIN else v
  }

  /** strtol(t, &rest, 10): without a digit nothing is consumed and the value is 0. */
  function Strtol(t: Bytes): Parsed {
    var i := SpaceRun(t);
    var j := if i < |t| && IsSign(t[i]) then i + 1 else i;
    var n := DigitRun(t[j..]);
    if n == 0 then Parsed(0, t, false)
    else
      var v: int := Value(t[j..][..n]);
      var w := if i < j && t[i] == 45 then -v else v;
      Parsed(Saturate(w), t[j + n..], w > LONG_MAX || w < LONG_MIN)
  }

  lemma StrtolInRange(t: Bytes)
    ensures LONG_MIN <= Strtol(t).value <= LONG_MAX
  {
  }

  /** t is white space up to i, at most one sign up to j, and one or more digits. */
  predicate NumeralAt(t: Bytes, i: nat, j: nat) {
    && i <= j < |t|
    && j <= i + 1
    && (forall k :: 0 <= k < i ==> t[k] == 32 || 9 <= t[k] <= 13)
    && (i < j ==> t[i] == 43 || t[i] == 45)
    && (forall k :: j <= k < |t| ==> 48 <= t[k] <= 57)
  }

  /** The value of such a text before it is clipped to the range of long. */
  function NumeralValue(t: Bytes, i: nat, j: nat): int
    requires NumeralAt(t, i, j)
  {
    var v: int := Value(t[j..]);
    if i < j && t[i] == 45 then -v else v
  }

  lemma SpaceRunIs(t: Bytes, n: nat)
    requires n <= |t| && AllSpaces(t[..n]) && (n < |t| ==> !IsSpace(t[n]))
    ensures SpaceRun(t) == n
  {
    hide SpaceRun;
    assert forall i :: 0 <= i < n ==> t[..n][i] == t[i];
    assert forall i :: 0 <= i < SpaceRun(t) ==> t[..SpaceRun(t)][i] == t[i];
  }

  lemma DigitRunAll(t: Bytes)
    requires AllDigits(t)
    ensures DigitRun(t) == |t|
  {
    hide DigitRun;
  }

  /** Any text of the shape is consumed to its end and yields its value. */
  lemma StrtolNumeral(t: Bytes, i: nat, j: nat)
    requires NumeralAt(t, i, j)
    ensures Strtol(t) == Parsed(Saturate(NumeralValue(t, i, j)), [],
                                NumeralValue(t, i, j) > LONG_MAX || NumeralValue(t, i, j) < LONG_MIN)
  {
    assert t[j] == t[j..][0];
    SpaceRunIs(t, i);
    DigitRunAll(t[j..]);
    assert t[j..][..|t[j..]|] == t[j..];
  }

  /** Exactly which texts strtol consumes to the end: the numerals, and the empty text (which it reads as 0). */
  lemma StrtolConsumesAll(t: Bytes)
    ensures Strtol(t).rest == [] <==> t == [] || exists i, j :: NumeralAt(t, i, j)
  {
    if exists i, j :: NumeralAt(t, i, j) {
      var i, j :| NumeralAt(t, i, j);
      StrtolNumeral(t, i, j);
    } else if t != [] && Strtol(t).rest == [] {
      var i := SpaceRun(t);
      var j := if i < |t| && IsSign(t[i]) then i + 1 else i;
      assert t[j..][..DigitRun(t[j..])] == t[j..];
      assert NumeralAt(t, i, j);
    }
  }

  function Decimal(n: nat): (t: Bytes)
    ensures AllDigits(t) && |t| > 0
  {
    if n < 10 then [(48 + n) as byte] else Decimal(n / 10) + [(48 + n % 10) as byte]
  }

  lemma {:induction false} ValueOfDecimal(n: nat)
    ensures Value(Decimal(n)) == n
  {
    var t := Decimal(n);
    if n >= 10 {
      ValueOfDecimal(n / 10);
      assert t[..|t| - 1] == Decimal(n / 10);
    } else {
      assert t[..|t| - 1] == [];
    }
  }

  /** Decimal text round-trips through strtol, up to the range of long. */
  lemma StrtolDecimal(n: nat)
    ensures Strtol(Decimal(n)) == Parsed(Min(n, LONG_MAX), [], n > LONG_MAX)
  {
    var t := Decimal(n);
    assert t[0..] == t;
    assert NumeralAt(t, 0, 0);
    StrtolNumeral(t, 0, 0);
    ValueOfDecimal(n);
  }

  /** `t` stands for the long `v`; the empty text stands for 0. */
  ghost predicate DenotesLong(t: Bytes, v: int) {
    || (t == [] && v == 0)
    || (LONG_MIN <= v <= LONG_MAX && exists i, j :: NumeralAt(t, i, j) && NumeralValue(t, i, j) == v)
  }

  /** strtol reads a text to its end, without a range error, exactly if it stands for a long, and gives that long. */
  lemma StrtolDenotes(t: Bytes, v: int)
    ensures DenotesLong(t, v) <==> Strtol(t) == Parsed(v, [], false)
  {
    StrtolConsumesAll(t);
    forall i, j | NumeralAt(t, i, j)
      ensures Strtol(t) == Parsed(Saturate(NumeralValue(t, i, j)), [],
                                  NumeralValue(t, i, j) > LONG_MAX || NumeralValue(t, i, j) < LONG_MIN)
    {
      StrtolNumeral(t, i, j);
    }
  }

  lemma DecimalDenotes(n: nat)
    requires n <= LONG_MAX
    ensures DenotesLong(Decimal(n), n)
  {
    StrtolDecimal(n);
    hide Strtol, Decimal;
    StrtolDenotes(Decimal(n), n);
  }

  /** Leading zeros do not count. */
  lemma {:induction false} ValueLeadingZero(t: Bytes)
    requires AllDigits(t)
    ensures AllDigits([48] + t) && Value([48] + t) == Value(t)
  {
    var z: Bytes := [48];
    if t == [] {
      assert z + t == z && z[..0] == [];
    } else {
      var front := t[..|t| - 1];
      assert (z + t)[..|z + t| - 1] == z + front && (z + t)[|t|] == t[|t| - 1];
      ValueLeadingZero(front);
    }
  }

  /** Narrowing keeps a number's low 32 bits. */
  lemma ToIntCongruent(x: int)
    ensures (x - ToInt(x)) % 0x1_0000_0000 == 0
  {
  }
}
