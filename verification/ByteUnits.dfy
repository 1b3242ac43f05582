/** Scaling a byte count to a unit (`formatBytesHuman`), with 64-bit arithmetic. */
module ByteUnits {
  import opened Arithmetic

  newtype int64 = x: int | -0x8000_0000_0000_0000 <= x < 0x8000_0000_0000_0000

  const UNIT: int64 := 1024
  const UNITS: string := "KMGTPE"

  /** The text before the number is rendered: `b / divisor` with one decimal, and the unit letter. */
  datatype Text = Zero | Plain(bytes: int64) | Scaled(bytes: int64, divisor: int64, letter: char)

  function Pow1024(e: nat): int {
    if e == 0 then 1 else 1024 * Pow1024(e - 1)
  }

  lemma {:induction false} PowMonotone(a: nat, b: nat)
    requires a <= b
    ensures 1 <= Pow1024(a) <= Pow1024(b)
  {
    if a < b { PowMonotone(a, b - 1); } else if a > 0 { PowMonotone(a - 1, a - 1); }
  }

  lemma PowSeven()
    ensures Pow1024(7) == 0x40_0000_0000_0000_0000
  {
    assert Pow1024(1) == 1024 * Pow1024(0);
    assert Pow1024(2) == 1024 * Pow1024(1);
    assert Pow1024(3) == 1024 * Pow1024(2);
    assert Pow1024(4) == 1024 * Pow1024(3);
    assert Pow1024(5) == 1024 * Pow1024(4);
    assert Pow1024(6) == 1024 * Pow1024(5);
  }

  lemma PowBound(e: nat)
    requires Pow1024(e) < 0x8000_0000_0000_0000
    ensures e <= 6
  {
    PowSeven();
    if e >= 7 { PowMonotone(7, e); }
  }

  /** `e` is the scale of `b`: the divisor is the largest power of 1024 that is not above it. */
  predicate IsScale(b: int, e: nat) {
    Pow1024(e + 1) <= b < 1024 * Pow1024(e + 1)
  }

  lemma ScaleUnique(b: int, e: nat, f: nat)
    requires IsScale(b, e) && IsScale(b, f)
    ensures e == f
  {
    if e < f { PowMonotone(e + 2, f + 1); }
    if f < e { PowMonotone(f + 2, e + 1); }
  }

  /** Dividing by `d` and then by 1024 is dividing by their product. */
  lemma NestedDivision(b: int, d: int)
    requires b >= 0 && d > 0
    ensures b / d / 1024 == b / (1024 * d)
  {
    var q := b / d;
    var p, r := q / 1024, q % 1024;
    assert b == q * d + b % d && q * d == p * (1024 * d) + r * d;
    MulMonotone(r, 1023, d);
    MulMonotone(0, r, d);
    DivisionUnique(b, p, 1024 * d, r * d + b % d);
  }

  lemma QuotientBounds(b: int, d: int, n: int)
    requires d > 0 && n == b / d
    ensures n * d <= b < (n + 1) * d
  {
    assert b == n * d + b % d;
  }

  /** The loop never overflows, ends at the scale of `b`, and the unit letter exists. */
  method FormatBytesHuman(b: int64) returns (t: Text, ghost e: nat)
    ensures b <= 0 <==> t == Zero
    ensures 0 < b < UNIT <==> t == Plain(b)
    ensures b >= UNIT ==>
      && IsScale(b as int, e) && e < |UNITS|
      && t.Scaled? && t.bytes == b && t.divisor as int == Pow1024(e + 1) && t.letter == UNITS[e]
  {
    e := 0;
    if b <= 0 { return Zero, 0; }
    if b < UNIT { return Plain(b), 0; }
    var div: int64, exp: nat := UNIT, 0;
    var n := b / UNIT;
    while n >= UNIT
      invariant n >= 1 && div >= UNIT && div <= b
      invariant div as int == Pow1024(exp + 1) && n as int == b as int / div as int
      decreases n
    {
      NestedDivision(b as int, div as int);
      NotAbove(b as int, div as int, n as int);
      div := div * UNIT;
      exp := exp + 1;
      n := n / UNIT;
    }
    e := exp;
    ScaleReached(b as int, div as int, n as int, exp);
    t := Scaled(b, div, UNITS[exp]);
  }

  /** The letters, by the count itself. */
  lemma LetterOf(b: int, e: nat)
    requires IsScale(b, e) && b < 0x8000_0000_0000_0000
    ensures e < |UNITS|
    ensures UNITS[e] == if b < 0x10_0000 then 'K' else if b < 0x4000_0000 then 'M' else if b < 0x100_0000_0000 then 'G'
                        else if b < 0x4_0000_0000_0000 then 'T' else if b < 0x1000_0000_0000_0000 then 'P' else 'E'
  {
    PowBound(e + 1);
    assert Pow1024(1) == 1024 * Pow1024(0) && Pow1024(2) == 1024 * Pow1024(1) && Pow1024(3) == 1024 * Pow1024(2);
    assert Pow1024(4) == 1024 * Pow1024(3) && Pow1024(5) == 1024 * Pow1024(4) && Pow1024(6) == 1024 * Pow1024(5);
    assert e == 0 || e == 1 || e == 2 || e == 3 || e == 4 || e == 5;
  }

  lemma NotAbove(b: int, d: int, n: int)
    requires d > 0 && n == b / d && n >= 1024
    ensures 1024 * d <= b
  {
    QuotientBounds(b, d, n);
    MulMonotone(1024, n, d);
  }

  lemma ScaleReached(b: int, d: int, n: int, e: nat)
    requires d > 0 && b < 0x8000_0000_0000_0000 && n == b / d && 1 <= n < 1024 && d == Pow1024(e + 1)
    ensures IsScale(b, e) && e < 6
  {
    QuotientBounds(b, d, n);
    MulMonotone(1, n, d);
    MulMonotone(n + 1, 1024, d);
    PowBound(e + 1);
  }
}
