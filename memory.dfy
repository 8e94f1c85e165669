/**
 * The memory figures of a telemetry line: a byte count scaled to hundredths
 * of a GiB with Java `long` arithmetic, `bytes * 100 / 1073741824`.
 */
module Memory {

  /** `(int) Math.pow(1024, 3)`: the double 2^30 converts to an int exactly. */
  const GIB: int := 1073741824

  const LONG_MIN: int := -0x8000_0000_0000_0000
  const LONG_MAX: int := 0x7fff_ffff_ffff_ffff
  const INT_MAX: int := 0x7fff_ffff

  predicate IsLong(x: int) {
    LONG_MIN <= x <= LONG_MAX
  }

  function Pow(b: int, e: nat): int {
    if e == 0 then 1 else b * Pow(b, e - 1)
  }

  /** The constant is 1024 cubed and fits in a Java int, so the cast does not truncate. */
  lemma GibIsCube()
    ensures Pow(1024, 3) == GIB && GIB <= INT_MAX
  {
    calc {
      Pow(1024, 3);
      1024 * Pow(1024, 2);
      1024 * (1024 * Pow(1024, 1));
      1024 * (1024 * (1024 * Pow(1024, 0)));
    }
  }

  /** Two's-complement wrap-around of a 64-bit `long` result. */
  function WrapLong(x: int): (r: int)
    ensures IsLong(r)
    ensures (x - r) % 0x1_0000_0000_0000_0000 == 0
    ensures IsLong(x) ==> r == x
  {
    (x - LONG_MIN) % 0x1_0000_0000_0000_0000 + LONG_MIN
  }

  /** Java's `/` on `long`, which rounds toward zero (Dafny's `/` rounds down for a positive divisor). */
  function JavaDiv(a: int, b: int): (q: int)
    requires 0 < b
    ensures 0 <= a ==> 0 <= q && q * b <= a < q * b + b
    ensures a < 0 ==> q <= 0 && q * b - b < a <= q * b
  {
    if 0 <= a then a / b else -((-a) / b)
  }

  /** `bytes * 100 / GIB` in `long` arithmetic: the product wraps, the quotient truncates. */
  function CentiGib(bytes: int): (c: int)
    requires IsLong(bytes)
    ensures IsLong(c)
    ensures 0 <= bytes && bytes * 100 <= LONG_MAX ==> 0 <= c && c * GIB <= bytes * 100 < (c + 1) * GIB
  {
    var scaled := WrapLong(bytes * 100);
    var c := JavaDiv(scaled, GIB);
    assert -0x2_0000_0000 <= c <= 0x2_0000_0000;
    c
  }

  /** The used-memory figure: total minus available, itself a `long` subtraction. */
  function UsedCentiGib(avail: int, total: int): (c: int)
    requires IsLong(avail) && IsLong(total)
    ensures IsLong(c)
    ensures 0 <= avail <= total && total * 100 <= LONG_MAX ==>
      0 <= c && c * GIB <= (total - avail) * 100 < (c + 1) * GIB
  {
    CentiGib(WrapLong(total - avail))
  }

  /** More bytes never give a smaller figure, as long as the scaled product does not overflow. */
  lemma CentiGibMonotone(b1: int, b2: int)
    requires 0 <= b1 <= b2 && b2 * 100 <= LONG_MAX
    ensures CentiGib(b1) <= CentiGib(b2)
  {
  }

  /** With 0 <= available <= total the used figure lies between 0 and the total figure. */
  lemma UsedAtMostTotal(avail: int, total: int)
    requires 0 <= avail <= total && total * 100 <= LONG_MAX
    ensures 0 <= UsedCentiGib(avail, total) <= CentiGib(total)
  {
    CentiGibMonotone(total - avail, total);
  }

  /**
   * Past LONG_MAX / 100 bytes the product wraps: the figure for one byte more
   * is negative, and at 2^61 bytes it is -2^33.
   */
  lemma CentiGibOverflows()
    ensures CentiGib(LONG_MAX / 100) >= 0 && CentiGib(LONG_MAX / 100 + 1) < 0
    ensures CentiGib(0x2000_0000_0000_0000) == -0x2_0000_0000
  {
    assert WrapLong(0x2000_0000_0000_0000 * 100) == LONG_MIN;
  }
}
