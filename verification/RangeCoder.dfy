/**
 * The range coder of src/tuxpac/unpack.c as arithmetic on two 32-bit numbers and
 * 11-bit probabilities.
 */
module RangeCoder {
  import opened Base
  import opened Bits

  /** A range below this is widened by one byte of input. */
  const TOP: nat := 0x100_0000
  const HALF: nat := 1024

  /** How much is left of the range, and where in it the input lies. */
  datatype Coder = Coder(range: nat, code: nat)

  /** Both numbers are 32 bits and the range is wide enough for the next bit. */
  ghost predicate Wide(c: Coder)
  {
    TOP <= c.range < U32 && c.code < U32
  }

  /** The input lies inside the range. */
  ghost predicate Inside(c: Coder)
  {
    c.code < c.range
  }

  /** Chance out of 2048 of a zero. */
  ghost predicate Likely(p: nat)
  {
    31 <= p <= 2017
  }

  function Bound(c: Coder, p: nat): (b: nat)
  {
    c.range / 2048 * p
  }

  function BitRead(c: Coder, p: nat): (b: nat)
    ensures b < 2
  {
    if c.code < Bound(c, p) then 0 else 1
  }

  function Learned(p: nat, b: nat): (p': nat)
  {
    if b == 0 then (if p <= 2048 then p + (2048 - p) / 32 else p) else p - p / 32
  }

  function Narrowed(c: Coder, p: nat): (c': Coder)
  {
    var b := Bound(c, p);
    if c.code < b then Coder(b, c.code)
    else Coder(if b <= c.range then c.range - b else 0, c.code - b)
  }

  /** A range one byte too narrow, widened with the next byte; the shifts drop what 32 bits do not hold. */
  function Widened(c: Coder, byte: Byte): (c': Coder)
  {
    Coder(c.range * 256 % U32, (c.code * 256 + byte) % U32)
  }

  /** Half the range, and whether the input is in the upper one. */
  function HalfTaken(c: Coder): (c': Coder)
  {
    var h := c.range / 2;
    Coder(h, if c.code >= h then c.code - h else c.code)
  }

  /** The input is the last of a range that does not halve evenly. */
  predicate OddLast(c: Coder)
  {
    c.range % 2 == 1 && c.code == c.range - 1
  }

  // ---- bounds

  lemma {:induction false} LearnedLikely(p: nat, b: nat)
    requires Likely(p)
    ensures Likely(Learned(p, b))
  {
  }

  /** A zero takes a 32nd off what is missing from 2048, rounded up, and a one a 32nd off the chance. */
  lemma {:induction false} LearnedToward(p: nat)
    requires p <= 2048
    ensures var q := Learned(p, 0); p <= q <= 2048 && 31 * (2048 - p) <= 32 * (2048 - q) < 31 * (2048 - p) + 32
    ensures var q := Learned(p, 1); q <= p && 31 * p <= 32 * q < 31 * p + 32
  {
  }

  /**
   * The range is parted in two, the part of a zero first and by its chance: the input is in the
   * part of the bit read.
   */
  lemma {:induction false} Parts(c: Coder, p: nat)
    requires Wide(c) && Likely(p)
    ensures var b := Bound(c, p); c.range * p - 2048 * p < 2048 * b <= c.range * p && 0 < b < c.range
    ensures var (b, n) := (Bound(c, p), Narrowed(c, p));
      if BitRead(c, p) == 0 then c.code < b && n == Coder(b, c.code)
      else b <= c.code && n == Coder(c.range - b, c.code - b)
  {
    Shares(c, p);
    var q, r := c.range / 2048, c.range % 2048;
    assert c.range == 2048 * q + r;
    Scaled(q, r, p);
  }

  lemma {:induction false} Scaled(q: nat, r: nat, p: nat)
    requires r < 2048 && p > 0
    ensures (2048 * q + r) * p - 2048 * p < 2048 * (q * p) <= (2048 * q + r) * p
  {
    assert (2048 * q + r) * p == 2048 * (q * p) + r * p;
    assert r * p >= 0 && (2048 - r) * p > 0;
    assert (2048 - r) * p == 2048 * p - r * p;
  }

  /** A bit of even chance parts it in the middle. */
  lemma {:induction false} Halves(c: Coder)
    ensures var (h, n) := (c.range / 2, HalfTaken(c));
      if c.code < h then n == Coder(h, c.code) else n == Coder(h, c.code - h)
  {
  }

  /** A bit's share of the range, and the other's, are never more than a byte too narrow. */
  lemma {:induction false} Shares(c: Coder, p: nat)
    requires Wide(c) && Likely(p)
    ensures TOP <= Bound(c, p) * 256 && Bound(c, p) < c.range && TOP <= (c.range - Bound(c, p)) * 256
  {
    var q := c.range / 2048;
    assert q >= 8192 && q * 2048 <= c.range;
    ProductFits(q, p);
  }

  lemma {:induction false} ProductFits(q: nat, p: nat)
    requires q >= 8192 && Likely(p)
    ensures q * p >= 31 * q && q * p <= 2017 * q
  {
    assert q * (p - 31) >= 0 && q * (2017 - p) >= 0;
    assert q * p == q * 31 + q * (p - 31);
    assert q * 2017 == q * p + q * (2017 - p);
  }

  /**
   * After a bit the range is wide again with at most one more byte, nothing having been
   * shifted out of it, and input inside the range stays inside, with nothing shifted out of it either.
   */
  lemma {:induction false} BitKeeps(c: Coder, p: nat, byte: Byte)
    requires Wide(c) && Likely(p)
    ensures var n := Narrowed(c, p);
      && n.range < U32 && n.code < U32 && (n.range >= TOP ==> Wide(n)) && (Inside(c) <==> Inside(n))
      && (n.range < TOP ==> n.range * 256 < U32 && Wide(Widened(n, byte)) && Widened(n, byte).range == n.range * 256)
      && (n.range < TOP && Inside(n) ==> Inside(Widened(n, byte)) && Widened(n, byte).code == n.code * 256 + byte)
  {
    hide Bound, Widened;
    Shares(c, p);
    var n := Narrowed(c, p);
    if n.range < TOP { WideAgain(n, byte); }
  }

  lemma {:induction false} WideAgain(n: Coder, byte: Byte)
    requires TOP <= n.range * 256 && n.range < TOP && n.code < U32
    ensures n.range * 256 < U32 && Wide(Widened(n, byte)) && Widened(n, byte).range == n.range * 256
    ensures Inside(n) ==> Inside(Widened(n, byte)) && Widened(n, byte).code == n.code * 256 + byte
  {
  }

  /** The same for a bit of even chance, but for one input: the last of an odd range falls outside the halved range. */
  lemma {:induction false} HalfKeeps(c: Coder, byte: Byte)
    requires Wide(c)
    ensures var n := HalfTaken(c);
      && n.range < U32 && n.code < U32 && (n.range >= TOP ==> Wide(n))
      && (Inside(c) ==> (Inside(n) <==> !OddLast(c)))
      && (n.range < TOP ==> Wide(Widened(n, byte)) && Widened(n, byte).range == n.range * 256)
      && (n.range < TOP && Inside(n) ==> Inside(Widened(n, byte)) && Widened(n, byte).code == n.code * 256 + byte)
  {
  }

  /** A range and an input inside it that a bit of even chance takes out of it. */
  lemma {:induction false} HalfEscapes()
    ensures var c := Coder(TOP + 1, TOP);
            Wide(c) && Inside(c) && !Inside(HalfTaken(c)) && !Inside(Widened(HalfTaken(c), 0))
  {
  }
}
