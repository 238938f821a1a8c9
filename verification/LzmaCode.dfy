/**
 * The other side of LzmaSpec: the bits in which a length, a distance or a symbol is written, by
 * the LZMA specification's tables, and that those and no others are read as it.
 */
module LzmaCode {
  import opened Base
  import opened Bits
  import opened RangeCoder
  import opened LzmaSpec
  import opened RangeWriter

  // ---- numbers off trees

  /** x with n zero bits after it. */
  function Shift(x: nat, n: nat): (r: nat)
    decreases n
  {
    if n == 0 then x else Shift(2 * x, n - 1)
  }

  lemma {:induction false} ShiftSum(x: nat, y: nat, n: nat)
    ensures Shift(x + y, n) == Shift(x, n) + Shift(y, n)
    decreases n
  {
    if n > 0 { ShiftSum(2 * x, 2 * y, n - 1); }
  }

  lemma {:induction false} ShiftOne(n: nat)
    ensures Shift(1, n) == Pow2(n) && Shift(0, n) == 0
    decreases n
  {
    if n > 0 {
      ShiftOne(n - 1);
      assert Shift(1, n) == Shift(1 + 1, n - 1);
      ShiftSum(1, 1, n - 1);
    }
  }

  /** n bits of v, high ones first, down a tree from node m. */
  function DownPieces(base: nat, n: nat, m: nat, v: nat): (ps: seq<Piece>)
    decreases n
  {
    if n == 0 then []
    else
      var h := Pow2(n - 1);
      var b := if v < h then 0 else 1;
      [Guess(base + m, b)] + DownPieces(base, n - 1, 2 * m + b, if v < h then v else v - h)
  }

  function TreePieces(base: nat, n: nat, v: nat): (ps: seq<Piece>)
  {
    DownPieces(base, n, 1, v)
  }

  lemma {:induction false} DownRange(input: seq<Byte>, k: Core, base: nat, n: nat, m: nat)
    ensures Shift(m, n) <= Down(input, k, base, n, m).v < Shift(m, n) + Pow2(n)
    decreases n
  {
    if n > 0 {
      hide BitIn, BitDone;
      var b := BitIn(k, base + m);
      BitIs(k, base + m);
      DownRange(input, BitDone(input, k, base + m), base, n - 1, 2 * m + b);
      ShiftSum(2 * m, b, n - 1);
      ShiftOne(n - 1);
    }
  }

  lemma {:induction false} BitIs(k: Core, i: nat)
    ensures BitIn(k, i) == 0 || BitIn(k, i) == 1
  {
  }

  lemma {:induction false} DownIs(input: seq<Byte>, k: Core, base: nat, n: nat, m: nat, v: nat)
    requires n > 0
    ensures Down(input, k, base, n, m) ==
      Down(input, BitDone(input, k, base + m), base, n - 1, 2 * m + BitIn(k, base + m))
    ensures var h := Pow2(n - 1); var b := if v < h then 0 else 1;
      DownPieces(base, n, m, v) ==
        [Guess(base + m, b)] + DownPieces(base, n - 1, 2 * m + b, if v < h then v else v - h)
    ensures Shift(m, n) == Shift(2 * m, n - 1) && Pow2(n) == 2 * Pow2(n - 1)
  {
    hide BitDone, BitIn;
  }

  lemma {:induction false} DownNone(input: seq<Byte>, k: Core, base: nat, m: nat, v: nat)
    ensures Down(input, k, base, 0, m) == Got(k, m) && DownPieces(base, 0, m, v) == [] && Shift(m, 0) == m
    ensures Reads(input, k, []) && After(input, k, []) == k && Pow2(0) == 1
  {
  }

  /** They are read as v, and nothing else is. */
  lemma {:induction false} DownReads(input: seq<Byte>, k: Core, base: nat, n: nat, m: nat, v: nat)
    requires v < Pow2(n)
    ensures var (g, ps) := (Down(input, k, base, n, m), DownPieces(base, n, m, v));
      (Reads(input, k, ps) <==> g.v == Shift(m, n) + v) && (Reads(input, k, ps) ==> g.k == After(input, k, ps))
    decreases n
  {
    hide *;
    if n == 0 {
      DownNone(input, k, base, m, v);
    } else {
      DownIs(input, k, base, n, m, v);
      var h := Pow2(n - 1);
      var b: nat := if v < h then 0 else 1;
      var w: nat := if v < h then v else v - h;
      var (i, k') := (base + m, BitDone(input, k, base + m));
      BitIs(k, i);
      DownReads(input, k', base, n - 1, 2 * m + b, w);
      DownRange(input, k', base, n - 1, 2 * m + BitIn(k, i));
      ShiftSum(2 * m, b, n - 1);
      ShiftSum(2 * m, BitIn(k, i), n - 1);
      ShiftOne(n - 1);
      FirstRead(input, k, Guess(i, b), DownPieces(base, n - 1, 2 * m + b, w));
    }
  }

  lemma {:induction false} FirstRead(input: seq<Byte>, k: Core, p: Piece, ps: seq<Piece>)
    ensures var k' := if p.Guess? then BitDone(input, k, p.at) else HalfDone(input, k);
      && (Reads(input, k, [p] + ps) <==>
            (if p.Guess? then BitIn(k, p.at) else HalfIn(k)) == p.bit && Reads(input, k', ps))
      && After(input, k, [p] + ps) == After(input, k', ps)
  {
    hide BitIn, BitDone, HalfIn, HalfDone;
    assert ([p] + ps)[1..] == ps;
  }

  lemma {:induction false} TreeReads(input: seq<Byte>, k: Core, base: nat, n: nat, v: nat)
    requires v < Pow2(n)
    ensures var (g, ps) := (Tree(input, k, base, n), TreePieces(base, n, v));
      && g.v < Pow2(n) && (Reads(input, k, ps) <==> g.v == v) && (Reads(input, k, ps) ==> g.k == After(input, k, ps))
  {
    DownReads(input, k, base, n, 1, v);
    DownRange(input, k, base, n, 1);
    ShiftOne(n);
    hide Down, DownPieces, Reads, After, Pow2, Shift;
  }

  /** n bits of v, low ones first. */
  function LowPieces(base: nat, n: nat, m: nat, v: nat): (ps: seq<Piece>)
    decreases n
  {
    if n == 0 then [] else [Guess(base + m, v % 2)] + LowPieces(base, n - 1, 2 * m + v % 2, v / 2)
  }

  function LowTreePieces(base: nat, n: nat, v: nat): (ps: seq<Piece>)
  {
    LowPieces(base, n, 1, v)
  }

  lemma {:induction false} LowIs(input: seq<Byte>, k: Core, base: nat, n: nat, m: nat, i: nat, acc: nat, v: nat)
    requires n > 0
    ensures var (j, b) := (base + m, BitIn(k, base + m));
      DownLow(input, k, base, n, m, i, acc) ==
        DownLow(input, BitDone(input, k, j), base, n - 1, 2 * m + b, i + 1, acc + if b == 1 then Pow2(i) else 0)
    ensures LowPieces(base, n, m, v) == [Guess(base + m, v % 2)] + LowPieces(base, n - 1, 2 * m + v % 2, v / 2)
    ensures Pow2(n) == 2 * Pow2(n - 1) && Shift(2 * (v / 2), i) == Shift(v / 2, i + 1)
  {
    hide BitDone, BitIn;
  }

  lemma {:induction false} LowNone(input: seq<Byte>, k: Core, base: nat, m: nat, i: nat, acc: nat)
    ensures DownLow(input, k, base, 0, m, i, acc) == Got(k, acc) && LowPieces(base, 0, m, 0) == []
    ensures Reads(input, k, []) && After(input, k, []) == k && Pow2(0) == 1
  {
  }

  /** Something is read, a number of n bits. */
  lemma {:induction false} LowSome(input: seq<Byte>, k: Core, base: nat, n: nat, m: nat, i: nat, acc: nat)
      returns (v: nat)
    ensures v < Pow2(n) && Reads(input, k, LowPieces(base, n, m, v))
    ensures DownLow(input, k, base, n, m, i, acc) ==
      Got(After(input, k, LowPieces(base, n, m, v)), acc + Shift(v, i))
    decreases n
  {
    hide *;
    ShiftOne(i);
    if n == 0 {
      v := 0;
      LowNone(input, k, base, m, i, acc);
    } else {
      var (j, k') := (base + m, BitDone(input, k, base + m));
      var b := BitIn(k, j);
      BitIs(k, j);
      var w := LowSome(input, k', base, n - 1, 2 * m + b, i + 1, acc + if b == 1 then Pow2(i) else 0);
      v := 2 * w + b;
      assert v / 2 == w && v % 2 == b;
      LowIs(input, k, base, n, m, i, acc, v);
      ShiftSum(2 * w, b, i);
      FirstRead(input, k, Guess(j, b), LowPieces(base, n - 1, 2 * m + b, w));
    }
  }

  lemma {:induction false} LowOnce(input: seq<Byte>, k: Core, base: nat, n: nat, m: nat, v: nat, w: nat)
    requires v < Pow2(n) && w < Pow2(n)
    requires Reads(input, k, LowPieces(base, n, m, v)) && Reads(input, k, LowPieces(base, n, m, w))
    ensures v == w
    decreases n
  {
    hide *;
    LowNone(input, k, base, m, 0, 0);
    if n > 0 {
      var k' := BitDone(input, k, base + m);
      LowIs(input, k, base, n, m, 0, 0, v);
      LowIs(input, k, base, n, m, 0, 0, w);
      FirstRead(input, k, Guess(base + m, v % 2), LowPieces(base, n - 1, 2 * m + v % 2, v / 2));
      FirstRead(input, k, Guess(base + m, w % 2), LowPieces(base, n - 1, 2 * m + w % 2, w / 2));
      LowOnce(input, k', base, n - 1, 2 * m + v % 2, v / 2, w / 2);
    }
  }

  lemma {:induction false} LowTreeReads(input: seq<Byte>, k: Core, base: nat, n: nat, v: nat)
    requires v < Pow2(n)
    ensures var (g, ps) := (LowTree(input, k, base, n), LowTreePieces(base, n, v));
      && g.v < Pow2(n) && (Reads(input, k, ps) <==> g.v == v) && (Reads(input, k, ps) ==> g.k == After(input, k, ps))
  {
    hide DownLow, LowPieces, Reads, After, Pow2;
    var w := LowSome(input, k, base, n, 1, 0, 0);
    assert Shift(w, 0) == w;
    if Reads(input, k, LowPieces(base, n, 1, v)) { LowOnce(input, k, base, n, 1, v, w); }
  }

  /** n bits of v of even chance. */
  function EvenPieces(n: nat, v: nat): (ps: seq<Piece>)
    decreases n
  {
    if n == 0 then []
    else
      var h := Pow2(n - 1);
      [Even(if v < h then 0 else 1)] + EvenPieces(n - 1, if v < h then v else v - h)
  }

  lemma {:induction false} EvenRange(input: seq<Byte>, k: Core, n: nat, m: nat)
    ensures Shift(m, n) <= Direct(input, k, n, m).v < Shift(m, n) + Pow2(n)
    decreases n
  {
    if n > 0 {
      hide HalfDone;
      var b := HalfIn(k);
      hide HalfIn;
      EvenRange(input, HalfDone(input, k), n - 1, 2 * m + b);
      ShiftSum(2 * m, b, n - 1);
      ShiftOne(n - 1);
    }
  }

  lemma {:induction false} EvenIs(input: seq<Byte>, k: Core, n: nat, m: nat, v: nat)
    requires n > 0
    ensures Direct(input, k, n, m) == Direct(input, HalfDone(input, k), n - 1, 2 * m + HalfIn(k))
    ensures var h := Pow2(n - 1);
      EvenPieces(n, v) == [Even(if v < h then 0 else 1)] + EvenPieces(n - 1, if v < h then v else v - h)
    ensures Shift(m, n) == Shift(2 * m, n - 1) && Pow2(n) == 2 * Pow2(n - 1)
  {
    hide HalfDone, HalfIn;
  }

  lemma {:induction false} EvenNone(input: seq<Byte>, k: Core, m: nat, v: nat)
    ensures Direct(input, k, 0, m) == Got(k, m) && EvenPieces(0, v) == [] && Shift(m, 0) == m
    ensures Reads(input, k, []) && After(input, k, []) == k && Pow2(0) == 1
  {
  }

  lemma {:induction false} EvenReads(input: seq<Byte>, k: Core, n: nat, m: nat, v: nat)
    requires v < Pow2(n)
    ensures var (g, ps) := (Direct(input, k, n, m), EvenPieces(n, v));
      (Reads(input, k, ps) <==> g.v == Shift(m, n) + v) && (Reads(input, k, ps) ==> g.k == After(input, k, ps))
    decreases n
  {
    hide *;
    if n == 0 {
      EvenNone(input, k, m, v);
    } else {
      EvenIs(input, k, n, m, v);
      var h := Pow2(n - 1);
      var b: nat := if v < h then 0 else 1;
      var w: nat := if v < h then v else v - h;
      var k' := HalfDone(input, k);
      HalfIs(k);
      EvenReads(input, k', n - 1, 2 * m + b, w);
      EvenRange(input, k', n - 1, 2 * m + HalfIn(k));
      ShiftSum(2 * m, b, n - 1);
      ShiftSum(2 * m, HalfIn(k), n - 1);
      ShiftOne(n - 1);
      FirstRead(input, k, Even(b), EvenPieces(n - 1, w));
    }
  }

  lemma {:induction false} HalfIs(k: Core)
    ensures HalfIn(k) == 0 || HalfIn(k) == 1
  {
  }

  // ---- lengths

  /** A length less two. */
  function LengthPieces(base: nat, ps: nat, v: nat): (r: seq<Piece>)
    requires v < 272
  {
    if v < 8 then [Guess(base, 0)] + TreePieces(base + 2 + 8 * ps, 3, v)
    else if v < 16 then [Guess(base, 1)] + ([Guess(base + 1, 0)] + TreePieces(base + 130 + 8 * ps, 3, v - 8))
    else [Guess(base, 1)] + ([Guess(base + 1, 1)] + TreePieces(base + 258, 8, v - 16))
  }

  lemma {:induction false} LengthIs(input: seq<Byte>, k: Core, base: nat, ps: nat)
    ensures var (k1, b1) := (BitDone(input, k, base), BitIn(k, base));
      var (k2, b2) := (BitDone(input, k1, base + 1), BitIn(k1, base + 1));
      Length(input, k, base, ps) ==
        if b1 == 0 then Tree(input, k1, base + 2 + 8 * ps, 3)
        else if b2 == 0 then More(Tree(input, k2, base + 130 + 8 * ps, 3), 8)
        else More(Tree(input, k2, base + 258, 8), 16)
  {
    hide BitDone, BitIn, Tree, More;
  }

  lemma {:induction false} MoreIs(g: Got, n: nat)
    ensures More(g, n) == Got(g.k, g.v + n)
  {
  }

  /** What a length's first bits say. */
  lemma {:induction false} LengthBits(input: seq<Byte>, k: Core, base: nat, ps: nat)
    ensures var (k1, b1) := (BitDone(input, k, base), BitIn(k, base));
      var (b2, v) := (BitIn(k1, base + 1), Length(input, k, base, ps).v);
      && (v < 8 <==> b1 == 0) && (8 <= v < 16 <==> b1 == 1 && b2 == 0) && (16 <= v < 272 <==> b1 == 1 && b2 == 1)
  {
    hide *;
    SmallPowers();
    LengthIs(input, k, base, ps);
    var k1 := BitDone(input, k, base);
    var k2 := BitDone(input, k1, base + 1);
    BitIs(k, base);
    BitIs(k1, base + 1);
    var (x, y, z) := (Tree(input, k1, base + 2 + 8 * ps, 3), Tree(input, k2, base + 130 + 8 * ps, 3),
                      Tree(input, k2, base + 258, 8));
    TreeRange(input, k1, base + 2 + 8 * ps, 3);
    TreeRange(input, k2, base + 130 + 8 * ps, 3);
    TreeRange(input, k2, base + 258, 8);
    MoreIs(y, 8);
    MoreIs(z, 16);
  }

  lemma {:induction false} TreeRange(input: seq<Byte>, k: Core, base: nat, n: nat)
    ensures Tree(input, k, base, n).v < Pow2(n)
  {
    DownRange(input, k, base, n, 1);
    ShiftOne(n);
    hide Down, Pow2, Shift;
  }

  ghost predicate LengthRead(input: seq<Byte>, k: Core, base: nat, ps: nat, v: nat)
    requires v < 272
  {
    var (g, r) := (Length(input, k, base, ps), LengthPieces(base, ps, v));
    && g.v < 272 && (Reads(input, k, r) <==> g.v == v) && (Reads(input, k, r) ==> g.k == After(input, k, r))
  }

  /** Each length is read from its own bits and no others. */
  lemma {:induction false} LengthReads(input: seq<Byte>, k: Core, base: nat, ps: nat, v: nat)
    requires v < 272
    ensures LengthRead(input, k, base, ps, v)
  {
    hide *;
    BitIs(k, base);
    BitIs(BitDone(input, k, base), base + 1);
    LengthBits(input, k, base, ps);
    if v < 8 { LengthLow(input, k, base, ps, v); } else { LengthHigh(input, k, base, ps, v); }
  }

  lemma {:induction false} LengthLow(input: seq<Byte>, k: Core, base: nat, ps: nat, v: nat)
    requires v < 8 && Length(input, k, base, ps).v < 272
    ensures LengthRead(input, k, base, ps, v)
  {
    var k1 := BitDone(input, k, base);
    SmallPowers();
    LengthIs(input, k, base, ps);
    LengthBits(input, k, base, ps);
    TreeReads(input, k1, base + 2 + 8 * ps, 3, v);
    FirstRead(input, k, Guess(base, 0), TreePieces(base + 2 + 8 * ps, 3, v));
    hide BitIn, BitDone, Tree, TreePieces, Reads, After, Pow2, Length;
  }

  lemma {:induction false} LengthHigh(input: seq<Byte>, k: Core, base: nat, ps: nat, v: nat)
    requires 8 <= v < 272 && Length(input, k, base, ps).v < 272
    ensures LengthRead(input, k, base, ps, v)
  {
    hide *;
    var k1 := BitDone(input, k, base);
    var k2 := BitDone(input, k1, base + 1);
    var (b, rest) := (if v < 16 then 0 else 1,
      if v < 16 then TreePieces(base + 130 + 8 * ps, 3, v - 8) else TreePieces(base + 258, 8, v - 16));
    SmallPowers();
    LengthIs(input, k, base, ps);
    LengthBits(input, k, base, ps);
    if v < 16 {
      TreeReads(input, k2, base + 130 + 8 * ps, 3, v - 8);
      MoreIs(Tree(input, k2, base + 130 + 8 * ps, 3), 8);
    } else {
      TreeReads(input, k2, base + 258, 8, v - 16);
      MoreIs(Tree(input, k2, base + 258, 8), 16);
    }
    FirstRead(input, k1, Guess(base + 1, b), rest);
    FirstRead(input, k, Guess(base, 1), [Guess(base + 1, b)] + rest);
    HighIs(base, ps, v);
    LengthReadIs(input, k, base, ps, v);
  }

  lemma {:induction false} HighIs(base: nat, ps: nat, v: nat)
    requires 8 <= v < 272
    ensures LengthPieces(base, ps, v) == [Guess(base, 1)] +
      if v < 16 then [Guess(base + 1, 0)] + TreePieces(base + 130 + 8 * ps, 3, v - 8)
      else [Guess(base + 1, 1)] + TreePieces(base + 258, 8, v - 16)
  {
    hide TreePieces;
  }

  lemma {:induction false} LengthReadIs(input: seq<Byte>, k: Core, base: nat, ps: nat, v: nat)
    requires v < 272
    ensures LengthRead(input, k, base, ps, v) <==>
      var (g, r) := (Length(input, k, base, ps), LengthPieces(base, ps, v));
      g.v < 272 && (Reads(input, k, r) <==> g.v == v) && (Reads(input, k, r) ==> g.k == After(input, k, r))
  {
    hide Length, LengthPieces, Reads, After;
  }

  lemma {:induction false} SmallPowers()
    ensures Pow2(3) == 8 && Pow2(4) == 16 && Pow2(6) == 64 && Pow2(8) == 256
  {
    assert Pow2(2) == 4;
    assert Pow2(5) == 32;
  }

  // ---- distances

  function SlotBits(s: nat): (n: nat)
  {
    if s < 4 then 0 else s / 2 - 1
  }

  /** The least distance of a slot, less one: its top two bits say which slot it is. */
  function SlotBase(s: nat): (d: nat)
  {
    if s < 4 then s else Shift(2 + s % 2, SlotBits(s))
  }

  /** A slot takes over where the one before it ends, and the last ends at 2^32. */
  lemma {:induction false} SlotTable(s: nat)
    requires s < 64
    ensures SlotBase(0) == 0
    ensures s < 63 ==> SlotBase(s + 1) == SlotBase(s) + Pow2(SlotBits(s))
    ensures s == 63 ==> SlotBase(s) + Pow2(SlotBits(s)) == U32
  {
    if s < 4 {
      SmallSlots();
    } else {
      LargeSlot(s);
      hide SlotBase, SlotBits;
      SmallSlots();
      if s == 63 { LastSlot(); }
    }
  }

  lemma {:induction false} SmallSlots()
    ensures forall s: nat :: s < 4 ==> SlotBase(s) == s && SlotBits(s) == 0
    ensures SlotBase(4) == 4 && Pow2(0) == 1
  {
    assert Shift(2, 1) == 4 by { assert Shift(4, 0) == 4; }
  }

  lemma {:induction false} LargeSlot(s: nat)
    requires s >= 4
    ensures SlotBase(s + 1) == SlotBase(s) + Pow2(SlotBits(s))
  {
    var n: nat := s / 2 - 1;
    ShiftOne(n);
    ShiftSum(2, 1, n);
    ShiftSum(3, 1, n);
    ShiftTwice(2, n);
    hide Shift, Pow2;
  }

  lemma {:induction false} LastSlot()
    ensures SlotBase(63) + Pow2(SlotBits(63)) == U32
  {
    ShiftOne(30);
    ShiftSum(3, 1, 30);
    ShiftTwice(2, 30);
    ShiftTwice(1, 31);
    ShiftOne(32);
    PowThirtyTwo();
    hide Shift, Pow2;
  }

  lemma {:induction false} ShiftTwice(x: nat, n: nat)
    ensures Shift(2 * x, n) == Shift(x, n + 1)
  {
  }

  lemma {:induction false} PowThirtyTwo()
    ensures Pow2(32) == U32
  {
    assert Pow2(8) == 256 by { SmallPowers(); }
    PowAdd(8, 8);
    PowAdd(16, 16);
  }

  /** Distance d is in slot s. */
  ghost predicate InSlot(d: nat, s: nat)
  {
    s < 64 && SlotBase(s) <= d < SlotBase(s) + Pow2(SlotBits(s))
  }

  lemma {:induction false} SlotGrows(s: nat, t: nat)
    requires s < t < 64
    ensures SlotBase(s) + Pow2(SlotBits(s)) <= SlotBase(t)
    decreases t
  {
    hide SlotBase, SlotBits, Pow2;
    SlotTable(t - 1);
    if s < t - 1 { SlotGrows(s, t - 1); }
  }

  /** The slot of d, at or before s. */
  function SlotFrom(d: nat, s: nat): (t: nat)
    decreases s
  {
    if s == 0 || SlotBase(s) <= d then s else SlotFrom(d, s - 1)
  }

  function SlotOf(d: nat): (s: nat)
  {
    SlotFrom(d, 63)
  }

  lemma {:induction false} SlotFound(d: nat, s: nat)
    requires s < 64 && d < SlotBase(s) + Pow2(SlotBits(s))
    ensures InSlot(d, SlotFrom(d, s))
    decreases s
  {
    hide SlotBase, SlotBits, Pow2;
    SlotTable(s);
    if s > 0 && d < SlotBase(s) {
      SlotTable(s - 1);
      SlotFound(d, s - 1);
    }
  }

  /** Every distance is in one slot and no other. */
  lemma {:induction false} SlotOnce(d: nat)
    ensures d < U32 <==> exists s: nat :: InSlot(d, s)
    ensures d < U32 ==> InSlot(d, SlotOf(d))
    ensures forall s: nat, t: nat :: InSlot(d, s) && InSlot(d, t) ==> s == t
  {
    hide SlotBase, SlotBits, Pow2, SlotFrom;
    SlotTable(63);
    if d < U32 { SlotFound(d, 63); }
    forall s: nat | InSlot(d, s) ensures d < U32 {
      if s < 63 { SlotGrows(s, 63); }
    }
    forall s: nat, t: nat | InSlot(d, s) && InSlot(d, t) ensures s == t {
      if s < t { SlotGrows(s, t); }
      if t < s { SlotGrows(t, s); }
    }
  }

  /** The bits of a distance after its slot. */
  function FarPieces(s: nat, x: nat): (ps: seq<Piece>)
    requires s < 64
  {
    if s < 4 then []
    else if s < 14 then LowTreePieces(POS + SlotBase(s) - s, SlotBits(s), x)
    else EvenPieces(SlotBits(s) - 4, x / 16) + LowTreePieces(ALIGN, 4, x % 16)
  }

  /** A distance less one: its slot, and how far it is into that. */
  function DistancePieces(len: nat, d: nat): (ps: seq<Piece>)
    requires SlotOf(d) < 64 && SlotBase(SlotOf(d)) <= d
  {
    var s := SlotOf(d);
    TreePieces(SLOT + 64 * (if len < 3 then len else 3), 6, s) + FarPieces(s, d - SlotBase(s))
  }

  lemma {:induction false} ShiftTimes(x: nat, n: nat)
    ensures Shift(x, n) == x * Pow2(n)
    decreases n
  {
    if n > 0 {
      ShiftTimes(2 * x, n - 1);
      assert 2 * x * Pow2(n - 1) == x * (2 * Pow2(n - 1));
    }
  }

  lemma {:induction false} FarIs(input: seq<Byte>, k: Core, s: nat)
    requires 4 <= s < 64
    ensures s <= POS + SlotBase(s) && SlotBits(s) == s / 2 - 1
    ensures s < 14 ==> Far(input, k, s) == More(LowTree(input, k, POS + SlotBase(s) - s, SlotBits(s)), SlotBase(s))
    ensures s >= 14 ==> SlotBits(s) >= 6 && Pow2(SlotBits(s)) == 16 * Pow2(SlotBits(s) - 4)
    ensures s >= 14 ==>
      var high := Direct(input, k, SlotBits(s) - 4, 0);
      Far(input, k, s) == More(LowTree(input, high.k, ALIGN, 4), SlotBase(s) + high.v * 16)
  {
    hide *;
    SlotBaseIs(s);
    if s < 14 { FarNear(input, k, s, SlotBase(s)); } else { FarFar(input, k, s, SlotBase(s)); }
  }

  lemma {:induction false} SlotBaseIs(s: nat)
    requires 4 <= s < 64
    ensures SlotBits(s) == s / 2 - 1 && SlotBase(s) == (2 + s % 2) * Pow2(s / 2 - 1) && s <= POS + SlotBase(s)
    ensures s >= 14 ==> SlotBits(s) >= 6 && Pow2(SlotBits(s)) == 16 * Pow2(SlotBits(s) - 4)
  {
    ShiftTimes(2 + s % 2, SlotBits(s));
    if s >= 14 {
      PowAdd(4, SlotBits(s) - 4);
      SmallPowers();
    }
    hide Shift, Pow2;
  }

  lemma {:induction false} FarNear(input: seq<Byte>, k: Core, s: nat, d: nat)
    requires 4 <= s < 14 && d == (2 + s % 2) * Pow2(s / 2 - 1)
    ensures Far(input, k, s) == More(LowTree(input, k, POS + d - s, s / 2 - 1), d)
  {
    hide LowTree, Pow2, More;
  }

  lemma {:induction false} FarFar(input: seq<Byte>, k: Core, s: nat, d: nat)
    requires 14 <= s < 64 && d == (2 + s % 2) * Pow2(s / 2 - 1)
    ensures var high := Direct(input, k, s / 2 - 5, 0);
      Far(input, k, s) == More(LowTree(input, high.k, ALIGN, 4), d + high.v * 16)
  {
    hide LowTree, Direct, Pow2, More;
  }

  /** What a far distance's bits after its slot say. */
  ghost predicate FarRead(input: seq<Byte>, k: Core, s: nat, x: nat)
    requires 4 <= s < 64
  {
    var (g, ps) := (Far(input, k, s), FarPieces(s, x));
    && SlotBase(s) <= g.v < SlotBase(s) + Pow2(SlotBits(s))
    && (Reads(input, k, ps) <==> g.v == SlotBase(s) + x) && (Reads(input, k, ps) ==> g.k == After(input, k, ps))
  }

  lemma {:induction false} FarReads(input: seq<Byte>, k: Core, s: nat, x: nat)
    requires 4 <= s < 64 && x < Pow2(SlotBits(s))
    ensures FarRead(input, k, s, x)
  {
    FarIs(input, k, s);
    if s < 14 {
      var n := SlotBits(s);
      LowTreeReads(input, k, POS + SlotBase(s) - s, n, x);
      hide SlotBase, SlotBits, LowTree, LowTreePieces, Reads, After, Pow2, Far;
    } else {
      FartherReads(input, k, s, x);
    }
  }

  lemma {:induction false} FartherReads(input: seq<Byte>, k: Core, s: nat, x: nat)
    requires 14 <= s < 64 && x < Pow2(SlotBits(s))
    ensures FarRead(input, k, s, x)
  {
    hide *;
    FarIs(input, k, s);
    var n := SlotBits(s) - 4;
    var high := Direct(input, k, n, 0);
    var low := LowTree(input, high.k, ALIGN, 4);
    var (a, b) := (EvenPieces(n, x / 16), LowTreePieces(ALIGN, 4, x % 16));
    SmallPowers();
    ShiftOne(n);
    EvenReads(input, k, n, 0, x / 16);
    EvenRange(input, k, n, 0);
    LowTreeReads(input, high.k, ALIGN, 4, x % 16);
    ReadsBoth(input, k, a, b);
    MoreIs(low, SlotBase(s) + high.v * 16);
    FarPiecesIs(s, x);
    FarReadIs(input, k, s, x);
  }

  lemma {:induction false} FarPiecesIs(s: nat, x: nat)
    requires 14 <= s < 64
    ensures SlotBits(s) >= 6
      && FarPieces(s, x) == EvenPieces(SlotBits(s) - 4, x / 16) + LowTreePieces(ALIGN, 4, x % 16)
  {
    hide EvenPieces, LowTreePieces;
  }

  lemma {:induction false} FarReadIs(input: seq<Byte>, k: Core, s: nat, x: nat)
    requires 4 <= s < 64
    ensures FarRead(input, k, s, x) <==>
      var (g, ps) := (Far(input, k, s), FarPieces(s, x));
      && SlotBase(s) <= g.v < SlotBase(s) + Pow2(SlotBits(s))
      && (Reads(input, k, ps) <==> g.v == SlotBase(s) + x) && (Reads(input, k, ps) ==> g.k == After(input, k, ps))
  {
    hide Far, FarPieces, Reads, After, SlotBase, SlotBits, Pow2;
  }

  /** Each distance is read from its own bits and no others. */
  lemma {:induction false} DistanceReads(input: seq<Byte>, k: Core, len: nat, d: nat)
    requires d < U32 && InSlot(d, SlotOf(d))
    ensures var (g, ps) := (Distance(input, k, len), DistancePieces(len, d));
      && g.v < U32 && (Reads(input, k, ps) <==> g.v == d) && (Reads(input, k, ps) ==> g.k == After(input, k, ps))
  {
    hide *;
    var base := SLOT + 64 * (if len < 3 then len else 3);
    var s := SlotOf(d);
    InSlotIs(d, s);
    var t := Tree(input, k, base, 6);
    var x: nat := d - SlotBase(s);
    SmallPowers();
    TreeReads(input, k, base, 6, s);
    ReadsBoth(input, k, TreePieces(base, 6, s), FarPieces(s, x));
    DistanceIs(input, k, len, d);
    NearIs(input, t.k, s, x);
    var g := Distance(input, k, len);
    if t.v >= 4 { FarReads(input, t.k, t.v, if t.v == s then x else 0);
      FarReadIs(input, t.k, t.v, if t.v == s then x else 0); }
    InSlotIs(g.v, t.v);
    SlotOnce(d);
    SlotOnce(g.v);
  }

  lemma {:induction false} InSlotIs(d: nat, s: nat)
    ensures InSlot(d, s) <==> s < 64 && SlotBase(s) <= d < SlotBase(s) + Pow2(SlotBits(s))
    ensures s < 4 ==> SlotBase(s) == s && Pow2(SlotBits(s)) == 1
    ensures Pow2(SlotBits(s)) > 0
  {
    hide Shift;
  }

  lemma {:induction false} DistanceIs(input: seq<Byte>, k: Core, len: nat, d: nat)
    ensures var t := Tree(input, k, SLOT + 64 * (if len < 3 then len else 3), 6);
      Distance(input, k, len) == if t.v < 4 then t else Far(input, t.k, t.v)
    ensures var s := SlotOf(d); s < 64 && SlotBase(s) <= d ==>
      DistancePieces(len, d) ==
      TreePieces(SLOT + 64 * (if len < 3 then len else 3), 6, s) + FarPieces(s, d - SlotBase(s))
  {
    hide Tree, Far, TreePieces, FarPieces, SlotBase, SlotOf;
  }

  lemma {:induction false} NearIs(input: seq<Byte>, k: Core, s: nat, x: nat)
    requires s < 64
    ensures s < 4 ==> FarPieces(s, x) == [] && Reads(input, k, []) && After(input, k, []) == k
  {
  }
}
