/**
 * Bit streams as section 3.1 of RFC 1951 packs them, and the reader of src/tuxpac/unpack.c
 * that takes them a few at a time from bytes.
 */
module Bits {
  import opened Base

  type Byte = b: nat | b < 256
  type Bit = b: nat | b < 2

  /** n bits of v, least significant first: how numbers are packed. */
  function Lsb(v: nat, n: nat): (r: seq<Bit>)
    ensures |r| == n
  {
    if n == 0 then [] else [v % 2] + Lsb(v / 2, n - 1)
  }

  /** n bits of v, most significant first: how Huffman codes are packed. */
  function Msb(v: nat, n: nat): (r: seq<Bit>)
    ensures |r| == n
  {
    if n == 0 then [] else Msb(v / 2, n - 1) + [v % 2]
  }

  /** A byte sequence as a bit stream. */
  function BitsOf(data: seq<Byte>): (r: seq<Bit>)
    ensures |r| == 8 * |data|
  {
    if data == [] then [] else Lsb(data[0], 8) + BitsOf(data[1..])
  }

  /** e is what the stream has at p. */
  ghost predicate At(bs: seq<Bit>, p: nat, e: seq<Bit>)
  {
    p + |e| <= |bs| && bs[p..p + |e|] == e
  }

  lemma {:induction false} AtBoth(bs: seq<Bit>, p: nat, a: seq<Bit>, b: seq<Bit>)
    ensures At(bs, p, a + b) <==> At(bs, p, a) && At(bs, p + |a|, b)
  {
    if At(bs, p, a + b) {
      assert bs[p..p + |a|] == (a + b)[..|a|] == a;
      assert bs[p + |a|..p + |a| + |b|] == (a + b)[|a|..] == b;
    }
    if At(bs, p, a) && At(bs, p + |a|, b) {
      assert bs[p..p + |a| + |b|] == bs[p..p + |a|] + bs[p + |a|..p + |a| + |b|];
    }
  }

  lemma {:induction false} AtSame(bs: seq<Bit>, p: nat, a: seq<Bit>, b: seq<Bit>)
    requires At(bs, p, a) && At(bs, p, b) && |a| == |b|
    ensures a == b
  {
  }

  /** Low bits, then high ones. */
  lemma {:induction false} LsbJoin(lo: nat, hi: nat, a: nat, b: nat)
    requires lo < Pow2(a)
    ensures Lsb(lo + Pow2(a) * hi, a + b) == Lsb(lo, a) + Lsb(hi, b)
  {
    hide Lsb;
    if a > 0 {
      var v := lo + Pow2(a) * hi;
      Halved(lo, hi, Pow2(a - 1));
      LsbJoin(lo / 2, hi, a - 1, b);
      LsbStep(v, a + b);
      LsbStep(lo, a);
    } else {
      assert Pow2(0) == 1 && lo == 0;
    }
  }

  lemma {:induction false} LsbStep(v: nat, n: nat)
    requires n > 0
    ensures Lsb(v, n) == [v % 2] + Lsb(v / 2, n - 1)
  {
  }

  lemma {:induction false} Halved(lo: nat, hi: nat, w: nat)
    ensures var v := lo + 2 * w * hi; v % 2 == lo % 2 && v / 2 == lo / 2 + w * hi
  {
    assert 2 * w * hi == 2 * (w * hi);
  }

  lemma {:induction false} LsbOnce(u: nat, v: nat, n: nat)
    requires u < Pow2(n) && v < Pow2(n) && Lsb(u, n) == Lsb(v, n)
    ensures u == v
  {
    if n > 0 {
      assert Lsb(u, n)[0] == Lsb(v, n)[0];
      assert Lsb(u, n)[1..] == Lsb(u / 2, n - 1) && Lsb(v, n)[1..] == Lsb(v / 2, n - 1);
      LsbOnce(u / 2, v / 2, n - 1);
    }
  }

  lemma {:induction false} MsbOnce(u: nat, v: nat, n: nat)
    requires u < Pow2(n) && v < Pow2(n) && Msb(u, n) == Msb(v, n)
    ensures u == v
  {
    if n > 0 {
      assert Msb(u, n)[n - 1] == u % 2 && Msb(v, n)[n - 1] == v % 2;
      assert Msb(u, n)[..n - 1] == Msb(u / 2, n - 1) && Msb(v, n)[..n - 1] == Msb(v / 2, n - 1);
      MsbOnce(u / 2, v / 2, n - 1);
    }
  }

  /** Byte i is eight bits of the stream, from 8 i. */
  lemma {:induction false} ByteAt(data: seq<Byte>, i: nat)
    requires i < |data|
    ensures At(BitsOf(data), 8 * i, Lsb(data[i], 8))
  {
    hide Lsb;
    var e := Lsb(data[0], 8);
    if i == 0 {
      assert (e + BitsOf(data[1..]))[0..8] == e;
    } else {
      ByteAt(data[1..], i - 1);
      assert BitsOf(data) == e + BitsOf(data[1..]);
      var k := 8 * (i - 1);
      assert (e + BitsOf(data[1..]))[k + 8..k + 16] == BitsOf(data[1..])[k..k + 8];
    }
  }

  /** A stretch of bytes is a stretch of bits. */
  lemma {:induction false} BytesAt(data: seq<Byte>, i: nat, j: nat)
    requires i <= j <= |data|
    ensures At(BitsOf(data), 8 * i, BitsOf(data[i..j]))
    decreases j - i
  {
    if i < j {
      ByteAt(data, i);
      BytesAt(data, i + 1, j);
      assert data[i..j][1..] == data[i + 1..j];
      AtBoth(BitsOf(data), 8 * i, Lsb(data[i], 8), BitsOf(data[i + 1..j]));
    }
  }

  /** And no two stretches of bytes are the same bits. */
  lemma {:induction false} BytesOnce(x: seq<Byte>, y: seq<Byte>)
    requires BitsOf(x) == BitsOf(y)
    ensures x == y
  {
    assert |x| == |y|;
    forall i: nat | i < |x| ensures x[i] == y[i] {
      ByteAt(x, i);
      ByteAt(y, i);
      AtSame(BitsOf(x), 8 * i, Lsb(x[i], 8), Lsb(y[i], 8));
      Pow8();
      LsbOnce(x[i], y[i], 8);
    }
  }

  /** Bytes stand in a stream where the same bytes stand in its source. */
  lemma {:induction false} BytesMatch(data: seq<Byte>, i: nat, j: nat, e: seq<Byte>)
    requires j == i + |e|
    ensures At(BitsOf(data), 8 * i, BitsOf(e)) <==> j <= |data| && data[i..j] == e
  {
    hide BitsOf;
    if j <= |data| {
      var f := data[i..j];
      BytesAt(data, i, j);
      if At(BitsOf(data), 8 * i, BitsOf(e)) {
        AtSame(BitsOf(data), 8 * i, BitsOf(e), BitsOf(f));
        BytesOnce(e, f);
      }
    } else {
      assert 8 * i + |BitsOf(e)| > |BitsOf(data)|;
    }
  }

  lemma {:induction false} Pow8()
    ensures Pow2(8) == 256
  {
    assert Pow2(4) == 16;
  }

  lemma {:induction false} PowAdd(a: nat, b: nat)
    ensures Pow2(a + b) == Pow2(a) * Pow2(b)
  {
    if a > 0 {
      PowAdd(a - 1, b);
      assert 2 * (Pow2(a - 1) * Pow2(b)) == (2 * Pow2(a - 1)) * Pow2(b);
    }
  }

  lemma {:induction false} PowGrows(a: nat, b: nat)
    requires a <= b
    ensures Pow2(a) <= Pow2(b)
    decreases b - a
  {
    if a < b { PowGrows(a, b - 1); }
  }

  /** A byte above the bits held. */
  function Above(v: nat, b: Byte, held: nat): (r: nat)
  {
    v + (b as nat) * Pow2(held)
  }

  /** The next byte of the input joins the bits held. */
  lemma {:induction false} BitsMore(data: seq<Byte>, p: nat, v: nat, held: nat, at: nat)
    requires v < Pow2(held) && 8 * at == p + held && at < |data| && At(BitsOf(data), p, Lsb(v, held))
    ensures At(BitsOf(data), p, Lsb(Above(v, data[at], held), held + 8))
  {
    hide Lsb, Pow2, At, BitsOf;
    ByteAt(data, at);
    LsbJoin(v, data[at], held, 8);
    AtBoth(BitsOf(data), p, Lsb(v, held), Lsb(data[at], 8));
    PowAdd(held, 8);
    Pow8();
    Joined(v, data[at], Pow2(held));
  }

  lemma {:induction false} Joined(v: nat, b: Byte, w: nat)
    requires v < w
    ensures v + b * w < w * 256 && b * w == w * b
  {
    assert b * w <= 255 * w by { assert (255 - b) * w >= 0; }
  }

  /** Of the bits held the first are taken and the rest stay. */
  lemma {:induction false} BitsTaken(bs: seq<Bit>, p: nat, v: nat, held: nat, need: nat)
    requires v < Pow2(held) && need <= held && At(bs, p, Lsb(v, held))
    ensures var w := Pow2(need);
            && 0 <= v % w < w && 0 <= v / w < Pow2(held - need)
            && At(bs, p, Lsb(v % w, need)) && At(bs, p + need, Lsb(v / w, held - need))
  {
    hide Pow2, Lsb, At;
    PowAdd(need, held - need);
    var low, high := Parted(v, Pow2(need), Pow2(held - need));
    LsbJoin(low, high, need, held - need);
    AtBoth(bs, p, Lsb(low, need), Lsb(high, held - need));
  }

  lemma {:induction false} Parted(v: nat, w: nat, u: nat) returns (low: nat, high: nat)
    requires w > 0 && v < w * u
    ensures low == v % w < w && high == v / w < u && v == low + w * high
  {
    low, high := v % w, v / w;
    assert high >= u ==> w * high >= w * u;
  }

  function Two(data: seq<Byte>, i: nat): (n: nat)
    requires i + 2 <= |data|
    ensures n < 65536
  {
    (data[i] as nat) + 256 * (data[i + 1] as nat)
  }

  /** A source of bytes, and the bits of the last one that nobody has asked for yet. */
  class Reader {
    const input: seq<Byte>
    var pos: nat
    var bad: bool
    var bitbuf: nat
    var bitcnt: nat

    ghost predicate Valid()
      reads this
    {
      && pos <= |input| && (bad ==> pos == |input|)
      && bitcnt < 8 && bitbuf < Pow2(bitcnt)
      && (!bad ==> bitcnt <= 8 * pos && At(Stream(), Here(), Lsb(bitbuf, bitcnt)))
    }

    ghost function Stream(): seq<Bit>
    {
      BitsOf(input)
    }

    /** How many bits have been taken. */
    ghost function Here(): nat
      reads this
    {
      if bitcnt <= 8 * pos then 8 * pos - bitcnt else 0
    }

    constructor (input: seq<Byte>)
      ensures Valid() && !bad && Here() == 0 && this.input == input
    {
      this.input := input;
      pos, bad, bitbuf, bitcnt := 0, false, 0, 0;
    }

    /** The next byte; past the last one, zero, and the source is bad from then on. */
    method NextByte() returns (b: Byte)
      requires pos <= |input|
      modifies this`pos, this`bad
      ensures old(pos) < |input| ==> b == input[old(pos)] && pos == old(pos) + 1 && bad == old(bad)
      ensures old(pos) == |input| ==> b == 0 && pos == old(pos) && bad
    {
      if pos == |input| {
        bad := true;
        return 0;
      }
      b := input[pos];
      pos := pos + 1;
    }

    /** The next byte with no bits held over. */
    method WholeByte() returns (b: Byte)
      requires Valid() && bitcnt == 0
      modifies this`pos, this`bad
      ensures Valid() && (bad <==> old(bad) || old(pos) == |input|)
      ensures !bad ==> b == input[old(pos)] && pos == old(pos) + 1
    {
      b := NextByte();
    }

    /** A number of two bytes, the low one first. */
    method LowFirst() returns (n: nat)
      requires Valid() && bitcnt == 0
      modifies this`pos, this`bad
      ensures Valid() && n < 65536 && (bad <==> old(bad) || old(pos) + 2 > |input|)
      ensures !bad ==> n == Two(input, old(pos)) && pos == old(pos) + 2
    {
      hide Valid;
      var lo := WholeByte();
      var hi := WholeByte();
      n := (lo as nat) + 256 * (hi as nat);
    }

    /** n bytes passed over. */
    method Skip(n: nat) returns (ok: bool)
      requires Valid() && bitcnt == 0
      modifies this`pos, this`bad
      ensures Valid() && (ok <==> old(pos) + n <= |input|)
      ensures bad <==> old(bad) || !ok
      ensures ok ==> pos == old(pos) + n
    {
      if pos + n <= |input| {
        pos := pos + n;
        return true;
      }
      pos, bad := |input|, true;
      ok := false;
    }

    /**
     * The next need bits as a number. Fewer than eight bits are ever held over, and
     * the source turns bad exactly when the stream ends first.
     */
    method Take(need: nat) returns (v: nat)
      requires Valid() && need <= 24
      modifies this
      ensures Valid() && v < Pow2(need)
      ensures bad <==> old(bad) || old(Here()) + need > 8 * |input|
      ensures !bad ==> Here() == old(Here()) + need && At(Stream(), old(Here()), Lsb(v, need))
    {
      hide Lsb, Pow2, At, BitsOf;
      ghost var p := Here();
      var all, held := Hold(need);
      HeldLess(all, held, need);
      if !bad { BitsTaken(Stream(), p, all, held, need); }
      v := all % Pow2(need);
      bitbuf := all / Pow2(need);
      bitcnt := held - need;
    }

    /** Bytes are read until need bits are held. */
    method Hold(need: nat) returns (all: nat, held: nat)
      requires Valid() && need <= 24
      modifies this`pos, this`bad
      ensures pos <= |input| && (bad ==> pos == |input|) && all < Pow2(held) && need <= held < need + 8
      ensures bad <==> old(bad) || old(Here()) + need > 8 * |input|
      ensures !bad ==> 8 * pos == old(Here()) + held && At(Stream(), old(Here()), Lsb(all, held))
    {
      hide Lsb, Pow2, At, BitsOf, Above;
      ghost var p := Here();
      all, held := bitbuf, bitcnt;
      while held < need
        invariant pos <= |input| && (bad ==> pos == |input|) && all < Pow2(held)
        invariant held < need + 8 && held <= 32
        invariant bad <== old(bad)
        invariant !bad ==> 8 * pos == p + held && At(Stream(), p, Lsb(all, held))
        invariant bad ==> old(bad) || p + need > 8 * |input|
      {
        ghost var at := pos;
        var b := NextByte();
        if !bad { BitsMore(input, p, all, held, at); }
        HeldMore(all, b, held);
        all := Above(all, b, held);
        held := held + 8;
      }
    }

    /** The bits held are dropped: on to the next whole byte. */
    method Align()
      requires Valid()
      modifies this`bitbuf, this`bitcnt
      ensures Valid() && bitcnt == 0 && bad == old(bad) && Here() == 8 * pos
      ensures !bad ==> Here() == (old(Here()) + 7) / 8 * 8
    {
      bitbuf, bitcnt := 0, 0;
    }
  }

  lemma {:induction false} HeldMore(v: nat, b: Byte, held: nat)
    requires v < Pow2(held)
    ensures Above(v, b, held) < Pow2(held + 8)
  {
    PowAdd(held, 8);
    Pow8();
    Joined(v, b, Pow2(held));
  }

  lemma {:induction false} HeldLess(v: nat, held: nat, need: nat)
    requires v < Pow2(held) && need <= held
    ensures Pow2(need) > 0 && v / Pow2(need) < Pow2(held - need)
  {
    PowAdd(need, held - need);
    var _, _ := Parted(v, Pow2(need), Pow2(held - need));
  }
}
