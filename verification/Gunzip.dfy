/** Whole blocks and whole gzip files (src/tuxpac/unpack.c). */
module Gunzip {
  import opened Base
  import opened Bits
  import opened Huffman
  import opened Window
  import opened Deflate
  import opened Inflate

  /** Block b's own bits stand at p, on the next whole byte for a stored one, and end at q. */
  ghost predicate OwnAt(bs: seq<Bit>, p: nat, b: Block, q: nat)
  {
    BlockOk(b) && var s := if b.Stored? then ByteUp(p) else p; At(bs, s, BlockBits(b)) && q == s + |BlockBits(b)|
  }

  ghost predicate Made(h: seq<Byte>, b: Block, h': seq<Byte>)
  {
    BlockFits(h, b) && h' == BlockPlayed(h, b)
  }

  ghost predicate Awaited(bs: seq<Bit>, p: nat, h: seq<Byte>, b: Block)
  {
    BlockOk(b) && BlockFits(h, b) && At(bs, if b.Stored? then ByteUp(p) else p, BlockBits(b))
  }

  // ---- stored

  /** The four bytes before the data, as two numbers. */
  ghost predicate Counts(input: seq<Byte>, i: nat, n: nat)
  {
    && n < 65536 && i + 4 <= |input| && input[i] == n % 256 && input[i + 1] == n / 256
    && input[i + 2] == (65535 - n) % 256 && input[i + 3] == (65535 - n) / 256
  }

  lemma {:induction false} CountsAre(input: seq<Byte>, i: nat, n: nat)
    requires n < 65536 && i + 4 <= |input|
    ensures Counts(input, i, n) <==> input[i..i + 4] == CountBytes(n)
  {
    var c, e := input[i..i + 4], CountBytes(n);
    assert c[0] == input[i] && c[1] == input[i + 1] && c[2] == input[i + 2] && c[3] == input[i + 3];
    if Counts(input, i, n) { assert c == e; }
  }

  /** A stored block's bytes are its counts and its data. */
  lemma {:induction false} StoredIs(input: seq<Byte>, i: nat, j: nat, data: seq<Byte>)
    requires |data| < 65536 && j == i + 4 + |data| && j <= |input|
    ensures input[i..j] == StoredBytes(data) <==> Counts(input, i, |data|) && input[i + 4..j] == data
  {
    hide Counts, CountBytes;
    CountsAre(input, i, |data|);
    var k: nat := i + 4;
    SliceParts(input, i, k, j);
    JoinOnce(input[i..k], input[k..j], CountBytes(|data|), data);
  }

  lemma {:induction false} SliceParts(s: seq<Byte>, i: nat, k: nat, j: nat)
    requires i <= k <= j <= |s|
    ensures s[i..j] == s[i..k] + s[k..j]
  {
  }

  lemma {:induction false} JoinOnce(a: seq<Byte>, b: seq<Byte>, c: seq<Byte>, d: seq<Byte>)
    requires |a| == |c|
    ensures a + b == c + d <==> a == c && b == d
  {
    if a + b == c + d {
      assert (a + b)[..|a|] == a && (c + d)[..|a|] == c;
      assert (a + b)[|a|..] == b && (c + d)[|a|..] == d;
    }
  }

  lemma {:induction false} StoredAt(input: seq<Byte>, p: nat, i: nat, j: nat, h: seq<Byte>, data: seq<Byte>)
    requires 8 * i == ByteUp(p) && |data| < 65536 && j == i + 4 + |data| <= |input| && Counts(input, i, |data|)
      && data == input[i + 4..j]
    ensures OwnAt(BitsOf(input), p, Stored(data), 8 * j) && Made(h, Stored(data), h + data)
  {
    hide At, BitsOf, ByteUp, StoredBytes, Counts;
    StoredIs(input, i, j, data);
    BytesMatch(input, i, j, StoredBytes(data));
  }

  lemma {:induction false} StoredBits(bs: seq<Bit>, p: nat, h: seq<Byte>, b: Block)
    requires Awaited(bs, p, h, b) && b.Stored?
    ensures |b.data| < 65536 && At(bs, ByteUp(p), BitsOf(StoredBytes(b.data)))
  {
    hide At, BitsOf, ByteUp, StoredBytes;
  }

  lemma {:induction false} StoredThere(input: seq<Byte>, i: nat, j: nat, data: seq<Byte>)
    requires |data| < 65536 && j == i + 4 + |data| && At(BitsOf(input), 8 * i, BitsOf(StoredBytes(data)))
    ensures j <= |input| && Counts(input, i, |data|) && input[i + 4..j] == data
  {
    hide *;
    BytesMatch(input, i, j, StoredBytes(data));
    StoredIs(input, i, j, data);
  }

  lemma {:induction false} StoredAwaited(input: seq<Byte>, p: nat, i: nat, h: seq<Byte>, b: Block) returns (j: nat)
    requires Awaited(BitsOf(input), p, h, b) && b.Stored? && 8 * i == ByteUp(p)
    ensures Counts(input, i, |b.data|) && j == i + 4 + |b.data| && j <= |input| && b.data == input[i + 4..j]
  {
    hide *;
    j := i + 4 + |b.data|;
    StoredBits(BitsOf(input), p, h, b);
    StoredThere(input, i, j, b.data);
  }

  /** The two counts, and whether they agree. */
  method StoredCounts(r: Reader) returns (n: nat, ok: bool)
    requires r.Valid() && r.bitcnt == 0
    modifies r`pos, r`bad
    ensures r.Valid() && n < 65536 && (old(r.bad) ==> r.bad)
    ensures !r.bad ==> r.pos == old(r.pos) + 4 && (ok ==> Counts(r.input, old(r.pos), n))
    ensures !old(r.bad) ==> forall m :: Counts(r.input, old(r.pos), m) ==> !r.bad && ok && m == n
  {
    hide Bits.Reader.Valid, Counts;
    ghost var i := r.pos;
    n := r.LowFirst();
    var nlen := r.LowFirst();
    ok := n == 65535 - nlen;
    CountsBy(r.input, i);
  }

  lemma {:induction false} CountsBy(input: seq<Byte>, i: nat)
    ensures forall n :: Counts(input, i, n) <==> i + 4 <= |input| && n == Two(input, i) == 65535 - Two(input, i + 2)
  {
  }

  method StoredBlock(r: Reader, w: Output, ghost want: Block) returns (ok: bool, ghost b: Block)
    requires r.Valid() && Ready(w)
    modifies r, w, w.win
    ensures r.Valid() && Ready(w) && (old(w.stopped) ==> w.stopped)
    ensures ok ==>
      && !old(r.bad) && !r.bad && b.Stored? && OwnAt(r.Stream(), old(r.Here()), b, r.Here())
      && Made(old(w.history), b, w.history)
    ensures !old(r.bad) && want.Stored? && Awaited(r.Stream(), old(r.Here()), old(w.history), want) ==> ok && b == want
  {
    hide *;
    ghost var p, h := r.Here(), w.history;
    b := Stored([]);
    r.Align();
    ghost var i := r.pos;
    ghost var due := !r.bad && want.Stored? && Awaited(r.Stream(), p, h, want);
    AlignedAt(r, p);
    ghost var j := 0;
    if due { j := StoredAwaited(r.input, p, i, h, want); }
    var len, agree := StoredCounts(r);
    if !agree {
      return false, b;
    }
    ghost var at := r.pos;
    StoredData(r, w, len);
    ok := !r.bad;
    if ok {
      ghost var data := r.input[at..r.pos];
      StoredAt(r.input, p, i, r.pos, h, data);
      b := Stored(data);
      WholeHere(r);
    }
  }

  /** len bytes straight to the output, as far as there are any. */
  method StoredData(r: Reader, w: Output, len: nat)
    requires r.Valid() && Ready(w) && r.bitcnt == 0
    modifies r`pos, r`bad, w, w.win
    ensures r.Valid() && Ready(w) && (old(w.stopped) ==> w.stopped)
      && (r.bad <==> old(r.bad) || old(r.pos) + len > |r.input|)
    ensures !r.bad ==>
      r.pos == old(r.pos) + len <= |r.input| && w.history == old(w.history) + r.input[old(r.pos)..r.pos]
  {
    hide *;
    ghost var from, h := r.pos, w.history;
    PosFits(r);
    var n: nat := len;
    if !r.bad { NothingYet(r.input, from, h, r); }
    while n > 0 && !r.bad
      invariant r.Valid() && Ready(w) && (old(w.stopped) ==> w.stopped) && n <= len && r.bitcnt == 0
      invariant r.bad ==> old(r.bad) || from + len > |r.input|
      invariant !r.bad ==>
        !old(r.bad) && r.pos == from + (len - n) <= |r.input| && w.history == h + r.input[from..r.pos]
      decreases n
    {
      ghost var at := r.pos;
      CopyReady(w);
      var x := r.WholeByte();
      w.Put(x);
      CopyDone(w);
      if !r.bad { OneMore(r.input, from, at, h, r); }
      n := n - 1;
    }
  }

  lemma {:induction false} PosFits(r: Reader)
    requires r.Valid()
    ensures r.pos <= |r.input| && (r.bad ==> r.pos == |r.input|)
  {
  }

  lemma {:induction false} AlignedAt(r: Reader, p: nat)
    requires r.Valid()
    ensures r.pos <= |r.input| && r.Stream() == BitsOf(r.input)
    ensures 8 * r.pos == (p + 7) / 8 * 8 ==> 8 * r.pos == ByteUp(p)
  {
  }

  lemma {:induction false} WholeHere(r: Reader)
    requires r.Valid() && r.bitcnt == 0
    ensures r.Here() == 8 * r.pos && r.Stream() == BitsOf(r.input)
  {
  }

  lemma {:induction false} NothingYet(input: seq<Byte>, at: nat, h: seq<Byte>, r: Reader)
    requires r.Valid() && r.input == input && at == r.pos
    ensures at <= |input| && h == h + input[at..at]
  {
  }

  lemma {:induction false} OneMore(input: seq<Byte>, from: nat, at: nat, h: seq<Byte>, r: Reader)
    requires r.Valid() && r.input == input && from <= at < r.pos == at + 1
    ensures r.pos <= |input| && h + input[from..at] + [input[at]] == h + input[from..at + 1]
  {
  }

  // ---- fixed codes

  lemma {:induction false} WeightTimes(L: seq<nat>, n: nat, l: nat)
    requires 0 < l <= TOP
    ensures Weight(L + Times(n, l)) == Weight(L) + n * Pow2(TOP - l)
  {
    hide Pow2;
    if n > 0 {
      WeightTimes(L, n - 1, l);
      var all := L + Times(n, l);
      assert all[..|all| - 1] == L + Times(n - 1, l);
      assert n * Pow2(TOP - l) == (n - 1) * Pow2(TOP - l) + Pow2(TOP - l);
    } else {
      assert L + Times(0, l) == L;
    }
  }

  lemma {:induction false} FixedSound()
    ensures Lengths(FixedLengths()) && Weight(FixedLengths()) == Pow2(TOP)
    ensures Lengths(FixedDistances()) && Weight(FixedDistances()) < Pow2(TOP)
  {
    hide Weight, Times;
    TimesFit();
    WeightNone();
    var a := [] + Times(144, 8);
    assert a == Times(144, 8);
    WeightTimes([], 144, 8);
    WeightTimes(a, 112, 9);
    WeightTimes(a + Times(112, 9), 24, 7);
    WeightTimes(a + Times(112, 9) + Times(24, 7), 8, 8);
    WeightTimes([], 30, 5);
    assert [] + Times(30, 5) == Times(30, 5);
    Powers();
  }

  lemma {:induction false} Powers()
    ensures Pow2(6) == 64 && Pow2(7) == 128 && Pow2(8) == 256 && Pow2(10) == 1024 && Pow2(15) == 32768
  {
    assert Pow2(3) == 8;
    assert Pow2(12) == 4096;
  }

  lemma {:induction false} WeightNone()
    ensures Weight([]) == 0
  {
  }

  lemma {:induction false} TimesFit()
    ensures Lengths(FixedLengths()) && Lengths(FixedDistances())
  {
  }

  method FixedBlock(r: Reader, w: Output, lencode: Huff, distcode: Huff, ghost want: Block)
      returns (ok: bool, ghost b: Block)
    requires r.Valid() && Ready(w) && lencode != distcode && |lencode.symbol| == SYMBOLS == |distcode.symbol|
    modifies r, w, w.win, lencode, distcode
    ensures r.Valid() && Ready(w) && (old(w.stopped) ==> w.stopped) && |lencode.symbol| == SYMBOLS == |distcode.symbol|
    ensures ok ==>
      && !old(r.bad) && !r.bad && b.Fixed? && OwnAt(r.Stream(), old(r.Here()), b, r.Here())
      && Made(old(w.history), b, w.history)
    ensures !old(r.bad) && want.Fixed? && Awaited(r.Stream(), old(r.Here()), old(w.history), want) ==>
      (ok && b == want) || w.stopped
  {
    hide *;
    ghost var L, D := FixedLengths(), FixedDistances();
    FixedSound();
    FixedRoom();
    var left := lencode.Construct(FixedLengths());
    left := distcode.Construct(FixedDistances());
    ghost var ts := if want.Fixed? then want.tokens else [];
    if want.Fixed? && Awaited(r.Stream(), r.Here(), w.history, want) {
      FixedAwaited(r.Stream(), r.Here(), w.history, want);
    }
    ok, ts := Codes(r, w, lencode, distcode, L, D, ts);
    b := Fixed(ts);
    if ok { FixedAt(r.Stream(), old(r.Here()), old(w.history), w.history, ts, r.Here()); }
  }

  lemma {:induction false} FixedRoom()
    ensures |FixedLengths()| <= SYMBOLS && |FixedDistances()| <= SYMBOLS
    ensures forall L {:trigger Oversubscribed(L)} :: Weight(L) <= Pow2(TOP) ==> !Oversubscribed(L)
  {
  }

  lemma {:induction false} FixedAwaited(bs: seq<Bit>, p: nat, h: seq<Byte>, b: Block)
    requires b.Fixed? && Awaited(bs, p, h, b)
    ensures BodyExpected(FixedLengths(), FixedDistances(), bs, p, h, b.tokens)
  {
    hide At, BodyOk, BodyBits, FixedLengths, FixedDistances, TokensFit;
  }

  lemma {:induction false} FixedAt(bs: seq<Bit>, p: nat, h: seq<Byte>, h': seq<Byte>, ts: seq<Token>, q: nat)
    requires BodyAt(FixedLengths(), FixedDistances(), bs, p, ts, q) && Plays(h, ts, h')
    ensures OwnAt(bs, p, Fixed(ts), q) && Made(h, Fixed(ts), h')
  {
    hide At, BodyOk, BodyBits, FixedLengths, FixedDistances, TokensFit, AllPlayed;
  }

  // ---- the head of a dynamic block

  ghost predicate GivenAt(bs: seq<Bit>, p: nat, given: seq<nat>, q: nat)
  {
    At(bs, p, GivenBits(given)) && q == p + |GivenBits(given)|
  }

  ghost predicate Small(given: seq<nat>)
  {
    forall i :: 0 <= i < |given| ==> given[i] < 8
  }

  lemma {:induction false} GivenMore(bs: seq<Bit>, p: nat, given: seq<nat>, q: nat, v: nat)
    requires GivenAt(bs, p, given, q) && At(bs, q, Lsb(v, 3))
    ensures GivenAt(bs, p, given + [v], q + 3)
  {
    hide At, Lsb;
    assert (given + [v])[..|given|] == given;
    AtBoth(bs, p, GivenBits(given), Lsb(v, 3));
  }

  lemma {:induction false} GivenNext(bs: seq<Bit>, p: nat, given: seq<nat>, n: nat, q: nat)
    requires At(bs, p, GivenBits(given)) && n < |given| && GivenAt(bs, p, given[..n], q)
    ensures At(bs, q, Lsb(given[n], 3))
    decreases |given|
  {
    hide At, Lsb;
    var m := |given| - 1;
    AtBoth(bs, p, GivenBits(given[..m]), Lsb(given[m], 3));
    if n < m {
      assert given[..m][..n] == given[..n];
      GivenNext(bs, p, given[..m], n, q);
    }
  }

  function Entry(given: seq<nat>, k: nat): (r: nat)
  {
    if k < |given| then given[k] else 0
  }

  /** The first i lengths are where their symbols look for them. */
  ghost predicate Scattered(C: seq<nat>, given: seq<nat>, i: nat)
  {
    |C| == 19 && forall s: nat :: s < 19 && InOrder(s) < i ==> C[s] == Entry(given, InOrder(s))
  }

  lemma {:induction false} ScatterMore(C: seq<nat>, given: seq<nat>, i: nat, v: nat, given': seq<nat>)
    requires Scattered(C, given, i) && i < 19
    requires (given' == given + [v] && |given| == i) || (given' == given && |given| <= i && v == 0)
    ensures |C| == 19 && Scattered(C[OrderAt(i) := v], given', i + 1)
  {
    hide InOrder;
    OrderOnce(i);
  }

  lemma {:induction false} OrderOnce(i: nat)
    requires i < 19
    ensures InOrder(OrderAt(i)) == i
    ensures forall s: nat :: s < 19 && InOrder(s) == i ==> s == OrderAt(i)
  {
  }

  lemma {:induction false} Gathered(C: seq<nat>, given: seq<nat>)
    requires Scattered(C, given, 19)
    ensures C == CodeLengths(given)
  {
    hide InOrder;
  }

  lemma {:induction false} Eight()
    ensures Pow2(3) == 8
  {
    assert Pow2(2) == 4;
  }

  lemma {:induction false} LengthsSmall(given: seq<nat>)
    requires Small(given)
    ensures Lengths(CodeLengths(given)) && |CodeLengths(given)| == 19
  {
    hide InOrder;
  }

  /** The lengths of the code length code, which come in an order of their own. */
  method GivenLengths(r: Reader, ncode: nat, ghost want: seq<nat>) returns (C: seq<nat>, ghost given: seq<nat>)
    requires r.Valid() && ncode <= 19
    modifies r
    ensures r.Valid() && (old(r.bad) ==> r.bad) && |given| == ncode && Small(given) && C == CodeLengths(given)
    ensures !r.bad ==> GivenAt(r.Stream(), old(r.Here()), given, r.Here())
    ensures !old(r.bad) && |want| == ncode && Small(want) && At(r.Stream(), old(r.Here()), GivenBits(want)) ==>
      !r.bad && given == want
  {
    hide *;
    ghost var bs, p := r.Stream(), r.Here();
    ghost var due := !r.bad && |want| == ncode && Small(want) && At(bs, p, GivenBits(want));
    C, given := seq(19, _ => 0), [];
    GivenStart(C, bs, p, r);
    for i := 0 to 19
      invariant r.Valid() && (old(r.bad) ==> r.bad) && |given| == (if i < ncode then i else ncode) && Small(given)
      invariant Scattered(C, given, i)
      invariant !r.bad ==> GivenAt(bs, p, given, r.Here())
      invariant due ==> !r.bad && given <= want
    {
      var v: nat := 0;
      ghost var was := given;
      if i < ncode {
        ghost var q := r.Here();
        v := r.Take(3);
        if due { GivenWanted(bs, p, want, given, q, r, v); }
        GivenAdd(bs, p, given, q, r, v);
        given := given + [v];
      }
      ScatterMore(C, was, i, v, given);
      C := C[OrderAt(i) := v];
    }
    Gathered(C, given);
  }

  lemma {:induction false} GivenStart(C: seq<nat>, bs: seq<Bit>, p: nat, r: Reader)
    requires r.Valid() && bs == r.Stream() && p == r.Here() && |C| == 19
    ensures Scattered(C, [], 0) && Small([]) && (!r.bad ==> GivenAt(bs, p, [], p))
  {
    if !r.bad { HereFits(r); }
  }

  lemma {:induction false} GivenAdd(bs: seq<Bit>, p: nat, given: seq<nat>, q: nat, r: Reader, v: nat)
    requires Small(given) && v < Pow2(3)
    requires !r.bad ==> GivenAt(bs, p, given, q) && At(bs, q, Lsb(v, 3))
    ensures Small(given + [v]) && (!r.bad ==> GivenAt(bs, p, given + [v], q + 3))
  {
    hide Pow2, GivenAt, At;
    Eight();
    if !r.bad { GivenMore(bs, p, given, q, v); }
  }

  lemma {:induction false} GivenWanted(bs: seq<Bit>, p: nat, want: seq<nat>, given: seq<nat>, q: nat, r: Reader, v: nat)
    requires Small(want) && At(bs, p, GivenBits(want)) && given <= want && |given| < |want| && bs == r.Stream()
    requires v < Pow2(3) && (r.bad <==> q + 3 > 8 * |r.input|) && (!r.bad ==> At(bs, q, Lsb(v, 3)))
      && GivenAt(bs, p, given, q)
    ensures !r.bad && given + [v] <= want
  {
    hide Pow2, GivenAt, At, Lsb, GivenBits;
    var n := |given|;
    assert want[..n] == given;
    GivenNext(bs, p, want, n, q);
    AtEnds(bs, q, Lsb(want[n], 3));
    StreamSize(r);
    Eight();
    SameNumber(bs, q, v, want[n], 3);
  }

  ghost predicate HeaderAt(bs: seq<Bit>, p: nat, h: Header, q: nat)
  {
    HeaderOk(h) && At(bs, p, HeaderBits(h)) && q == p + |HeaderBits(h)|
  }

  ghost predicate HeaderExpected(bs: seq<Bit>, p: nat, h: Header)
  {
    HeaderOk(h) && At(bs, p, HeaderBits(h))
  }

  lemma {:induction false} HeaderParts(bs: seq<Bit>, p: nat, h: Header)
    requires HeaderOk(h)
    ensures At(bs, p, HeaderBits(h)) <==>
      && At(bs, p, Lsb(h.nlen - 257, 5)) && At(bs, p + 5, Lsb(h.ndist - 1, 5)) && At(bs, p + 10, Lsb(|h.given| - 4, 4))
      && At(bs, p + 14, GivenBits(h.given))
    ensures |HeaderBits(h)| == 14 + |GivenBits(h.given)|
  {
    hide At, Lsb, GivenBits;
    var a, b, c, d := Lsb(h.nlen - 257, 5), Lsb(h.ndist - 1, 5), Lsb(|h.given| - 4, 4), GivenBits(h.given);
    AtBoth(bs, p, a, b);
    AtBoth(bs, p, a + b, c);
    AtBoth(bs, p, a + b + c, d);
  }

  method ReadHeader(r: Reader, ghost want: Header)
      returns (ok: bool, nlen: nat, ndist: nat, C: seq<nat>, ghost hd: Header)
    requires r.Valid()
    modifies r
    ensures r.Valid() && (old(r.bad) ==> r.bad)
    ensures ok ==>
      && 257 <= nlen <= 286 && 1 <= ndist <= 30 && hd.nlen == nlen && hd.ndist == ndist
      && C == CodeLengths(hd.given) && Small(hd.given)
    ensures ok && !r.bad ==> HeaderAt(r.Stream(), old(r.Here()), hd, r.Here())
    ensures !old(r.bad) && HeaderExpected(r.Stream(), old(r.Here()), want) ==> ok && !r.bad && hd == want
  {
    hide *;
    ghost var bs, p := r.Stream(), r.Here();
    ghost var due := !r.bad && HeaderExpected(bs, p, want);
    hd := Header(0, 0, []);
    C := [];
    FourBits();
    var x := r.Take(5);
    var y := r.Take(5);
    var z := r.Take(4);
    if due { HeaderWanted(bs, p, want, r, x, y, z); }
    nlen, ndist := x + 257, y + 1;
    var ncode: nat := z + 4;
    if nlen > 286 || ndist > 30 {
      return false, nlen, ndist, C, hd;
    }
    ghost var given;
    C, given := GivenLengths(r, ncode, want.given);
    hd := Header(nlen, ndist, given);
    ok := true;
    if !r.bad { HeaderRead(bs, p, r, hd); }
  }

  lemma {:induction false} FourBits()
    ensures Pow2(4) == 16 && Pow2(5) == 32
  {
    assert Pow2(2) == 4;
  }

  lemma {:induction false} HeaderWanted(bs: seq<Bit>, p: nat, h: Header, r: Reader, x: nat, y: nat, z: nat)
    requires HeaderExpected(bs, p, h) && bs == r.Stream() && x < Pow2(5) && y < Pow2(5) && z < Pow2(4)
    requires r.bad <==> p + 5 > 8 * |r.input| || p + 10 > 8 * |r.input| || p + 14 > 8 * |r.input|
    requires !r.bad ==> At(bs, p, Lsb(x, 5)) && At(bs, p + 5, Lsb(y, 5)) && At(bs, p + 10, Lsb(z, 4))
    ensures !r.bad && h.nlen == x + 257 && h.ndist == y + 1 && |h.given| == z + 4 && h.nlen <= 286 && h.ndist <= 30
    ensures At(bs, p + 14, GivenBits(h.given)) && Small(h.given)
  {
    hide At, Lsb, Pow2, HeaderBits, GivenBits;
    FourBits();
    HeaderParts(bs, p, h);
    AtEnds(bs, p + 10, Lsb(|h.given| - 4, 4));
    StreamSize(r);
    SameNumber(bs, p, x, h.nlen - 257, 5);
    SameNumber(bs, p + 5, y, h.ndist - 1, 5);
    SameNumber(bs, p + 10, z, |h.given| - 4, 4);
  }

  lemma {:induction false} HeaderRead(bs: seq<Bit>, p: nat, r: Reader, h: Header)
    requires 257 <= h.nlen <= 286 && 1 <= h.ndist <= 30 && 4 <= |h.given| <= 19 && Small(h.given)
    requires At(bs, p, Lsb(h.nlen - 257, 5)) && At(bs, p + 5, Lsb(h.ndist - 1, 5))
      && At(bs, p + 10, Lsb(|h.given| - 4, 4))
    requires GivenAt(bs, p + 14, h.given, r.Here())
    ensures HeaderAt(bs, p, h, r.Here())
  {
    hide At, Lsb, HeaderBits, GivenBits;
    HeaderParts(bs, p, h);
  }

  // ---- the code lengths

  ghost predicate StepsAt(C: seq<nat>, bs: seq<Bit>, p: nat, ss: seq<Step>, q: nat)
  {
    StepsOk(C, ss) && At(bs, p, StepsBits(C, ss)) && q == p + |StepsBits(C, ss)|
  }

  ghost predicate Makes(ss: seq<Step>, lens: seq<nat>)
  {
    StepsFit(ss) && lens == AllStepped(ss)
  }

  ghost predicate StepsExpected(C: seq<nat>, bs: seq<Bit>, p: nat, total: nat, ss: seq<Step>)
  {
    StepsOk(C, ss) && At(bs, p, StepsBits(C, ss)) && StepsFit(ss) && |AllStepped(ss)| == total
  }

  lemma {:induction false} StepsMore(C: seq<nat>, bs: seq<Bit>, p: nat, ss: seq<Step>, q: nat, s: Step)
    requires StepsAt(C, bs, p, ss, q) && StepOk(C, s) && At(bs, q, StepBits(C, s))
    ensures StepsAt(C, bs, p, ss + [s], q + |StepBits(C, s)|)
  {
    hide At, StepBits, StepOk;
    assert (ss + [s])[..|ss|] == ss;
    AtBoth(bs, p, StepsBits(C, ss), StepBits(C, s));
  }

  lemma {:induction false} MakesMore(ss: seq<Step>, lens: seq<nat>, s: Step)
    requires Makes(ss, lens) && StepFits(lens, s)
    ensures Makes(ss + [s], Stepped(lens, s))
  {
    hide StepFits, Stepped;
    assert (ss + [s])[..|ss|] == ss;
  }

  lemma {:induction false} StepNext(C: seq<nat>, bs: seq<Bit>, p: nat, ss: seq<Step>, n: nat, q: nat, lens: seq<nat>)
    requires StepsOk(C, ss) && At(bs, p, StepsBits(C, ss)) && StepsFit(ss) && n < |ss|
    requires StepsAt(C, bs, p, ss[..n], q) && Makes(ss[..n], lens)
    ensures StepOk(C, ss[n]) && At(bs, q, StepBits(C, ss[n])) && StepFits(lens, ss[n])
    ensures |Stepped(lens, ss[n])| <= |AllStepped(ss)|
    decreases |ss|
  {
    hide At, StepBits, StepOk, StepFits, Stepped;
    var m := |ss| - 1;
    AtBoth(bs, p, StepsBits(C, ss[..m]), StepBits(C, ss[m]));
    StepAdds(AllStepped(ss[..m]), ss[m]);
    if n < m {
      assert ss[..m][..n] == ss[..n];
      StepNext(C, bs, p, ss[..m], n, q, lens);
    }
  }

  lemma {:induction false} StepAdds(lens: seq<nat>, s: Step)
    requires StepFits(lens, s)
    ensures |Stepped(lens, s)| >= |lens|
  {
  }

  /** Each step adds some length, so none are left when there are as many as there should be. */
  lemma {:induction false} StepsGrow(C: seq<nat>, ss: seq<Step>, n: nat)
    requires StepsOk(C, ss) && StepsFit(ss) && n < |ss| && StepsFit(ss[..n])
    ensures |AllStepped(ss[..n])| < |AllStepped(ss)|
    decreases |ss|
  {
    var m := |ss| - 1;
    assert StepOk(C, ss[m]);
    if n < m {
      assert ss[..m][..n] == ss[..n];
      StepsGrow(C, ss[..m], n);
    }
  }

  ghost function StepAfter(ss: seq<Step>, n: nat): Step
  {
    if n < |ss| then ss[n] else One(0)
  }

  ghost function ExtraAfter(s: Step): nat
  {
    if s.One? then 0 else if s.times >= StepBase(StepSymbol(s)) then s.times - StepBase(StepSymbol(s)) else 0
  }

  lemma {:induction false} StepAwaited(C: seq<nat>, bs: seq<Bit>, p: nat, total: nat, want: seq<Step>, ss: seq<Step>,
      q: nat, lens: seq<nat>)
    requires StepsExpected(C, bs, p, total, want) && ss <= want && |lens| < total
    requires StepsAt(C, bs, p, ss, q) && Makes(ss, lens)
    ensures var s := StepAfter(want, |ss|); var sym := StepSymbol(s);
      && |ss| < |want| && StepOk(C, s) && StepFits(lens, s) && |Stepped(lens, s)| <= total
      && sym < |C| && Coded(C, sym) && At(bs, q, Word(C, sym))
      && (s.One? || (ExtraAfter(s) < Pow2(StepExtra(sym)) && At(bs, q + C[sym], Lsb(ExtraAfter(s), StepExtra(sym)))))
  {
    hide At, StepsBits, StepsOk, StepsFit, AllStepped, StepFits, Stepped, Word, Lsb, Pow2;
    var n := |ss|;
    assert want[..n] == ss;
    PrefixWhole(ss, want);
    StepNext(C, bs, p, want, n, q, lens);
    var s := want[n];
    var sym := StepSymbol(s);
    if s.One? {
      assert Word(C, sym) + [] == Word(C, sym);
    } else {
      AtBoth(bs, q, Word(C, sym), Lsb(s.times - StepBase(sym), StepExtra(sym)));
      StepPowers();
    }
  }

  lemma {:induction false} PrefixWhole(ss: seq<Step>, want: seq<Step>)
    requires ss <= want
    ensures |ss| == |want| ==> ss == want
  {
  }

  lemma {:induction false} StepPowers()
    ensures Pow2(2) == 4 && Pow2(3) == 8 && Pow2(7) == 128
  {
    assert Pow2(4) == 16;
  }

  /** The step a symbol and its extra bits stand for. */
  ghost function StepOf(sym: nat, x: nat): Step
  {
    if sym < 16 then One(sym) else if sym == 16 then Again(3 + x) else Zeroes(StepBase(sym) + x)
  }

  lemma {:induction false} StepOfIs(C: seq<nat>, sym: nat, x: nat)
    requires sym < 19 && Coded(C, sym) && x < Pow2(StepExtra(sym))
    ensures StepOk(C, StepOf(sym, x)) && StepSymbol(StepOf(sym, x)) == sym
    ensures sym >= 16 ==> StepOf(sym, x).times == StepBase(sym) + x
  {
    StepPowers();
  }

  lemma {:induction false} StepOfAfter(C: seq<nat>, s: Step)
    requires StepOk(C, s)
    ensures StepOf(StepSymbol(s), ExtraAfter(s)) == s && StepSymbol(s) < 19 && (s.One? <==> StepSymbol(s) < 16)
      && (s.One? ==> ExtraAfter(s) == 0)
  {
  }

  lemma {:induction false} StepRead(C: seq<nat>, bs: seq<Bit>, p: nat, ss: seq<Step>, q: nat, lens: seq<nat>, sym: nat,
      x: nat)
    requires StepsAt(C, bs, p, ss, q) && Makes(ss, lens) && sym < 19 && sym < |C| && Coded(C, sym)
      && At(bs, q, Word(C, sym))
    requires x < Pow2(StepExtra(sym)) && (sym >= 16 ==> At(bs, q + C[sym], Lsb(x, StepExtra(sym))))
      && (sym == 16 ==> lens != [])
    ensures var s := StepOf(sym, x);
      StepFits(lens, s) && StepsAt(C, bs, p, ss + [s], q + C[sym] + StepExtra(sym)) && Makes(ss + [s], Stepped(lens, s))
  {
    hide At, StepsAt, Makes, Word, Lsb, Pow2, Stepped;
    StepOfIs(C, sym, x);
    var s := StepOf(sym, x);
    if sym < 16 {
      assert Word(C, sym) + [] == Word(C, sym);
    } else {
      AtBoth(bs, q, Word(C, sym), Lsb(x, StepExtra(sym)));
    }
    StepsMore(C, bs, p, ss, q, s);
    MakesMore(ss, lens, s);
  }

  lemma {:induction false} SteppedIs(lens: seq<nat>, sym: nat, x: nat)
    requires sym < 19 && (sym == 16 ==> lens != [])
    ensures StepFits(lens, StepOf(sym, x)) && Stepped(lens, StepOf(sym, x)) ==
      if sym < 16 then lens + [sym] else lens + Times(StepBase(sym) + x, if sym == 16 then lens[|lens| - 1] else 0)
  {
  }

  lemma {:induction false} LengthsMore(lens: seq<nat>, n: nat, l: nat)
    requires Lengths(lens) && l <= TOP
    ensures Lengths(lens + [l]) && Lengths(lens + Times(n, l))
  {
  }

  lemma {:induction false} StepsEnd(C: seq<nat>, bs: seq<Bit>, p: nat, total: nat, want: seq<Step>, ss: seq<Step>,
      lens: seq<nat>)
    requires StepsExpected(C, bs, p, total, want) && ss <= want && Makes(ss, lens) && |lens| == total
    ensures ss == want
  {
    hide At, StepsBits, StepsOk, AllStepped;
    if |ss| < |want| {
      assert want[..|ss|] == ss;
      StepsGrow(C, want, |ss|);
    }
  }

  lemma {:induction false} StepsStart(C: seq<nat>, bs: seq<Bit>, p: nat)
    requires p <= |bs|
    ensures StepsAt(C, bs, p, [], p) && Makes([], []) && Lengths([])
  {
  }

  /** total code lengths, each given, or copied from the one before, or in a run of zeroes. */
  method ReadSteps(r: Reader, code: Huff, total: nat, ghost C: seq<nat>, ghost want: seq<Step>)
    returns (ok: bool, lens: seq<nat>, ghost ss: seq<Step>)
    requires r.Valid() && code.Decodes(C) && |C| == 19
    modifies r
    ensures r.Valid() && (old(r.bad) ==> r.bad)
    ensures ok ==> |lens| == total && Lengths(lens)
    ensures ok && !r.bad ==> StepsAt(C, r.Stream(), old(r.Here()), ss, r.Here()) && Makes(ss, lens)
    ensures !old(r.bad) && StepsExpected(C, r.Stream(), old(r.Here()), total, want) ==> ok && !r.bad && ss == want
  {
    hide *;
    ghost var bs, p := r.Stream(), r.Here();
    ghost var due := !r.bad && StepsExpected(C, bs, p, total, want);
    lens, ss := [], [];
    if !r.bad { HereFits(r); StepsStart(C, bs, p); }
    LengthsNone();
    while |lens| < total
      invariant r.Valid() && (old(r.bad) ==> r.bad) && |lens| <= total && Lengths(lens)
      invariant !r.bad ==> StepsAt(C, bs, p, ss, r.Here()) && Makes(ss, lens)
      invariant due ==> !r.bad && ss <= want
    {
      ghost var q := r.Here();
      ghost var next := StepAfter(want, |ss|);
      if due {
        StepAwaited(C, bs, p, total, want, ss, q, lens);
        StepOfAfter(C, next);
      }
      var sym := code.Decode(r, C);
      if sym < 0 || r.bad {
        return false, lens, ss;
      }
      if sym == 16 && lens == [] {
        if due { FirstFits(lens, next); }
        return false, lens, ss;
      }
      ExtraNone(sym);
      CodedIs(C, sym);
      var x: nat := 0;
      if sym >= 16 {
        ghost var a := r.Here();
        x := r.Take(StepExtra(sym));
        if due { ExtraWanted(bs, a, r, x, ExtraAfter(next), StepExtra(sym)); }
      }
      var n: nat := if sym < 16 then 1 else StepBase(sym) + x;
      SteppedIs(lens, sym, x);
      if |lens| + n > total {
        return false, lens, ss;
      }
      if !r.bad { StepRead(C, bs, p, ss, q, lens, sym, x); }
      var l := if sym < 16 then sym else if sym == 16 then lens[|lens| - 1] else 0;
      LastSmall(lens, l, sym);
      LengthsMore(lens, n, l);
      if due { StepPrefix(want, ss); }
      ss := ss + [StepOf(sym, x)];
      lens := if sym < 16 then lens + [l] else lens + Times(n, l);
    }
    ok := true;
    if due { StepsEnd(C, bs, p, total, want, ss, lens); }
  }

  lemma {:induction false} LengthsNone()
    ensures Lengths([])
  {
  }

  lemma {:induction false} FirstFits(lens: seq<nat>, s: Step)
    requires lens == [] && StepFits(lens, s)
    ensures StepSymbol(s) == 16 ==> s.One?
  {
  }

  lemma {:induction false} ExtraNone(sym: nat)
    ensures (sym < 16 ==> StepExtra(sym) == 0 && StepBase(sym) == 0) && Pow2(0) == 1 && StepExtra(sym) <= 24
    ensures sym >= 16 ==> StepBase(sym) >= 3
  {
  }

  lemma {:induction false} ExtraWanted(bs: seq<Bit>, a: nat, r: Reader, x: nat, y: nat, n: nat)
    requires bs == r.Stream() && At(bs, a, Lsb(y, n)) && x < Pow2(n) && y < Pow2(n)
    requires (r.bad <==> a + n > 8 * |r.input|) && (!r.bad ==> At(bs, a, Lsb(x, n)))
    ensures !r.bad && x == y
  {
    hide At, Lsb, Pow2;
    AtEnds(bs, a, Lsb(y, n));
    StreamSize(r);
    SameNumber(bs, a, x, y, n);
  }

  lemma {:induction false} LastSmall(lens: seq<nat>, l: nat, sym: nat)
    requires Lengths(lens) && (sym == 16 ==> lens != [])
    requires l == if sym < 16 then sym else if sym == 16 then lens[|lens| - 1] else 0
    ensures l <= TOP
  {
  }

  lemma {:induction false} StepPrefix(want: seq<Step>, ss: seq<Step>)
    requires ss <= want && |ss| < |want|
    ensures ss + [StepAfter(want, |ss|)] <= want
  {
  }

  // ---- dynamic codes

  /** The three parts of a dynamic block, one after another. */
  lemma {:induction false} DynamicParts(bs: seq<Bit>, p: nat, h: Header, ss: seq<Step>, ts: seq<Token>)
    requires DynamicOk(h, ss, ts)
    ensures var (C, L, D) := (CodeLengths(h.given), AllStepped(ss)[..h.nlen], AllStepped(ss)[h.nlen..]);
            var a := p + |HeaderBits(h)|; var b := a + |StepsBits(C, ss)|;
            && (At(bs, p, DynamicBits(h, ss, ts)) <==>
                At(bs, p, HeaderBits(h)) && At(bs, a, StepsBits(C, ss)) && At(bs, b, BodyBits(L, D, ts)))
            && p + |DynamicBits(h, ss, ts)| == b + |BodyBits(L, D, ts)|
  {
    hide At, HeaderBits, StepsBits, BodyBits, StepsOk, BodyOk, Sound, Complete, HeaderOk, CodeLengths, AllStepped,
      StepsFit;
    var (C, L, D) := (CodeLengths(h.given), AllStepped(ss)[..h.nlen], AllStepped(ss)[h.nlen..]);
    AtBoth(bs, p, HeaderBits(h), StepsBits(C, ss));
    AtBoth(bs, p, HeaderBits(h) + StepsBits(C, ss), BodyBits(L, D, ts));
  }

  /** The parts as they are awaited: the end of each is where the next begins. */
  ghost predicate PartsExpected(bs: seq<Bit>, p: nat, h: seq<Byte>, b: Block)
  {
    && b.Dynamic? && DynamicOk(b.header, b.steps, b.tokens) && HeaderExpected(bs, p, b.header)
    && var a := p + |HeaderBits(b.header)|;
       var c := a + |StepsBits(CodeLengths(b.header.given), b.steps)|;
       && StepsExpected(CodeLengths(b.header.given), bs, a, b.header.nlen + b.header.ndist, b.steps)
       && BodyExpected(AllStepped(b.steps)[..b.header.nlen], AllStepped(b.steps)[b.header.nlen..], bs, c, h, b.tokens)
  }

  lemma {:induction false} DynamicAwaited(bs: seq<Bit>, p: nat, h: seq<Byte>, b: Block)
    requires b.Dynamic? && Awaited(bs, p, h, b)
    ensures PartsExpected(bs, p, h, b)
  {
    hide At, HeaderBits, StepsBits, BodyBits, StepsOk, BodyOk, Sound, Complete, HeaderOk, CodeLengths, AllStepped,
      StepsFit, TokensFit, DynamicBits;
    DynamicParts(bs, p, b.header, b.steps, b.tokens);
  }

  lemma {:induction false} ExpectHeader(bs: seq<Bit>, p: nat, h: seq<Byte>, b: Block)
    requires PartsExpected(bs, p, h, b)
    ensures b.Dynamic? && HeaderExpected(bs, p, b.header) && Complete(CodeLengths(b.header.given))
  {
    hide HeaderExpected, StepsExpected, BodyExpected, CodeLengths, Complete, AllStepped;
  }

  lemma {:induction false} ExpectSteps(bs: seq<Bit>, p: nat, h: seq<Byte>, b: Block, a: nat)
    requires PartsExpected(bs, p, h, b) && HeaderAt(bs, p, b.header, a)
    ensures StepsExpected(CodeLengths(b.header.given), bs, a, b.header.nlen + b.header.ndist, b.steps)
  {
    hide HeaderExpected, StepsExpected, BodyExpected, CodeLengths, Complete, AllStepped, HeaderBits;
  }

  lemma {:induction false} ExpectBody(bs: seq<Bit>, p: nat, h: seq<Byte>, b: Block, a: nat, c: nat, lens: seq<nat>)
    requires PartsExpected(bs, p, h, b) && HeaderAt(bs, p, b.header, a) && Makes(b.steps, lens)
    requires StepsAt(CodeLengths(b.header.given), bs, a, b.steps, c)
    ensures b.header.nlen <= |lens| && |lens| > 256 && 257 <= b.header.nlen
    ensures lens[256] != 0 && Sound(lens[..b.header.nlen]) && Sound(lens[b.header.nlen..])
    ensures BodyExpected(lens[..b.header.nlen], lens[b.header.nlen..], bs, c, h, b.tokens)
  {
    hide HeaderExpected, StepsExpected, CodeLengths, Complete, AllStepped, HeaderBits, StepsBits, StepsOk, StepsFit,
      Sound, At, BodyBits, TokensOk, TokensFit;
  }

  lemma {:induction false} DynamicAt(bs: seq<Bit>, p: nat, h: seq<Byte>, h': seq<Byte>, hd: Header, ss: seq<Step>,
      ts: seq<Token>, lens: seq<nat>, a: nat, c: nat, q: nat)
    requires HeaderAt(bs, p, hd, a) && StepsAt(CodeLengths(hd.given), bs, a, ss, c) && Makes(ss, lens)
    requires Complete(CodeLengths(hd.given)) || Uncoded(CodeLengths(hd.given))
    requires |lens| == hd.nlen + hd.ndist && Sound(lens[..hd.nlen]) && Sound(lens[hd.nlen..])
    requires BodyAt(lens[..hd.nlen], lens[hd.nlen..], bs, c, ts, q) && Plays(h, ts, h')
    ensures OwnAt(bs, p, Dynamic(hd, ss, ts), q) && Made(h, Dynamic(hd, ss, ts), h')
  {
    hide At, HeaderBits, StepsBits, BodyBits, BodyOk, Sound, Complete, CodeLengths, TokensFit, AllPlayed, DynamicBits,
      DynamicOk;
    SomeCoded(CodeLengths(hd.given), ss, lens, hd);
    DynamicIs(hd, ss, ts, lens);
    DynamicParts(bs, p, hd, ss, ts);
  }

  lemma {:induction false} DynamicIs(hd: Header, ss: seq<Step>, ts: seq<Token>, lens: seq<nat>)
    requires HeaderOk(hd) && Complete(CodeLengths(hd.given)) && StepsOk(CodeLengths(hd.given), ss) && Makes(ss, lens)
    requires |lens| == hd.nlen + hd.ndist && Sound(lens[..hd.nlen]) && Sound(lens[hd.nlen..])
    requires BodyOk(lens[..hd.nlen], lens[hd.nlen..], ts)
    ensures DynamicOk(hd, ss, ts)
  {
    hide Complete, CodeLengths, StepsOk, Sound, BodyOk, AllStepped;
  }

  lemma {:induction false} SomeCoded(C: seq<nat>, ss: seq<Step>, lens: seq<nat>, hd: Header)
    requires HeaderOk(hd) && StepsOk(C, ss) && Makes(ss, lens) && |lens| == hd.nlen + hd.ndist
    ensures !Uncoded(C)
  {
    assert ss != [];
    assert StepOk(C, ss[0]);
    assert C[StepSymbol(ss[0])] != 0;
  }

  /** The tables for one of the two codes, refused when they are not Sound. */
  method Tables(code: Huff, L: seq<nat>) returns (ok: bool)
    requires Lengths(L) && |L| <= SYMBOLS && |code.symbol| == SYMBOLS
    modifies code
    ensures |code.symbol| == SYMBOLS && (ok <==> Sound(L)) && (ok ==> code.Decodes(L))
  {
    hide Weight, Pow2, Count, Sorted;
    var err := code.Construct(L);
    ok := !(err < 0 || (err > 0 && |L| - code.count[0] != 1));
  }

  ghost predicate DynamicDone(bs: seq<Bit>, p: nat, h: seq<Byte>, h': seq<Byte>, b: Block, q: nat)
  {
    b.Dynamic? && OwnAt(bs, p, b, q) && Made(h, b, h')
  }

  method DynamicBlock(r: Reader, w: Output, lencode: Huff, distcode: Huff, ghost want: Block)
      returns (ok: bool, ghost b: Block)
    requires r.Valid() && Ready(w) && lencode != distcode && |lencode.symbol| == SYMBOLS == |distcode.symbol|
    modifies r, w, w.win, lencode, distcode
    ensures r.Valid() && Ready(w) && (old(w.stopped) ==> w.stopped) && |lencode.symbol| == SYMBOLS == |distcode.symbol|
    ensures ok ==>
      !old(r.bad) && !r.bad && DynamicDone(r.Stream(), old(r.Here()), old(w.history), w.history, b, r.Here())
    ensures !old(r.bad) && want.Dynamic? && Awaited(r.Stream(), old(r.Here()), old(w.history), want) ==>
      (ok && b == want) || w.stopped
  {
    hide *;
    ghost var bs, p, h := r.Stream(), r.Here(), w.history;
    ghost var due := !r.bad && want.Dynamic? && Awaited(bs, p, h, want);
    ghost var (wh, ws, wt) := if want.Dynamic? then (want.header, want.steps, want.tokens)
        else (Header(0, 0, []), [], []);
    if due { DynamicAwaited(bs, p, h, want); ExpectHeader(bs, p, h, want); }
    b := Stored([]);
    ghost var hd, ss, ts;
    var nlen, ndist, C, lens;
    ok, nlen, ndist, C, hd := ReadHeader(r, wh);
    if !ok {
      return false, b;
    }
    ghost var a := r.Here();
    LengthsSmall(hd.given);
    NinteenFit();
    var left := lencode.Construct(C);
    CompleteIs(C);
    if left != 0 {
      return false, b;
    }
    if due { ExpectSteps(bs, p, h, want, a); }
    ok, lens, ss := ReadSteps(r, lencode, nlen + ndist, C, ws);
    if !ok {
      return false, b;
    }
    ghost var c := r.Here();
    if due { ExpectBody(bs, p, h, want, a, c, lens); }
    if lens[256] == 0 {
      return false, b;
    }
    var L, D := lens[..nlen], lens[nlen..];
    CutLengths(lens, nlen);
    ok := Tables(lencode, L);
    if !ok {
      return false, b;
    }
    ok := Tables(distcode, D);
    if !ok {
      return false, b;
    }
    ok, ts := Codes(r, w, lencode, distcode, L, D, wt);
    b := Dynamic(hd, ss, ts);
    if ok { DynamicFinished(bs, p, h, w.history, hd, ss, ts, lens, a, c, r.Here()); }
  }

  lemma {:induction false} DynamicFinished(bs: seq<Bit>, p: nat, h: seq<Byte>, h': seq<Byte>, hd: Header, ss: seq<Step>,
      ts: seq<Token>, lens: seq<nat>, a: nat, c: nat, q: nat)
    requires HeaderAt(bs, p, hd, a) && StepsAt(CodeLengths(hd.given), bs, a, ss, c) && Makes(ss, lens)
    requires Complete(CodeLengths(hd.given)) || Uncoded(CodeLengths(hd.given))
    requires |lens| == hd.nlen + hd.ndist && Sound(lens[..hd.nlen]) && Sound(lens[hd.nlen..])
    requires BodyAt(lens[..hd.nlen], lens[hd.nlen..], bs, c, ts, q) && Plays(h, ts, h')
    ensures DynamicDone(bs, p, h, h', Dynamic(hd, ss, ts), q)
  {
    hide HeaderAt, StepsAt, Makes, BodyAt, Plays, Sound, OwnAt, Made, Complete, Uncoded, CodeLengths;
    DynamicAt(bs, p, h, h', hd, ss, ts, lens, a, c, q);
  }

  lemma {:induction false} NinteenFit()
    ensures 19 <= SYMBOLS == 288
  {
  }

  lemma {:induction false} CompleteIs(L: seq<nat>)
    ensures Complete(L) <==> Weight(L) == Pow2(TOP)
    ensures Complete(L) ==> !Oversubscribed(L)
  {
    hide Weight, Pow2;
  }

  lemma {:induction false} CutLengths(lens: seq<nat>, n: nat)
    requires Lengths(lens) && n <= |lens|
    ensures Lengths(lens[..n]) && Lengths(lens[n..])
  {
  }

  // ---- a gzip file

  /** Past a name, which ends with a zero byte. */
  method SkipName(r: Reader)
    requires r.Valid() && r.bitcnt == 0
    modifies r`pos, r`bad
    ensures r.Valid() && r.bitcnt == 0 && (old(r.bad) ==> r.bad)
    ensures !old(r.bad) ==> PastName(r.input, old(r.pos)) == if r.bad then None else Some(r.pos)
  {
    var more := true;
    while more
      invariant r.Valid() && (old(r.bad) ==> r.bad)
      invariant more && !old(r.bad) ==> !r.bad && PastName(r.input, r.pos) == PastName(r.input, old(r.pos))
      invariant !more && !old(r.bad) ==> PastName(r.input, old(r.pos)) == if r.bad then None else Some(r.pos)
      decreases more, |r.input| - r.pos
    {
      var b := r.WholeByte();
      more := b != 0 && !r.bad;
    }
  }

  /** Where a header that has got this far ends, if the input does not end first. */
  ghost predicate Upto(r: Reader, i: Option<nat>)
    reads r
  {
    r.Valid() && r.bitcnt == 0 && i == if r.bad then None else Some(r.pos)
  }

  method SkipExtra(r: Reader, on: bool)
    requires Upto(r, Some(10)) && |r.input| >= 10 && on == Flag(r.input[3], 2)
    modifies r`pos, r`bad
    ensures Upto(r, PastExtra(r.input))
  {
    hide Flag;
    if on {
      var n := r.LowFirst();
      var _ := r.Skip(n);
    }
  }

  method SkipNameIf(r: Reader, on: bool, ghost i: Option<nat>)
    requires Upto(r, i)
    modifies r`pos, r`bad
    ensures Upto(r, PastNameIf(r.input, on, i))
  {
    hide PastName;
    if on {
      SkipName(r);
    }
  }

  method SkipNames(r: Reader)
    requires |r.input| >= 10 && Upto(r, PastExtra(r.input))
    modifies r`pos, r`bad
    ensures Upto(r, PastNames(r.input))
  {
    hide PastExtra, PastNameIf, Flag, Upto;
    SkipNameIf(r, Flag(r.input[3], 3), PastExtra(r.input));
    SkipNameIf(r, Flag(r.input[3], 4), PastNameIf(r.input, Flag(r.input[3], 3), PastExtra(r.input)));
  }

  method SkipCheck(r: Reader, on: bool, ghost i: Option<nat>)
    requires Upto(r, i)
    modifies r`pos, r`bad
    ensures Upto(r, PastCheck(r.input, on, i))
  {
    if on {
      var _ := r.Skip(2);
    }
  }

  lemma {:induction false} UptoIs(r: Reader, i: Option<nat>)
    ensures Upto(r, i) <==> r.Valid() && r.bitcnt == 0 && i == if r.bad then None else Some(r.pos)
  {
  }

  lemma {:induction false} HeaderEndIs(data: seq<Byte>)
    ensures |data| < 10 ==> !Magic(data)
    ensures HeaderEnd(data) == if !Magic(data) then None else PastCheck(data, Flag(data[3], 1), PastNames(data))
  {
    hide PastCheck, PastNames, Flag;
  }

  /** The gzip header; when the input ends inside it that is seen later, the source being bad. */
  method SkipHeader(r: Reader) returns (ok: bool)
    requires r.Valid() && r.bitcnt == 0 && r.pos == 0 && !r.bad
    modifies r
    ensures r.Valid() && r.bitcnt == 0
    ensures HeaderEnd(r.input) == if ok && !r.bad then Some(r.pos) else None
  {
    hide *;
    HeaderEndIs(r.input);
    var all := r.Skip(10);
    if !all || !Magic(r.input) {
      return false;
    }
    UptoIs(r, Some(10));
    SkipExtra(r, Flag(r.input[3], 2));
    SkipNames(r);
    SkipCheck(r, Flag(r.input[3], 1), PastNames(r.input));
    UptoIs(r, HeaderEnd(r.input));
    ok := true;
  }

  /** These blocks stand from p to q, the last of them so marked or none. */
  ghost predicate PartAt(bs: seq<Bit>, p: nat, blocks: seq<Block>, last: bool, q: nat)
  {
    && BlocksOk(blocks) && q == EndOf(p, blocks)
    && forall i: nat :: i < |blocks| ==> BlockIn(bs, p, blocks, i, Marked(blocks, i, last))
  }

  ghost predicate Marked(blocks: seq<Block>, i: nat, last: bool)
  {
    last && IsLast(blocks, i)
  }

  ghost predicate Unpacks(blocks: seq<Block>, out: seq<Byte>)
  {
    BlocksFit(blocks) && out == Unpacked(blocks)
  }

  lemma {:induction false} PartMore(bs: seq<Bit>, p: nat, blocks: seq<Block>, q: nat, b: Block, last: bool, q': nat)
    requires PartAt(bs, p, blocks, false, q) && At(bs, q, [if last then 1 else 0]) && At(bs, q + 1, Lsb(Kind(b), 2))
      && OwnAt(bs, q + 3, b, q')
    ensures PartAt(bs, p, blocks + [b], last, q')
  {
    hide At, Lsb, BlockBits, BlockOk, ByteUp;
    var all := blocks + [b];
    var n := |blocks|;
    assert all[..n] == blocks;
    forall i: nat | i < |all| ensures BlockOk(all[i]) {
      if i < n { assert all[i] == blocks[i]; }
    }
    hide BlockAt;
    OwnIsBlock(bs, q, last, b, q');
    forall i: nat | i < |all| ensures BlockIn(bs, p, all, i, Marked(all, i, last)) {
      if i < n {
        assert all[..i] == blocks[..i];
        assert BlockIn(bs, p, blocks, i, Marked(blocks, i, false));
      }
    }
  }

  lemma {:induction false} OwnIsBlock(bs: seq<Bit>, q: nat, last: bool, b: Block, q': nat)
    requires At(bs, q, [if last then 1 else 0]) && At(bs, q + 1, Lsb(Kind(b), 2)) && OwnAt(bs, q + 3, b, q')
    ensures BlockAt(bs, q, last, b) && BlockEnd(b, q) == q' && q + 3 <= q'
  {
    hide At, Lsb, BlockBits, BlockOk;
  }

  lemma {:induction false} UnpacksMore(blocks: seq<Block>, out: seq<Byte>, b: Block, out': seq<Byte>)
    requires Unpacks(blocks, out) && Made(out, b, out')
    ensures Unpacks(blocks + [b], out')
  {
    hide BlockFits, BlockPlayed;
    assert (blocks + [b])[..|blocks|] == blocks;
  }

  lemma {:induction false} FitNext(blocks: seq<Block>, n: nat)
    requires BlocksFit(blocks) && n < |blocks|
    ensures BlocksFit(blocks[..n]) && BlockFits(Unpacked(blocks[..n]), blocks[n])
    decreases |blocks|
  {
    hide BlockFits, Unpacked;
    var m := |blocks| - 1;
    if n < m {
      assert blocks[..m][..n] == blocks[..n];
      FitNext(blocks[..m], n);
    }
  }

  ghost predicate StreamExpected(bs: seq<Bit>, p: nat, blocks: seq<Block>)
  {
    StreamAt(bs, p, blocks) && BlocksFit(blocks)
  }

  ghost function BlockAfter(blocks: seq<Block>, n: nat): Block
  {
    if n < |blocks| then blocks[n] else Stored([])
  }

  lemma {:induction false} BlockAwaited(bs: seq<Bit>, p: nat, want: seq<Block>, blocks: seq<Block>, q: nat,
      h: seq<Byte>)
    requires StreamExpected(bs, p, want) && blocks <= want && blocks != want && PartAt(bs, p, blocks, false, q)
      && Unpacks(blocks, h)
    ensures var b := BlockAfter(want, |blocks|);
      && At(bs, q, [if blocks + [b] == want then 1 else 0]) && At(bs, q + 1, Lsb(Kind(b), 2))
         && Awaited(bs, q + 3, h, b)
      && blocks + [b] <= want
  {
    hide At, Lsb, BlockBits, BlockOk, Unpacked, BlockFits;
    var n := |blocks|;
    assert want[..n] == blocks;
    FitNext(want, n);
    assert BlockIn(bs, p, want, n, IsLast(want, n));
    assert want[..n + 1] == blocks + [want[n]];
    assert n + 1 == |want| ==> want[..n + 1] == want;
  }

  lemma {:induction false} KindRead(bs: seq<Bit>, q: nat, h: seq<Byte>, r: Reader, x: nat, y: nat, last: bool, b: Block)
    requires bs == r.Stream() && NextExpected(bs, q, last, b, h) && x < Pow2(1) && y < Pow2(2)
    requires r.bad <==> q + 1 > 8 * |r.input| || q + 3 > 8 * |r.input|
    requires !r.bad ==> At(bs, q, Lsb(x, 1)) && At(bs, q + 1, Lsb(y, 2))
    ensures !r.bad && (last <==> x == 1) && y == Kind(b) && Awaited(bs, q + 3, h, b)
  {
    hide At, Awaited;
    AtEnds(bs, q + 1, Lsb(Kind(b), 2));
    StreamSize(r);
    OneBit(x);
    AtSame(bs, q, [x], [if last then 1 else 0]);
    assert Pow2(1) == 2;
    SameNumber(bs, q + 1, y, Kind(b), 2);
  }

  /**
   * A gzip file unpacked. When ok, what the sink was given is what the blocks of the
   * input stand for; and whenever the input holds such blocks that is what happens,
   * unless the sink refused some of it.
   */
  method Unpack(input: seq<Byte>, sink: nat -> bool, ghost want: seq<Block>)
      returns (ok: bool, out: seq<Byte>, stopped: bool, ghost blocks: seq<Block>)
    ensures ok ==>
      HeaderEnd(input).Some? && StreamAt(BitsOf(input), 8 * HeaderEnd(input).value, blocks) && Unpacks(blocks, out)
    ensures (stopped <==> Refused(sink, Calls(|out|, WINDOW))) && (ok ==> !stopped)
    ensures HeaderEnd(input).Some? && StreamExpected(BitsOf(input), 8 * HeaderEnd(input).value, want) ==>
      (ok && blocks == want) || stopped
  {
    hide *;
    var r := new Reader(input);
    blocks, out, stopped := [], [], false;
    NoneRefused(sink);
    StartsWhole(r);
    ok := SkipHeader(r);
    if !ok {
      return;
    }
    WholeHere(r);
    ok, out, stopped, blocks := UnpackBlocks(r, sink, want);
  }

  lemma {:induction false} NoneRefused(sink: nat -> bool)
    ensures !Refused(sink, Calls(0, WINDOW))
  {
  }

  lemma {:induction false} StartsWhole(r: Reader)
    requires r.Valid() && r.Here() == 0 && !r.bad
    ensures r.pos == 0 && r.bitcnt == 0
  {
  }

  /** One block; which of the three kinds it is the stream has just said. */
  method OneBlock(r: Reader, w: Output, lencode: Huff, distcode: Huff, kind: nat, ghost want: Block)
      returns (ok: bool, ghost b: Block)
    requires r.Valid() && Ready(w) && lencode != distcode && |lencode.symbol| == SYMBOLS == |distcode.symbol|
    modifies r, w, w.win, lencode, distcode
    ensures r.Valid() && Ready(w) && (old(w.stopped) ==> w.stopped) && |lencode.symbol| == SYMBOLS == |distcode.symbol|
    ensures ok ==>
      && !old(r.bad) && !r.bad && Kind(b) == kind && OwnAt(r.Stream(), old(r.Here()), b, r.Here())
      && Made(old(w.history), b, w.history)
    ensures !old(r.bad) && Kind(want) == kind && Awaited(r.Stream(), old(r.Here()), old(w.history), want) ==>
      (ok && b == want) || w.stopped
  {
    hide *;
    KindIs(want);
    ghost var bs, p, h := r.Stream(), r.Here(), w.history;
    if kind == 0 {
      ok, b := StoredBlock(r, w, want);
    } else if kind == 1 {
      ok, b := FixedBlock(r, w, lencode, distcode, want);
    } else if kind == 2 {
      ok, b := DynamicBlock(r, w, lencode, distcode, want);
      if ok { DynamicIsDone(bs, p, h, w.history, b, r.Here()); }
    } else {
      ok, b := false, want;
    }
    KindIs(b);
  }

  lemma {:induction false} KindIs(b: Block)
    ensures Kind(b) == if b.Stored? then 0 else if b.Fixed? then 1 else 2
  {
  }

  lemma {:induction false} DynamicIsDone(bs: seq<Bit>, p: nat, h: seq<Byte>, h': seq<Byte>, b: Block, q: nat)
    requires DynamicDone(bs, p, h, h', b, q)
    ensures b.Dynamic? && OwnAt(bs, p, b, q) && Made(h, b, h')
  {
    hide OwnAt, Made;
  }

  /** Block b, marked last or not, stands from q to q' and makes h' of h. */
  ghost predicate BlockRead(bs: seq<Bit>, q: nat, last: bool, b: Block, q': nat, h: seq<Byte>, h': seq<Byte>)
  {
    At(bs, q, [if last then 1 else 0]) && At(bs, q + 1, Lsb(Kind(b), 2)) && OwnAt(bs, q + 3, b, q') && Made(h, b, h')
  }

  ghost predicate NextExpected(bs: seq<Bit>, q: nat, last: bool, b: Block, h: seq<Byte>)
  {
    At(bs, q, [if last then 1 else 0]) && At(bs, q + 1, Lsb(Kind(b), 2)) && Awaited(bs, q + 3, h, b)
  }

  /** Whether a block is the last, its kind, and the block itself. */
  method NextBlock(r: Reader, w: Output, lencode: Huff, distcode: Huff, ghost lastWant: bool, ghost want: Block)
      returns (ok: bool, last: bool, ghost b: Block)
    requires r.Valid() && Ready(w) && lencode != distcode && |lencode.symbol| == SYMBOLS == |distcode.symbol|
    modifies r, w, w.win, lencode, distcode
    ensures r.Valid() && Ready(w) && (old(w.stopped) ==> w.stopped) && |lencode.symbol| == SYMBOLS == |distcode.symbol|
    ensures ok ==>
      !old(r.bad) && !r.bad && BlockRead(r.Stream(), old(r.Here()), last, b, r.Here(), old(w.history), w.history)
    ensures !old(r.bad) && NextExpected(r.Stream(), old(r.Here()), lastWant, want, old(w.history)) ==>
      (ok && b == want && last == lastWant) || w.stopped
  {
    hide *;
    ghost var bs, q, h := r.Stream(), r.Here(), w.history;
    ghost var due := !r.bad && NextExpected(bs, q, lastWant, want, h);
    ShortPowers();
    var x := r.Take(1);
    var y := r.Take(2);
    if due { KindRead(bs, q, h, r, x, y, lastWant, want); }
    ok, b := OneBlock(r, w, lencode, distcode, y, want);
    last := x == 1;
    OneBit(x);
    if ok { BlockIsRead(bs, q, last, b, r.Here(), h, w.history); }
  }

  lemma {:induction false} BlockIsRead(bs: seq<Bit>, q: nat, last: bool, b: Block, q': nat, h: seq<Byte>, h': seq<Byte>)
    requires At(bs, q, [if last then 1 else 0]) && At(bs, q + 1, Lsb(Kind(b), 2)) && OwnAt(bs, q + 3, b, q')
      && Made(h, b, h')
    ensures BlockRead(bs, q, last, b, q', h, h')
  {
  }

  /** Blocks read so far: all of them, or as many as there were before the last. */
  ghost predicate SoFar(bs: seq<Bit>, p: nat, blocks: seq<Block>, last: bool, q: nat, h: seq<Byte>)
  {
    PartAt(bs, p, blocks, last, q) && Unpacks(blocks, h) && (last ==> blocks != [])
  }

  lemma {:induction false} SoFarMore(bs: seq<Bit>, p: nat, blocks: seq<Block>, q: nat, h: seq<Byte>, last: bool,
      b: Block, q': nat, h': seq<Byte>)
    requires SoFar(bs, p, blocks, false, q, h) && BlockRead(bs, q, last, b, q', h, h')
    ensures SoFar(bs, p, blocks + [b], last, q', h') && q + 3 <= q'
  {
    hide PartAt, Unpacks, OwnAt, Made, At, Lsb;
    OwnIsBlock(bs, q, last, b, q');
    PartMore(bs, p, blocks, q, b, last, q');
    UnpacksMore(blocks, h, b, h');
  }

  lemma {:induction false} SoFarAwaits(bs: seq<Bit>, p: nat, want: seq<Block>, blocks: seq<Block>, q: nat, h: seq<Byte>)
    requires StreamExpected(bs, p, want) && blocks <= want && blocks != want && SoFar(bs, p, blocks, false, q, h)
    ensures var b := BlockAfter(want, |blocks|); NextExpected(bs, q, blocks + [b] == want, b, h) && blocks + [b] <= want
  {
    hide PartAt, Unpacks, Awaited, At, Lsb, StreamExpected;
    BlockAwaited(bs, p, want, blocks, q, h);
  }

  method UnpackBlocks(r: Reader, sink: nat -> bool, ghost want: seq<Block>)
      returns (ok: bool, out: seq<Byte>, stopped: bool, ghost blocks: seq<Block>)
    requires r.Valid()
    modifies r
    ensures ok ==> !old(r.bad) && StreamAt(r.Stream(), old(r.Here()), blocks) && Unpacks(blocks, out)
    ensures (stopped <==> Refused(sink, Calls(|out|, WINDOW))) && (ok ==> !stopped)
    ensures !old(r.bad) && StreamExpected(r.Stream(), old(r.Here()), want) ==> (ok && blocks == want) || stopped
  {
    hide *;
    ghost var bs, p := r.Stream(), r.Here();
    ghost var due := !r.bad && StreamExpected(bs, p, want);
    WindowFits();
    var w := new Output(WINDOW, sink);
    CopyDone(w);
    var lencode := new Huff();
    var distcode := new Huff();
    var last;
    ok, last, blocks := true, false, [];
    NoBlocks(bs, p, want);
    while ok && !last
      invariant r.Valid() && Ready(w) && |lencode.symbol| == SYMBOLS == |distcode.symbol|
      invariant fresh(w) && fresh(w.win) && fresh(lencode) && fresh(distcode) && lencode != distcode
      invariant ok && !r.bad ==> !old(r.bad) && SoFar(bs, p, blocks, last, r.Here(), w.history)
      invariant due ==> w.stopped || (ok && !r.bad && blocks <= want && (last <==> blocks == want))
      decreases if !ok || last then 0 else 2 + (if r.bad then 0 else 1 + 8 * |r.input| - r.Here())
    {
      ghost var q, h := r.Here(), w.history;
      ghost var next := BlockAfter(want, |blocks|);
      if due && !w.stopped { SoFarAwaits(bs, p, want, blocks, q, h); }
      if !r.bad { HereFits(r); }
      ghost var b;
      ok, last, b := NextBlock(r, w, lencode, distcode, blocks + [next] == want, next);
      if ok {
        SoFarMore(bs, p, blocks, q, h, last, b, r.Here(), w.history);
        HereFits(r);
      }
      blocks := blocks + [b];
    }
    CopyReady(w);
    if ok && !r.bad { PartIsStream(bs, p, blocks, r.Here(), w.history); }
    ok := w.Close(ok, r.bad);
    out, stopped := w.handed, w.stopped;
  }

  lemma {:induction false} WindowFits()
    ensures 0 < WINDOW < U32 && TOP + 1 == 16
  {
  }

  lemma {:induction false} ShortPowers()
    ensures Pow2(1) == 2 && Pow2(2) == 4
  {
  }

  lemma {:induction false} NoBlocks(bs: seq<Bit>, p: nat, want: seq<Block>)
    ensures SoFar(bs, p, [], false, p, []) && (StreamExpected(bs, p, want) ==> want != [])
  {
  }

  lemma {:induction false} PartIsStream(bs: seq<Bit>, p: nat, blocks: seq<Block>, q: nat, h: seq<Byte>)
    requires SoFar(bs, p, blocks, true, q, h)
    ensures StreamAt(bs, p, blocks) && Unpacks(blocks, h)
  {
    hide BlockIn, BlockOk, EndOf;
    forall i: nat | i < |blocks| ensures BlockIn(bs, p, blocks, i, IsLast(blocks, i)) {
      assert BlockIn(bs, p, blocks, i, Marked(blocks, i, true));
    }
  }
}
