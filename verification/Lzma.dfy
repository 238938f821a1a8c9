/**
 * LZMA chunks (src/tuxpac/unpack.c): they unpack to what LzmaSpec says; every table access
 * is inside its own table, every probability and the range stay in bounds, and every byte
 * looked back at is one that was put out and is still in the window.
 */
module Lzma {
  import opened Base
  import opened Bits
  import opened Window
  import opened RangeCoder
  import opened LzmaSpec

  // ---- tables

  /** Entry i of a table of so many that starts at base. */
  function Cell(base: nat, size: nat, i: nat): (k: nat)
    requires i < size && base + size <= SIZE
    ensures base <= k < base + size
  {
    base + i
  }

  lemma {:induction false} LikelyNext(probs: seq<nat>, i: nat, b: nat)
    requires AllLikely(probs) && i < SIZE
    ensures AllLikely(probs[i := Learned(probs[i], b)])
  {
    LearnedLikely(probs[i], b);
  }

  class Decoder {
    const r: Reader
    const w: Output
    var probs: seq<nat>
    var coder: Coder
    var rep: seq<nat>
    var state: nat
    var lc: nat
    var lp: nat
    var pb: nat
    /** A stored chunk has reset the dictionary since the state last was. */
    ghost var stale: bool
    /** A bit of even chance has met the last code of an odd range, which takes it out of the range. */
    ghost var escaped: bool

    constructor (r: Reader, w: Output)
      requires r.pos <= |r.input| && w.Valid()
      ensures this.r == r && this.w == w && Ready() && Recent()
    {
      this.r, this.w := r, w;
      probs, coder, rep := seq(SIZE, _ => HALF), Coder(RangeCoder.TOP, 0), [0, 0, 0, 0];
      state, lc, lp, pb, stale, escaped := 0, 0, 0, 0, false, false;
    }

    /** How far the coded input has been read, and with what left. */
    ghost function Now(): Core
      reads this, r
    {
      Core(probs, coder, r.pos, r.bad, escaped)
    }

    ghost function Behind(): Past
      reads this
    {
      Past(state, rep, lc, lp, pb)
    }

    /** What there is between two symbols. */
    ghost function Here(): Sit
      reads this, r, w
    {
      Sit(Now(), Behind(), w.history, w.total)
    }

    /** Everything but the coder, which a chunk sets up anew. */
    ghost predicate Ready()
      reads this, r, w, w.win
    {
      && AllLikely(probs) && r.pos <= |r.input| && w.Valid() && |rep| == 4 && state < 12 && lc + lp <= 4 && pb <= 4
      && (forall i :: 0 <= i < 4 ==> rep[i] < U32)
    }

    /** The last match can still be looked back at. */
    ghost predicate Recent()
      reads this, w, w.win
    {
      state >= 7 && |rep| == 4 ==>
        rep[0] + 1 <= |w.history| && rep[0] + 1 <= w.win.Length && (!stale ==> rep[0] + 1 <= w.total)
    }

    /** The byte that guides the next literal is from before the last reset. */
    ghost predicate LooksBehind()
      reads this, w
    {
      state >= 7 && |rep| == 4 && rep[0] + 1 > w.total
    }

    /** One bit with the probability at i. */
    method Bit(i: nat) returns (b: nat)
      requires AllLikely(probs) && Wide(coder) && i < SIZE && r.pos <= |r.input|
      modifies this`probs, this`coder, r`pos, r`bad
      ensures AllLikely(probs) && Wide(coder) && old(r.pos) <= r.pos <= |r.input| && b < 2
      ensures Inside(old(coder)) ==> Inside(coder)
      ensures b == BitIn(old(Now()), i) && Now() == BitDone(r.input, old(Now()), i)
    {
      hide AllLikely, Wide, Inside, Bound, Learned, Narrowed, Widened;
      LikelyAt(probs, i);
      b := BitRead(coder, probs[i]);
      ghost var c, p := coder, probs[i];
      coder := Narrowed(coder, probs[i]);
      LikelyNext(probs, i, b);
      probs := probs[i := Learned(probs[i], b)];
      if coder.range < RangeCoder.TOP {
        var next := r.NextByte();
        BitKeeps(c, p, next);
        coder := Widened(coder, next);
      } else {
        BitKeeps(c, p, 0);
      }
    }

    /** n bits down a tree that starts at base: a number of n bits. */
    method Tree(base: nat, size: nat, n: nat) returns (v: nat)
      requires AllLikely(probs) && Wide(coder) && r.pos <= |r.input| && Pow2(n) <= size && base + size <= SIZE
      modifies this`probs, this`coder, r`pos, r`bad
      ensures AllLikely(probs) && Wide(coder) && old(r.pos) <= r.pos <= |r.input| && v < Pow2(n)
      ensures Inside(old(coder)) ==> Inside(coder)
      ensures LzmaSpec.Tree(r.input, old(Now()), base, n) == Got(Now(), v)
    {
      hide AllLikely, Wide, Inside, Learned, Pow2, BitIn, BitDone;
      var m: nat := 1;
      TreeStart();
      for i := 0 to n
        invariant AllLikely(probs) && Wide(coder) && old(r.pos) <= r.pos <= |r.input| && Pow2(i) <= m < 2 * Pow2(i)
        invariant Down(r.input, old(Now()), base, n, 1) == Down(r.input, Now(), base, n - i, m)
        invariant Inside(old(coder)) ==> Inside(coder)
      {
        TreeDown(i, n);
        var b := Bit(Cell(base, size, m));
        m := 2 * m + b;
      }
      v := m - Pow2(n);
    }

    /** The same with the bits in the other order. */
    method ReverseTree(base: nat, size: nat, n: nat) returns (v: nat)
      requires AllLikely(probs) && Wide(coder) && r.pos <= |r.input| && Pow2(n) <= size && base + size <= SIZE
      modifies this`probs, this`coder, r`pos, r`bad
      ensures AllLikely(probs) && Wide(coder) && old(r.pos) <= r.pos <= |r.input| && v < Pow2(n)
      ensures Inside(old(coder)) ==> Inside(coder)
      ensures LowTree(r.input, old(Now()), base, n) == Got(Now(), v)
    {
      hide AllLikely, Wide, Inside, Learned, Pow2, BitIn, BitDone;
      var m: nat := 1;
      v := 0;
      TreeStart();
      for i := 0 to n
        invariant AllLikely(probs) && Wide(coder) && old(r.pos) <= r.pos <= |r.input| && Pow2(i) <= m < 2 * Pow2(i)
          && v < Pow2(i)
        invariant LowTree(r.input, old(Now()), base, n) == DownLow(r.input, Now(), base, n - i, m, i, v)
        invariant Inside(old(coder)) ==> Inside(coder)
      {
        TreeDown(i, n);
        var b := Bit(Cell(base, size, m));
        m := 2 * m + b;
        v := v + if b == 1 then Pow2(i) else 0;
      }
    }

    /** n bits of even chance. */
    method Direct(n: nat) returns (v: nat)
      requires Wide(coder) && r.pos <= |r.input|
      modifies this`coder, this`escaped, r`pos, r`bad
      ensures Wide(coder) && old(r.pos) <= r.pos <= |r.input| && v < Pow2(n)
      ensures LzmaSpec.Direct(r.input, old(Now()), n, 0) == Got(Now(), v)
      ensures escaped <==> old(escaped) || MeetsOdd(r.input, old(Now()), n)
      ensures (old(escaped) ==> escaped) && (Inside(old(coder)) && !escaped ==> Inside(coder))
    {
      hide Wide, HalfTaken, Widened, Inside, HalfIn, HalfDone, Pow2, MeetsOdd;
      EscapedIs(r.input, Now(), n, 0);
      v := 0;
      TreeStart();
      for i := 0 to n
        invariant Wide(coder) && old(r.pos) <= r.pos <= |r.input| && v < Pow2(i)
        invariant LzmaSpec.Direct(r.input, old(Now()), n, 0) == LzmaSpec.Direct(r.input, Now(), n - i, v)
        invariant (old(escaped) ==> escaped) && (Inside(old(coder)) && !escaped ==> Inside(coder))
      {
        TreeDown(i, n);
        var b := Half();
        v := 2 * v + b;
      }
    }

    /** One bit of even chance. */
    method Half() returns (b: nat)
      requires Wide(coder) && r.pos <= |r.input|
      modifies this`coder, this`escaped, r`pos, r`bad
      ensures Wide(coder) && old(r.pos) <= r.pos <= |r.input| && b < 2
      ensures b == HalfIn(old(Now())) && Now() == HalfDone(r.input, old(Now()))
      ensures escaped <==> old(escaped) || OddLast(old(coder))
      ensures Inside(old(coder)) && !OddLast(old(coder)) ==> Inside(coder)
    {
      hide Wide, HalfTaken, Widened, Inside, OddLast;
      ghost var c := coder;
      b := if coder.code >= coder.range / 2 then 1 else 0;
      escaped := escaped || OddLast(coder);
      coder := HalfTaken(coder);
      if coder.range < RangeCoder.TOP {
        var next := r.NextByte();
        HalfKeeps(c, next);
        coder := Widened(coder, next);
      } else {
        HalfKeeps(c, 0);
      }
    }

    /** A length less two. */
    method Length(base: nat, ps: nat) returns (len: nat)
      requires AllLikely(probs) && Wide(coder) && r.pos <= |r.input| && ps < 16 && base + 514 <= SIZE
      modifies this`probs, this`coder, r`pos, r`bad
      ensures AllLikely(probs) && Wide(coder) && old(r.pos) <= r.pos <= |r.input| && len <= 271
      ensures Inside(old(coder)) ==> Inside(coder)
      ensures LzmaSpec.Length(r.input, old(Now()), base, ps) == Got(Now(), len)
    {
      hide AllLikely, Wide, Inside, Learned, Pow2, BitIn, BitDone, LzmaSpec.Tree;
      SmallPowers();
      var b := Bit(Cell(base, 514, 0));
      if b == 0 {
        len := Tree(base + 2 + 8 * ps, 8, 3);
        return;
      }
      b := Bit(Cell(base, 514, 1));
      if b == 0 {
        len := Tree(base + 130 + 8 * ps, 8, 3);
        len := len + 8;
        return;
      }
      len := Tree(base + 258, 256, 8);
      len := len + 16;
    }

    /** Where the probabilities of the next literal start: by where it is and by the byte before it. */
    method LiteralTable() returns (base: nat)
      requires w.Valid() && lc + lp <= 4
      ensures base == LiteralBase(Behind(), w.history, w.total) && LIT <= base && base + 768 <= SIZE
    {
      hide Shows, Context;
      var prev: nat := 0;
      if w.total > 0 {
        prev := w.Back(1);
      }
      LiteralFits(w.total, prev, lc, lp);
      base := LIT + 768 * Context(w.total, prev, lc, lp);
    }

    /** A byte by itself: after a match, guided for as long as it goes by the byte the match would have gone on with. */
    method Literal() returns (ghost from: nat)
      requires Ready() && Wide(coder) && Recent()
      modifies this`probs, this`coder, this`state, r`pos, r`bad, w, w.win
      ensures Ready() && Wide(coder) && Recent() && state < 7 && old(r.pos) <= r.pos
      ensures var got := LiteralIn(r.input, old(Now()), old(Behind()), old(w.history), old(w.total));
        && Now() == got.k && w.history == old(w.history) + [got.s.byte] && w.total == old(w.total) + 1
        && Behind() == PastAfter(old(Behind()), got.s)
      ensures (old(w.stopped) ==> w.stopped) && (Inside(old(coder)) ==> Inside(coder))
      ensures old(state) >= 7 ==> from + (rep[0] + 1) == |old(w.history)|
      ensures old(state) >= 7 && from < |old(w.history)| - old(w.total) <==> old(LooksBehind())
    {
      hide AllLikely, Wide, Inside, Learned, Shows, LiteralBase, LzmaSpec.Plain, LzmaSpec.Guided;
      from := |w.history|;
      var base := LiteralTable();
      var s: nat := 1;
      if state >= 7 {
        from := |w.history| - (rep[0] + 1);
        var like := w.Back(rep[0] + 1);
        s := Guided(base, like);
      }
      s := Plain(base, s);
      w.Put(s % 256);
      state := AfterLiteral(state);
    }

    /** Bits alike with those of another byte, and the first that differs. */
    method Guided(base: nat, like: Byte) returns (s: nat)
      requires AllLikely(probs) && Wide(coder) && r.pos <= |r.input| && base + 768 <= SIZE
      modifies this`probs, this`coder, r`pos, r`bad
      ensures AllLikely(probs) && Wide(coder) && old(r.pos) <= r.pos <= |r.input| && 1 <= s < 512
      ensures Inside(old(coder)) ==> Inside(coder)
      ensures LzmaSpec.Guided(r.input, old(Now()), base, like, 1) == LzmaSpec.Plain(r.input, Now(), base, s)
    {
      hide AllLikely, Wide, Inside, Learned, BitIn, BitDone;
      s := 1;
      var match_: nat := like;
      var on := true;
      while on && s < 256
        invariant AllLikely(probs) && Wide(coder) && old(r.pos) <= r.pos <= |r.input| && 1 <= s < 512
        invariant Inside(old(coder)) ==> Inside(coder)
        invariant LzmaSpec.Guided(r.input, old(Now()), base, like, 1) ==
          if on then LzmaSpec.Guided(r.input, Now(), base, match_, s) else LzmaSpec.Plain(r.input, Now(), base, s)
        decreases on, 512 - s
      {
        var m := match_ / 128 % 2;
        match_ := 2 * match_;
        var b := Bit(Cell(base, 768, (1 + m) * 256 + s));
        s := 2 * s + b;
        on := m == b;
      }
    }

    /** The other bits of a literal. */
    method Plain(base: nat, s0: nat) returns (s: nat)
      requires AllLikely(probs) && Wide(coder) && r.pos <= |r.input| && base + 768 <= SIZE && 1 <= s0 < 512
      modifies this`probs, this`coder, r`pos, r`bad
      ensures AllLikely(probs) && Wide(coder) && old(r.pos) <= r.pos <= |r.input| && 256 <= s < 512
      ensures Inside(old(coder)) ==> Inside(coder)
      ensures LzmaSpec.Plain(r.input, old(Now()), base, s0) == Got(Now(), s)
    {
      hide AllLikely, Wide, Inside, Learned, BitIn, BitDone;
      s := s0;
      while s < 256
        invariant AllLikely(probs) && Wide(coder) && old(r.pos) <= r.pos <= |r.input| && 1 <= s < 512
        invariant Inside(old(coder)) ==> Inside(coder)
        invariant LzmaSpec.Plain(r.input, old(Now()), base, s0) == LzmaSpec.Plain(r.input, Now(), base, s)
        decreases 512 - s
      {
        var b := Bit(Cell(base, 768, s));
        s := 2 * s + b;
      }
    }

    /** How far back a match of this length goes, less one. */
    method Distance(len: nat) returns (d: nat)
      requires AllLikely(probs) && Wide(coder) && r.pos <= |r.input|
      modifies this`probs, this`coder, this`escaped, r`pos, r`bad
      ensures AllLikely(probs) && Wide(coder) && old(r.pos) <= r.pos <= |r.input| && d < U32
      ensures LzmaSpec.Distance(r.input, old(Now()), len) == Got(Now(), d)
      ensures (old(escaped) ==> escaped) && (Inside(old(coder)) && !escaped ==> Inside(coder))
    {
      hide AllLikely, Wide, Inside, Learned, Pow2, LzmaSpec.Tree, LowTree, LzmaSpec.Direct;
      SmallPowers();
      var slot := Tree(SLOT + 64 * (if len < 3 then len else 3), 64, 6);
      if slot < 4 {
        return slot;
      }
      var nb := slot / 2 - 1;
      d := (2 + slot % 2) * Pow2(nb);
      SlotFits(slot);
      if slot < 14 {
        var low := ReverseTree(POS + (d - slot), 115 - (d - slot), nb);
        d := d + low;
      } else {
        var high := Direct(nb - 4);
        var low := ReverseTree(ALIGN, 16, 4);
        FarFits(slot, high, low);
        d := d + high * 16 + low;
      }
    }

    /** Which of the last four distances, and those before it moved down. */
    method Repeat(ps: nat) returns (short: bool, ghost k: nat)
      requires AllLikely(probs) && Wide(coder) && r.pos <= |r.input| && |rep| == 4 && state < 12 && ps < 16
        && forall i :: 0 <= i < 4 ==> rep[i] < U32
      modifies this`probs, this`coder, this`rep, r`pos, r`bad
      ensures AllLikely(probs) && Wide(coder) && old(r.pos) <= r.pos <= |r.input| && |rep| == 4
        && forall i :: 0 <= i < 4 ==> rep[i] < U32
      ensures k < 4 && rep == Recalled(old(rep), k) && (short ==> k == 0)
      ensures AgainIn(r.input, old(Now()), state, ps) ==
        if short then Read(Now(), Short) else AgainLen(r.input, Now(), k, ps)
      ensures Inside(old(coder)) ==> Inside(coder)
    {
      hide AllLikely, Wide, Inside, Learned, BitIn, BitDone, AgainLen;
      var b := Bit(Cell(G0, 12, state));
      if b == 0 {
        b := Bit(Cell(REP0_LONG, 192, 16 * state + ps));
        return b == 0, 0;
      }
      b := Bit(Cell(G1, 12, state));
      if b == 0 {
        rep, k := [rep[1], rep[0], rep[2], rep[3]], 1;
      } else {
        b := Bit(Cell(G2, 12, state));
        if b == 0 {
          rep, k := [rep[2], rep[0], rep[1], rep[3]], 2;
        } else {
          rep, k := [rep[3], rep[0], rep[1], rep[2]], 3;
        }
      }
      short := false;
    }

    /**
     * A stretch of earlier output again, of at most left bytes. Accepted, it is from
     * behind the window's reach in neither sense: the window has it, and it is no older than the last reset.
     */
    method Match(ps: nat, left: nat) returns (ok: bool, len: nat)
      requires Ready() && Wide(coder) && ps < 16 && left > 0
      modifies this`probs, this`coder, this`state, this`rep, this`escaped, r`pos, r`bad, w, w.win
      ensures (old(escaped) ==> escaped) && (Inside(old(coder)) && !escaped ==> Inside(coder))
      ensures Ready() && Wide(coder) && (old(w.stopped) ==> w.stopped) && old(r.pos) <= r.pos
      ensures ok ==> 1 <= len <= left && 7 <= state && rep[0] + 1 <= old(w.total) && rep[0] + 1 <= w.win.Length
      ensures ok ==> w.history == Copied(old(w.history), rep[0] + 1, len) && w.total == old(w.total) + len && Recent()
      ensures var got := MatchIn(r.input, old(Now()), old(state), ps);
        && SitOk(old(Here())) && len == Bytes(got.s)
        && Play(w.win.Length, old(Here()), got.k, got.s, left) == if ok then Some(Here()) else None
    {
      hide AllLikely, Wide, Inside, Learned, Shows, Copied, Echoes, MatchIn, PastAfter;
      ghost var z := Here();
      ghost var got := MatchIn(r.input, Now(), state, ps);
      len := Choose(ps);
      if len > left {
        return false, len;
      }
      ok := w.Copy((rep[0] + 1) % U32, len);
    }

    /** A match's distance, in front of the others, and its length. */
    method Choose(ps: nat) returns (len: nat)
      requires AllLikely(probs) && Wide(coder) && r.pos <= |r.input| && |rep| == 4 && state < 12 && ps < 16
        && forall i :: 0 <= i < 4 ==> rep[i] < U32
      modifies this`probs, this`coder, this`state, this`rep, this`escaped, r`pos, r`bad
      ensures AllLikely(probs) && Wide(coder) && old(r.pos) <= r.pos <= |r.input| && |rep| == 4
        && forall i :: 0 <= i < 4 ==> rep[i] < U32
      ensures 7 <= state < 12 && 1 <= len <= 273
      ensures var got := MatchIn(r.input, old(Now()), old(state), ps);
        Now() == got.k && len == Bytes(got.s) && !got.s.Literal? && Behind() == PastAfter(old(Behind()), got.s)
      ensures (old(escaped) ==> escaped) && (Inside(old(coder)) && !escaped ==> Inside(coder))
    {
      hide AllLikely, Wide, Inside, Learned, BitIn, BitDone, LzmaSpec.Length, LzmaSpec.Distance, AgainIn;
      var b := Bit(Cell(IS_REP, 12, state));
      if b == 0 {
        len := Length(LEN, ps);
        state := if state < 7 then 7 else 10;
        var d := Distance(len);
        rep := [d, rep[0], rep[1], rep[2]];
      } else {
        ghost var rep0 := rep;
        var short, k := Repeat(ps);
        if short {
          state := if state < 7 then 9 else 11;
          assert rep == rep0;
          return 1;
        }
        len := Length(REP_LEN, ps);
        state := if state < 7 then 8 else 11;
      }
      len := len + 2;
    }

    /** Probabilities even, and nothing remembered. */
    method Reset()
      requires Ready()
      modifies this`probs, this`rep, this`state, this`stale
      ensures Ready() && Recent() && state == 0 && !stale && probs == Even() && rep == [0, 0, 0, 0]
    {
      hide Shows;
      probs := Even();
      rep, state, stale := [0, 0, 0, 0], 0, false;
    }

    /** The coder's first five bytes, of which the first says nothing. */
    method Start()
      requires r.pos <= |r.input|
      modifies this`coder, r`pos, r`bad
      ensures Wide(coder) && r.pos <= |r.input| && (Inside(coder) <==> coder.code != U32 - 1) && old(r.pos) <= r.pos
      ensures r.bad <==> old(r.bad) || old(r.pos) + 5 > |r.input|
      ensures !r.bad ==> r.pos == old(r.pos) + 5 && coder == Started(r.input, old(r.pos) + 1)
    {
      var _ := r.NextByte();
      var a := r.NextByte();
      var b := r.NextByte();
      var c := r.NextByte();
      var d := r.NextByte();
      coder := Coder(U32 - 1, (((a as nat) * 256 + (b as nat)) * 256 + (c as nat)) * 256 + (d as nat));
    }

    /** The next symbol, of at most left bytes, read and played. */
    method OneSymbol(left: nat) returns (ok: bool, len: nat)
      requires Ready() && Wide(coder) && Recent() && left > 0
      modifies this`probs, this`coder, this`state, this`rep, this`escaped, r`pos, r`bad, w, w.win
      ensures Ready() && Wide(coder) && (old(w.stopped) ==> w.stopped) && old(r.pos) <= r.pos
      ensures (old(escaped) ==> escaped) && (Inside(old(coder)) && !escaped ==> Inside(coder))
      ensures ok ==>
        Recent() && 1 <= len <= left && |w.history| == |old(w.history)| + len && w.total == old(w.total) + len
      ensures SitOk(old(Here())) && Step(r.input, w.win.Length, old(Here()), left) == if ok then Some(Here()) else None
    {
      hide AllLikely, Wide, Inside, Learned, Shows, Copied, Echoes, Pow2, BitIn, BitDone, LiteralIn, MatchIn, PastAfter;
      PlaceFits(pb);
      var ps := w.total % Pow2(pb);
      var b := Bit(Cell(IS_MATCH, 192, 16 * state + ps));
      if b == 0 {
        var _ := Literal();
        return true, 1;
      }
      ok, len := Match(ps, left);
    }

    /**
     * A chunk that unpacks to size bytes: what its symbols stand for, unless the sink refuses. The code
     * leaves the range only where a bit of even chance meets the last code of an odd one.
     */
    method Chunk(size: nat) returns (ok: bool)
      requires Ready() && Wide(coder) && Recent()
      modifies this`probs, this`coder, this`state, this`rep, this`escaped, r`pos, r`bad, w, w.win
      ensures (old(escaped) ==> escaped) && (Inside(old(coder)) && !escaped ==> Inside(coder))
      ensures Ready() && (ok ==> Recent() && |w.history| == |old(w.history)| + size && w.total == old(w.total) + size)
      ensures (old(w.stopped) ==> w.stopped) && old(r.pos) <= r.pos
      ensures SitOk(old(Here()))
      ensures ok ==> LzmaSpec.Chunk(r.input, w.win.Length, old(Here()), size) == Some(Here())
      ensures !ok ==> w.stopped || LzmaSpec.Chunk(r.input, w.win.Length, old(Here()), size) == None
    {
      hide AllLikely, Wide, Inside, Learned, Shows, Copied, Echoes, Pow2, Step;
      var left: nat := size;
      while left > 0
        invariant Ready() && Wide(coder) && Recent() && left <= size && (old(w.stopped) ==> w.stopped)
          && old(r.pos) <= r.pos
        invariant |w.history| == |old(w.history)| + (size - left) && w.total == old(w.total) + (size - left)
        invariant (old(escaped) ==> escaped) && (Inside(old(coder)) && !escaped ==> Inside(coder))
        invariant SitOk(old(Here())) && SitOk(Here())
        invariant LzmaSpec.Chunk(r.input, w.win.Length, old(Here()), size) ==
          LzmaSpec.Chunk(r.input, w.win.Length, Here(), left)
        decreases left
      {
        if r.bad || w.stopped {
          return false;
        }
        var took, len := OneSymbol(left);
        if !took {
          return false;
        }
        left := left - len;
      }
      ok := true;
    }

    /** Two bytes, high one first, and one. */
    method Count() returns (n: nat)
      requires r.pos <= |r.input|
      modifies r`pos, r`bad
      ensures old(r.pos) <= r.pos <= |r.input| && 1 <= n <= 65536 && (old(r.bad) ==> r.bad)
      ensures !r.bad ==> r.pos == old(r.pos) + 2 && n == CountAt(r.input, old(r.pos))
      ensures !old(r.bad) && old(r.pos) + 2 <= |r.input| ==> !r.bad
    {
      var a := r.NextByte();
      var b := r.NextByte();
      n := (a as nat) * 256 + (b as nat) + 1;
    }

    /** Bytes as they are. A reset here forgets the dictionary but not the state. */
    method StoredChunk(forget: bool)
      requires Ready() && Recent()
      modifies this`stale, r`pos, r`bad, w, w.win
      ensures Ready() && Recent() && old(r.pos) <= r.pos && (old(r.bad) ==> r.bad)
      ensures !old(r.bad) && old(r.pos) + 2 <= |r.input| &&
              old(r.pos) + 2 + CountAt(r.input, old(r.pos)) <= |r.input| ==>
        !r.bad
      ensures !r.bad ==>
        var n, from := CountAt(r.input, old(r.pos)), old(r.pos) + 2;
        && r.pos == from + n <= |r.input| && w.history == old(w.history) + r.input[from..r.pos]
        && w.total == (if forget then 0 else old(w.total)) + n
      ensures SitOk(old(Here())) && (!r.bad ==> StoredIn(r.input, old(Here()), forget) == Some(Here()))
      ensures !old(r.bad) && r.bad ==> StoredIn(r.input, old(Here()), forget) == None
      ensures old(w.stopped) ==> w.stopped
    {
      hide AllLikely, Output.Valid, StoredIn;
      SitIs(this);
      StoredIs(r.input, Here(), forget);
      ghost var h, t := w.history, if forget then 0 else w.total;
      var n := Count();
      ghost var all, from := n, r.pos;
      if forget {
        w.Reset();
        stale := true;
      }
      assert h == h + r.input[from..from];
      while n > 0 && !r.bad
        invariant Ready() && Recent() && old(r.pos) <= r.pos && n <= all && (old(r.bad) ==> r.bad)
        invariant old(w.stopped) ==> w.stopped
        invariant !r.bad ==>
          r.pos == from + (all - n) && w.history == h + r.input[from..r.pos] && w.total == t + (all - n)
        invariant !r.bad ==> from == old(r.pos) + 2 && all == CountAt(r.input, old(r.pos))
        invariant r.bad ==>
          old(r.bad) || old(r.pos) + 2 > |r.input| || old(r.pos) + 2 + CountAt(r.input, old(r.pos)) > |r.input|
        decreases n
      {
        ghost var at := r.pos;
        var x := r.NextByte();
        w.Put(x);
        if !r.bad { BytesMore(h, r.input, from, at); }
        n := n - 1;
      }
    }

    /**
     * A stored chunk that resets the dictionary and is shorter than the last match reaches
     * back: the literal after it is guided by a byte from before the reset.
     */
    method ShortReset()
      requires Ready() && Recent() && state >= 7 && !r.bad
      requires r.pos + 2 <= |r.input| && r.pos + 2 + CountAt(r.input, r.pos) <= |r.input|
        && CountAt(r.input, r.pos) < rep[0] + 1
      modifies this`stale, r`pos, r`bad, w, w.win
      ensures Ready() && Recent() && LooksBehind()
    {
      hide AllLikely, Shows;
      StoredChunk(true);
    }

    /** lc, lp and pb from one byte; false if they ask for more than there is room for. */
    method Properties() returns (ok: bool)
      requires r.pos <= |r.input| && lc + lp <= 4 && pb <= 4
      modifies this`lc, this`lp, this`pb, r`pos, r`bad
      ensures old(r.pos) <= r.pos <= |r.input| && (ok ==> lc + lp <= 4 && pb <= 4)
      ensures r.bad <==> old(r.bad) || old(r.pos) == |r.input|
      ensures !r.bad ==>
        r.pos == old(r.pos) + 1 && Parameters(old(Behind()), r.input[old(r.pos)]) == if ok then Some(Behind()) else None
    {
      var b := r.NextByte();
      if b > 224 {
        return false;
      }
      lc, lp, pb := b % 9, b / 9 % 5, b / 45;
      ok := lc + lp <= 4;
    }

    /** What a coded chunk makes new: the parameters, and all that is remembered. */
    method Anew(reset: nat, props: bool) returns (ok: bool, props': bool)
      requires Ready() && reset < 4 && (reset == 0 ==> Recent())
      modifies this`lc, this`lp, this`pb, this`probs, this`rep, this`state, this`stale, r`pos, r`bad
      ensures old(r.pos) <= r.pos <= |r.input| && (ok ==> Ready() && Recent() && props')
      ensures r.bad <==> old(r.bad) || (reset >= 2 && old(r.pos) == |r.input|)
      ensures !r.bad ==>
        && r.pos == old(r.pos) + (if reset >= 2 then 1 else 0)
        && probs == (if ok && reset >= 1 then Even() else old(probs))
        && AnewOf(old(Behind()), reset, props, if reset >= 2 then r.input[old(r.pos)] else 0) ==
           if ok then Some(Behind()) else None
    {
      hide AllLikely, Output.Valid, Parameters, Even;
      props', ok := props, true;
      if reset >= 2 {
        ok := Properties();
        props' := true;
      }
      if !ok || !props' {
        return false, props';
      }
      if reset >= 1 {
        Reset();
      }
    }

    /** With what a coded chunk begins: its sizes, what it makes new, and the coder. */
    method Begin(control: nat, props: bool) returns (ok: bool, props': bool, size: nat, packed: nat, at: nat)
      requires Ready() && Recent() && 0x80 <= control < 256 && !r.bad
      modifies this, r`pos, r`bad, w`total
      ensures old(r.pos) <= r.pos <= |r.input| && w.Valid() && w.stopped == old(w.stopped) && size > 0
      ensures ok ==> Ready() && Recent() && Wide(coder) && props'
      ensures SitOk(old(Here())) && (ok && !r.bad ==> Begun(r.input, old(Here()), control, props) == Some(Here()))
      ensures !ok || r.bad ==> Begun(r.input, old(Here()), control, props) == None
      ensures !r.bad ==>
        size == control % 32 * 65536 + CountAt(r.input, old(r.pos)) && packed == CountAt(r.input, old(r.pos) + 2)
      ensures ok && !r.bad ==> r.pos == at + 5
    {
      hide AllLikely, Output.Valid, Wide, Inside, Even, Started, Begun, AnewOf;
      ghost var z := Here();
      SitIs(this);
      BegunIs(r.input, z, control, props);
      var low := Count();
      size := control % 32 * 65536 + low;
      packed := Count();
      var reset := control / 32 % 4;
      at := 0;
      if reset == 3 {
        w.Reset();
      }
      ok, props' := Anew(reset, props);
      if ok {
        at := r.pos;
        Start();
      }
    }

    /** An LZMA chunk with its header. */
    method CodedChunk(control: nat, props: bool) returns (ok: bool, props': bool)
      requires Ready() && Recent() && 0x80 <= control < 256 && !r.bad
      modifies this, r`pos, r`bad, w, w.win
      ensures old(r.pos) <= r.pos && r.pos <= |r.input| && w.Valid() && (ok ==> Ready() && Recent() && props')
      ensures old(w.stopped) ==> w.stopped
      ensures SitOk(old(Here()))
      ensures ok ==> CodedIn(r.input, w.win.Length, old(Here()), control, props) == Some(Here())
      ensures !ok ==> w.stopped || CodedIn(r.input, w.win.Length, old(Here()), control, props) == None
    {
      hide AllLikely, Shows, Wide, Inside, Begun, LzmaSpec.Chunk;
      var size, packed, at;
      ok, props', size, packed, at := Begin(control, props);
      if !ok {
        return;
      }
      if r.bad { NoneBad(r.input, w.win.Length, Here(), size); }
      ok := Chunk(size);
      if ok {
        SkipTo(at + packed);
      }
    }

    /** What the chunk has left of its bytes passed over. */
    method SkipTo(at: nat)
      requires r.pos <= |r.input|
      modifies r`pos, r`bad
      ensures old(r.pos) <= r.pos <= |r.input| && Now() == Skipped(r.input, old(Now()), at)
    {
      while r.pos < at && !r.bad
        invariant old(r.pos) <= r.pos <= |r.input|
        invariant Skipped(r.input, old(Now()), at) == Skipped(r.input, Now(), at)
        decreases at - r.pos, !r.bad
      {
        var _ := r.NextByte();
      }
    }

    /** Chunks up to the one that says they end: they unpack to what they stand for, unless the sink refuses. */
    method Chunks() returns (ok: bool)
      requires Ready() && Recent()
      modifies this, r`pos, r`bad, w, w.win
      ensures w.Valid() && (ok ==> Ready() && Recent() && !r.bad && !w.stopped)
      ensures SitOk(old(Here()))
      ensures ok ==> LzmaSpec.Chunks(r.input, w.win.Length, old(Here()), false) == Some(Here())
      ensures !ok ==> w.stopped || LzmaSpec.Chunks(r.input, w.win.Length, old(Here()), false) == None
    {
      hide AllLikely, Shows, StoredIn, CodedIn;
      var props := false;
      while true
        invariant Ready() && Recent() && SitOk(old(Here())) && SitOk(Here())
        invariant LzmaSpec.Chunks(r.input, w.win.Length, old(Here()), false) ==
          LzmaSpec.Chunks(r.input, w.win.Length, Here(), props)
        decreases |r.input| - r.pos
      {
        var c := r.NextByte();
        if r.bad || w.stopped {
          return false;
        }
        if c == 0 {
          return true;
        }
        if c == 1 || c == 2 {
          StoredChunk(c == 1);
        } else {
          if c < 0x80 {
            return false;
          }
          ok, props := CodedChunk(c, props);
          if !ok {
            return false;
          }
        }
      }
    }
  }

  lemma {:induction false} StoredIs(input: seq<Byte>, z: Sit, forget: bool)
    requires SitOk(z)
    ensures var (n, from) := (CountAt(input, z.k.pos), z.k.pos + 2);
      StoredIn(input, z, forget) ==
        if z.k.bad || from + n > |input| then None
        else Some(z.(k := z.k.(pos := from + n), history := z.history + input[from..from + n],
                     total := (if forget then 0 else z.total) + n))
  {
  }

  lemma {:induction false} SitIs(d: Decoder)
    requires d.Ready()
    ensures SitOk(d.Here())
  {
  }

  /** What is remembered after a chunk has said how much is made new. */
  ghost function AnewOf(p: Past, reset: nat, props: bool, b: nat): (r: Option<Past>)
  {
    var q := if reset >= 2 then Parameters(p, b) else if props then Some(p) else None;
    if q.None? then None
    else Some(if reset >= 1 then q.value.(state := 0, rep := [0, 0, 0, 0]) else q.value)
  }

  lemma {:induction false} BegunIs(input: seq<Byte>, z: Sit, control: nat, props: bool)
    requires SitOk(z) && !z.k.bad
    ensures var reset := control / 32 % 4;
      var at := z.k.pos + 4 + if reset >= 2 then 1 else 0;
      && (at + 5 > |input| ==> Begun(input, z, control, props) == None)
      && (at + 5 <= |input| ==>
          var p := AnewOf(z.past, reset, props, if reset >= 2 then input[at - 1] else 0);
          Begun(input, z, control, props) ==
            if p.None? then None
            else Some(Sit(Core(if reset >= 1 then Even() else z.k.probs, Started(input, at + 1), at + 5, false,
                               z.k.escaped), p.value, z.history, if reset == 3 then 0 else z.total)))
  {
    hide Parameters, Even, Started;
  }

  /** Past the end of the input there is no chunk. */
  lemma {:induction false} NoneBad(input: seq<Byte>, size: nat, z: Sit, left: nat)
    requires SitOk(z) && left > 0 && z.k.bad
    ensures LzmaSpec.Chunk(input, size, z, left) == None
  {
  }

  lemma {:induction false} BytesMore(h: seq<Byte>, input: seq<Byte>, from: nat, at: nat)
    requires from <= at < |input|
    ensures h + input[from..at] + [input[at]] == h + input[from..at + 1]
  {
  }

  lemma {:induction false} PlaceFits(pb: nat)
    requires pb <= 4
    ensures 0 < Pow2(pb) <= 16
  {
    assert Pow2(0) == 1 && Pow2(1) == 2 && Pow2(2) == 4 && Pow2(3) == 8;
  }

  lemma {:induction false} LiteralFits(total: nat, prev: nat, lc: nat, lp: nat)
    requires prev < 256 && lc + lp <= 4
    ensures Context(total, prev, lc, lp) < 16
  {
    assert Pow2(0) == 1 && Pow2(1) == 2 && Pow2(2) == 4 && Pow2(3) == 8 && Pow2(4) == 16;
    assert Pow2(5) == 32 && Pow2(6) == 64 && Pow2(7) == 128 && Pow2(8) == 256;
  }

  lemma {:induction false} SlotFits(slot: nat)
    requires 4 <= slot < 64
    ensures var nb := slot / 2 - 1; var d := (2 + slot % 2) * Pow2(nb);
      && (slot < 14 ==> slot <= d && d - slot <= 83 && Pow2(nb) <= 115 - (d - slot)) && d + Pow2(nb) <= U32
      && (slot >= 14 ==> nb >= 6)
  {
    hide Pow2;
    if slot < 14 { NearFits(slot); }
    PowGrows(slot / 2 - 1, 30);
    PowThirty();
  }

  lemma {:induction false} NearFits(slot: nat)
    requires 4 <= slot < 14
    ensures var nb := slot / 2 - 1; var d := (2 + slot % 2) * Pow2(nb);
      slot <= d && d - slot <= 83 && Pow2(nb) <= 115 - (d - slot)
  {
    assert Pow2(1) == 2 && Pow2(2) == 4 && Pow2(3) == 8 && Pow2(4) == 16 && Pow2(5) == 32;
  }

  lemma {:induction false} PowThirty()
    ensures Pow2(30) == 0x4000_0000
  {
    assert Pow2(10) == 1024;
    PowAdd(10, 10);
    PowAdd(20, 10);
  }

  lemma {:induction false} FarFits(slot: nat, high: nat, low: nat)
    requires 14 <= slot < 64 && high < Pow2(slot / 2 - 5) && low < 16
    ensures high * 16 + low < Pow2(slot / 2 - 1)
  {
    PowAdd(slot / 2 - 5, 4);
    assert Pow2(4) == 16;
  }

  lemma {:induction false} LikelyAt(probs: seq<nat>, i: nat)
    requires AllLikely(probs) && i < SIZE
    ensures i < |probs| && Likely(probs[i])
  {
  }

  lemma {:induction false} TreeStart()
    ensures Pow2(0) == 1
  {
  }

  lemma {:induction false} TreeDown(i: nat, n: nat)
    requires i < n
    ensures Pow2(i + 1) == 2 * Pow2(i) && 2 * Pow2(i) <= Pow2(n)
  {
    PowGrows(i + 1, n);
  }

  lemma {:induction false} SmallPowers()
    ensures Pow2(3) == 8 && Pow2(4) == 16 && Pow2(6) == 64 && Pow2(8) == 256
  {
    assert Pow2(2) == 4;
    assert Pow2(5) == 32;
  }
}
