/**
 * Unpacking gzip (src/tuxpac/unpack.c): the output is exactly what RFC 1951 says the
 * blocks in the input stand for, and an input that holds such blocks is always unpacked.
 */
module Inflate {
  import opened Base
  import opened Bits
  import opened Huffman
  import opened Window
  import opened Deflate

  // ---- numbers in the stream

  lemma {:induction false} SameNumber(bs: seq<Bit>, p: nat, u: nat, v: nat, n: nat)
    requires At(bs, p, Lsb(u, n)) && At(bs, p, Lsb(v, n)) && u < Pow2(n) && v < Pow2(n)
    ensures u == v
  {
    AtSame(bs, p, Lsb(u, n), Lsb(v, n));
    LsbOnce(u, v, n);
  }

  lemma {:induction false} AtEnds(bs: seq<Bit>, p: nat, e: seq<Bit>)
    requires At(bs, p, e)
    ensures p + |e| <= |bs|
  {
  }

  lemma {:induction false} StreamSize(r: Reader)
    ensures |r.Stream()| == 8 * |r.input|
  {
  }

  lemma {:induction false} DistFits(d: nat, extra: nat)
    requires d < 30 && extra < Pow2(DistExtra(d))
    ensures DistBase(d) + extra <= WINDOW
  {
    assert Pow2(0) == 1 && Pow2(1) == 2 && Pow2(2) == 4 && Pow2(3) == 8 && Pow2(4) == 16;
    assert Pow2(5) == 32 && Pow2(6) == 64 && Pow2(7) == 128 && Pow2(8) == 256 && Pow2(9) == 512;
    assert Pow2(10) == 1024 && Pow2(11) == 2048 && Pow2(12) == 4096 && Pow2(13) == 8192;
  }

  // ---- one match

  /** The rest of match t stands at p and ends at q. */
  ghost predicate RestAt(D: seq<nat>, bs: seq<Bit>, p: nat, t: Token, q: nat)
  {
    RestOk(D, t) && At(bs, p, RestBits(D, t)) && q == p + |RestBits(D, t)|
  }

  lemma {:induction false} RestRead(D: seq<nat>, bs: seq<Bit>, p: nat, t: Token, q: nat)
    requires RestOk(D, t)
    requires var a := p + LengthExtra(t.length); var b := a + D[t.dist];
             && At(bs, p, Lsb(t.lengthExtra, LengthExtra(t.length))) && At(bs, a, Word(D, t.dist))
             && At(bs, b, Lsb(t.distExtra, DistExtra(t.dist))) && q == b + DistExtra(t.dist)
    ensures RestAt(D, bs, p, t, q)
  {
    hide At, Lsb, Word, Pow2, LengthExtra, DistExtra;
    var x, y, z := Lsb(t.lengthExtra, LengthExtra(t.length)), Word(D, t.dist), Lsb(t.distExtra, DistExtra(t.dist));
    AtBoth(bs, p, x, y);
    AtBoth(bs, p, x + y, z);
  }

  lemma {:induction false} RestWanted(D: seq<nat>, bs: seq<Bit>, p: nat, t: Token)
    requires RestOk(D, t) && At(bs, p, RestBits(D, t))
    ensures var a := p + LengthExtra(t.length); var b := a + D[t.dist];
            && At(bs, p, Lsb(t.lengthExtra, LengthExtra(t.length))) && At(bs, a, Word(D, t.dist))
            && At(bs, b, Lsb(t.distExtra, DistExtra(t.dist)))
            && a <= |bs| && b <= |bs| && b + DistExtra(t.dist) <= |bs|
  {
    hide At, Lsb, Word, Pow2, LengthExtra, DistExtra;
    var x, y, z := Lsb(t.lengthExtra, LengthExtra(t.length)), Word(D, t.dist), Lsb(t.distExtra, DistExtra(t.dist));
    AtBoth(bs, p, x, y);
    AtBoth(bs, p, x + y, z);
    AtEnds(bs, p, x);
    AtEnds(bs, p + |x|, y);
    AtEnds(bs, p + |x + y|, z);
  }

  ghost predicate RestExpected(D: seq<nat>, bs: seq<Bit>, p: nat, h: seq<Byte>, sym: nat, t: Token)
  {
    RestOk(D, t) && t.length == sym && At(bs, p, RestBits(D, t)) && TokenFits(h, t)
  }

  ghost predicate RestDone(D: seq<nat>, bs: seq<Bit>, p: nat, q: nat, h: seq<Byte>, h': seq<Byte>, sym: nat, t: Token)
  {
    RestAt(D, bs, p, t, q) && t.length == sym && TokenFits(h, t) && h' == Played(h, t)
  }

  ghost predicate Ready(w: Output)
    reads w, w.win
  {
    w.Valid() && w.total == |w.history| && w.win.Length == WINDOW
  }

  /** What follows length symbol sym: its extra bits, the distance, and the copy. */
  method Rest(r: Reader, w: Output, distcode: Huff, sym: nat, ghost D: seq<nat>, ghost want: Token)
      returns (ok: bool, ghost t: Token)
    requires r.Valid() && Ready(w) && distcode.Decodes(D) && sym < 29
    modifies r, w, w.win
    ensures r.Valid() && Ready(w) && (old(r.bad) ==> r.bad) && (old(w.stopped) ==> w.stopped)
    ensures ok && !r.bad ==> RestDone(D, r.Stream(), old(r.Here()), r.Here(), old(w.history), w.history, sym, t)
    ensures !old(r.bad) && RestExpected(D, r.Stream(), old(r.Here()), old(w.history), sym, want) ==>
      ok && !r.bad && t == want
  {
    hide *;
    ghost var bs, p, h := r.Stream(), r.Here(), w.history;
    ghost var due := !r.bad && RestExpected(D, bs, p, h, sym, want);
    ExtraBits(sym);
    t := Literal(0);
    var extra := r.Take(LengthExtra(sym));
    ghost var a := r.Here();
    if due { RestFirst(D, bs, p, h, sym, want, r, extra); }
    var len := LengthBase(sym) + extra;
    assert due ==> At(r.Stream(), a, Word(D, want.dist));
    var d := distcode.Decode(r, D);
    ghost var b := r.Here();
    if d < 0 || d >= 30 {
      return false, t;
    }
    DistBits(d);
    var distExtra := r.Take(DistExtra(d));
    if due { RestLast(D, bs, p, h, sym, want, r, b, d, distExtra); }
    t := Match(sym, extra, d, distExtra);
    DistFits(d, distExtra);
    CopyReady(w);
    ok := w.Copy(DistBase(d) + distExtra, len);
    CopyDone(w);
    if ok && !r.bad {
      RestOkIs(D, t);
      RestRead(D, bs, p, t, r.Here());
      RestIsDone(D, bs, p, r.Here(), h, w.history, sym, t);
    }
  }

  lemma {:induction false} ExtraBits(sym: nat)
    requires sym < 29
    ensures LengthExtra(sym) <= 24
  {
  }

  lemma {:induction false} DistBits(d: nat)
    requires d < 30
    ensures DistExtra(d) <= 24
  {
  }

  lemma {:induction false} CopyReady(w: Output)
    requires Ready(w)
    ensures w.Valid() && w.total == |w.history| && w.win.Length == WINDOW
  {
  }

  lemma {:induction false} CopyDone(w: Output)
    requires w.Valid() && w.total == |w.history| && w.win.Length == WINDOW
    ensures Ready(w)
  {
  }

  lemma {:induction false} RestOkIs(D: seq<nat>, t: Token)
    requires t.Match? && t.length < 29 && t.dist < 30 && Coded(D, t.dist)
    requires t.lengthExtra < Pow2(LengthExtra(t.length)) && t.distExtra < Pow2(DistExtra(t.dist))
    ensures RestOk(D, t)
  {
  }

  lemma {:induction false} RestIsDone(D: seq<nat>, bs: seq<Bit>, p: nat, q: nat, h: seq<Byte>, h': seq<Byte>, sym: nat,
      t: Token)
    requires RestAt(D, bs, p, t, q) && t.Match? && t.length == sym < 29 && t.dist < 30
    requires DistBase(t.dist) + t.distExtra <= |h|
      && h' == Copied(h, DistBase(t.dist) + t.distExtra, LengthBase(t.length) + t.lengthExtra)
    ensures RestDone(D, bs, p, q, h, h', sym, t)
  {
    hide RestAt, Copied, Echoes, LengthBase, DistBase;
  }

  /** The extra bits of the length are the ones awaited. */
  lemma {:induction false} RestFirst(D: seq<nat>, bs: seq<Bit>, p: nat, h: seq<Byte>, sym: nat, t: Token, r: Reader,
      extra: nat)
    requires RestExpected(D, bs, p, h, sym, t) && bs == r.Stream() && sym < 29
    requires extra < Pow2(LengthExtra(sym)) && (r.bad <==> p + LengthExtra(sym) > 8 * |r.input|)
    requires !r.bad ==> r.Here() == p + LengthExtra(sym) && At(bs, p, Lsb(extra, LengthExtra(sym)))
    ensures !r.bad && t.Match? && extra == t.lengthExtra && t.dist < 30 && t.dist < |D| && Coded(D, t.dist)
      && At(bs, r.Here(), Word(D, t.dist))
  {
    hide At, Lsb, Word, Pow2, LengthExtra, DistExtra, RestBits;
    RestWanted(D, bs, p, t);
    StreamSize(r);
    SameNumber(bs, p, extra, t.lengthExtra, LengthExtra(sym));
  }

  lemma {:induction false} RestLast(D: seq<nat>, bs: seq<Bit>, p: nat, h: seq<Byte>, sym: nat, t: Token, r: Reader,
      b: nat, d: nat, extra: nat)
    requires RestExpected(D, bs, p, h, sym, t) && bs == r.Stream() && sym < 29 && d < 30 && d == t.dist < |D|
    requires b == p + LengthExtra(sym) + D[d]
    requires extra < Pow2(DistExtra(d)) && (r.bad <==> b + DistExtra(d) > 8 * |r.input|)
    requires !r.bad ==> At(bs, b, Lsb(extra, DistExtra(d)))
    ensures !r.bad && extra == t.distExtra && t.Match? && t.length == sym && DistBase(d) + extra <= |h|
  {
    hide At, Lsb, Word, Pow2, LengthExtra, DistExtra, RestBits;
    RestWanted(D, bs, p, t);
    StreamSize(r);
    SameNumber(bs, b, extra, t.distExtra, DistExtra(d));
  }

  // ---- the tokens of a block

  /** Tokens ts stand at p, as far as q. */
  ghost predicate TokensAt(L: seq<nat>, D: seq<nat>, bs: seq<Bit>, p: nat, ts: seq<Token>, q: nat)
  {
    TokensOk(L, D, ts) && At(bs, p, TokensBits(L, D, ts)) && q == p + |TokensBits(L, D, ts)|
  }

  /** And they make h' of h. */
  ghost predicate Plays(h: seq<Byte>, ts: seq<Token>, h': seq<Byte>)
  {
    TokensFit(h, ts) && h' == AllPlayed(h, ts)
  }

  ghost predicate BodyAt(L: seq<nat>, D: seq<nat>, bs: seq<Bit>, p: nat, ts: seq<Token>, q: nat)
  {
    BodyOk(L, D, ts) && At(bs, p, BodyBits(L, D, ts)) && q == p + |BodyBits(L, D, ts)|
  }

  ghost predicate BodyExpected(L: seq<nat>, D: seq<nat>, bs: seq<Bit>, p: nat, h: seq<Byte>, ts: seq<Token>)
  {
    BodyOk(L, D, ts) && At(bs, p, BodyBits(L, D, ts)) && TokensFit(h, ts)
  }

  lemma {:induction false} NoTokens(L: seq<nat>, D: seq<nat>, bs: seq<Bit>, p: nat, h: seq<Byte>)
    requires p <= |bs|
    ensures TokensAt(L, D, bs, p, [], p) && Plays(h, [], h)
  {
  }

  lemma {:induction false} TokensMore(L: seq<nat>, D: seq<nat>, bs: seq<Bit>, p: nat, ts: seq<Token>, q: nat, t: Token)
    requires TokensAt(L, D, bs, p, ts, q) && TokenOk(L, D, t) && At(bs, q, TokenBits(L, D, t))
    ensures TokensAt(L, D, bs, p, ts + [t], q + |TokenBits(L, D, t)|)
  {
    hide At, TokenBits, TokenOk;
    var all := ts + [t];
    assert all[..|ts|] == ts;
    AtBoth(bs, p, TokensBits(L, D, ts), TokenBits(L, D, t));
  }

  lemma {:induction false} PlaysMore(h: seq<Byte>, ts: seq<Token>, h': seq<Byte>, t: Token)
    requires Plays(h, ts, h') && TokenFits(h', t)
    ensures Plays(h, ts + [t], Played(h', t))
  {
    hide TokenFits, Played;
    assert (ts + [t])[..|ts|] == ts;
  }

  lemma {:induction false} BodyEnds(L: seq<nat>, D: seq<nat>, bs: seq<Bit>, p: nat, ts: seq<Token>, q: nat)
    requires TokensAt(L, D, bs, p, ts, q) && Coded(L, END) && At(bs, q, Word(L, END))
    ensures BodyAt(L, D, bs, p, ts, q + L[END])
  {
    hide At, TokensBits, TokensOk, Word;
    AtBoth(bs, p, TokensBits(L, D, ts), Word(L, END));
  }

  /** Of tokens in the stream, the first n and the one after them. */
  lemma {:induction false} TokenNext(L: seq<nat>, D: seq<nat>, bs: seq<Bit>, p: nat, h: seq<Byte>, ts: seq<Token>,
      n: nat, q: nat, h': seq<Byte>)
    requires TokensOk(L, D, ts) && At(bs, p, TokensBits(L, D, ts)) && TokensFit(h, ts) && n < |ts|
    requires TokensAt(L, D, bs, p, ts[..n], q) && Plays(h, ts[..n], h')
    ensures TokenOk(L, D, ts[n]) && At(bs, q, TokenBits(L, D, ts[n])) && TokenFits(h', ts[n])
    decreases |ts|
  {
    hide At, TokenBits, TokenOk, TokenFits;
    var m := |ts| - 1;
    AtBoth(bs, p, TokensBits(L, D, ts[..m]), TokenBits(L, D, ts[m]));
    if n < m {
      assert ts[..m][..n] == ts[..n];
      TokenNext(L, D, bs, p, h, ts[..m], n, q, h');
    }
  }

  /** The next thing awaited: a token, or the end of the block. */
  lemma {:induction false} BodyNext(L: seq<nat>, D: seq<nat>, bs: seq<Bit>, p: nat, h: seq<Byte>, ts: seq<Token>,
      n: nat, q: nat, h': seq<Byte>)
    requires BodyExpected(L, D, bs, p, h, ts) && n <= |ts|
    requires TokensAt(L, D, bs, p, ts[..n], q) && Plays(h, ts[..n], h')
    ensures n < |ts| ==> TokenOk(L, D, ts[n]) && At(bs, q, TokenBits(L, D, ts[n])) && TokenFits(h', ts[n])
    ensures n == |ts| ==> Coded(L, END) && At(bs, q, Word(L, END))
  {
    hide At, TokenBits, TokenOk, TokenFits, TokensBits, TokensOk, TokensFit, AllPlayed, Word;
    AtBoth(bs, p, TokensBits(L, D, ts), Word(L, END));
    if n < |ts| {
      TokenNext(L, D, bs, p, h, ts, n, q, h');
    } else {
      assert ts[..n] == ts;
    }
  }

  /** The symbol awaited. */
  ghost function SymbolNext(ts: seq<Token>, n: nat): nat
  {
    if n < |ts| then Symbol(ts[n]) else END
  }

  ghost function TokenAfter(ts: seq<Token>, n: nat): Token
  {
    if n < |ts| then ts[n] else Literal(0)
  }

  lemma {:induction false} SymbolAwaited(L: seq<nat>, D: seq<nat>, bs: seq<Bit>, p: nat, h: seq<Byte>, want: seq<Token>,
      ts: seq<Token>, q: nat, h': seq<Byte>)
    requires BodyExpected(L, D, bs, p, h, want) && ts <= want
    requires TokensAt(L, D, bs, p, ts, q) && Plays(h, ts, h')
    ensures var s := SymbolNext(want, |ts|); s < |L| && Coded(L, s) && At(bs, q, Word(L, s))
    ensures var s := SymbolNext(want, |ts|);
      && (s == END <==> ts == want) && (s < 256 ==> TokenAfter(want, |ts|) == Literal(s))
      && (s > END ==> s < 286 && RestExpected(D, bs, q + L[s], h', s - 257, TokenAfter(want, |ts|)))
  {
    hide At, TokensAt, Plays, BodyExpected, Word, RestOk, RestBits, TokenFits;
    var n := |ts|;
    assert want[..n] == ts;
    BodyNext(L, D, bs, p, h, want, n, q, h');
    if n < |want| {
      var t := want[n];
      if t.Match? {
        RestIs(D, t);
        AtBoth(bs, q, Word(L, Symbol(t)), RestBits(D, t));
      } else {
        assert Word(L, Symbol(t)) + [] == Word(L, Symbol(t));
      }
    }
  }

  lemma {:induction false} RestIs(D: seq<nat>, t: Token)
    requires RestOk(D, t)
    ensures t.Match? && t.length < 29
  {
  }

  lemma {:induction false} LiteralRead(L: seq<nat>, D: seq<nat>, bs: seq<Bit>, p: nat, ts: seq<Token>, q: nat,
      h: seq<Byte>, h': seq<Byte>, b: Byte)
    requires TokensAt(L, D, bs, p, ts, q) && Plays(h, ts, h') && b < |L| && Coded(L, b) && At(bs, q, Word(L, b))
    ensures TokensAt(L, D, bs, p, ts + [Literal(b)], q + L[b]) && Plays(h, ts + [Literal(b)], h' + [b])
  {
    hide At, TokensAt, Plays, Word, Coded;
    var t := Literal(b);
    assert Word(L, b) + [] == Word(L, b);
    TokensMore(L, D, bs, p, ts, q, t);
    PlaysMore(h, ts, h', t);
  }

  lemma {:induction false} MatchRead(L: seq<nat>, D: seq<nat>, bs: seq<Bit>, p: nat, ts: seq<Token>, q: nat, q': nat,
      h: seq<Byte>, h': seq<Byte>, h'': seq<Byte>, sym: nat, t: Token)
    requires TokensAt(L, D, bs, p, ts, q) && Plays(h, ts, h')
    requires 257 + sym < |L| && Coded(L, 257 + sym) && At(bs, q, Word(L, 257 + sym))
    requires RestDone(D, bs, q + L[257 + sym], q', h', h'', sym, t)
    ensures TokensAt(L, D, bs, p, ts + [t], q') && Plays(h, ts + [t], h'') && q + L[257 + sym] <= q'
  {
    hide At, TokensAt, Plays, Word, Coded, RestOk, RestBits, TokenFits, Played;
    RestIs(D, t);
    AtBoth(bs, q, Word(L, Symbol(t)), RestBits(D, t));
    TokensMore(L, D, bs, p, ts, q, t);
    PlaysMore(h, ts, h', t);
  }

  /**
   * Literals and matches up to the end of the block. They are the block's tokens, and
   * when the stream does hold such a block it is read to its end, unless the sink stops it.
   */
  method Codes(r: Reader, w: Output, lencode: Huff, distcode: Huff, ghost L: seq<nat>, ghost D: seq<nat>,
      ghost want: seq<Token>)
    returns (ok: bool, ghost ts: seq<Token>)
    requires r.Valid() && Ready(w) && lencode.Decodes(L) && distcode.Decodes(D)
    modifies r, w, w.win
    ensures r.Valid() && Ready(w) && (old(w.stopped) ==> w.stopped)
    ensures ok ==>
      && !old(r.bad) && !r.bad && BodyAt(L, D, r.Stream(), old(r.Here()), ts, r.Here())
      && Plays(old(w.history), ts, w.history)
    ensures !old(r.bad) && BodyExpected(L, D, r.Stream(), old(r.Here()), old(w.history), want) ==>
      (ok && ts == want) || w.stopped
  {
    hide *;
    ghost var bs, p, h := r.Stream(), r.Here(), w.history;
    ghost var due := !r.bad && BodyExpected(L, D, bs, p, h, want);
    ts := [];
    if !r.bad { HereFits(r); NoTokens(L, D, bs, p, h); }
    while true
      invariant r.Valid() && Ready(w) && (old(w.stopped) ==> w.stopped) && (old(r.bad) ==> r.bad)
      invariant !r.bad ==> TokensAt(L, D, bs, p, ts, r.Here()) && Plays(h, ts, w.history)
      invariant due ==> !r.bad && ts <= want
      decreases if r.bad then 0 else 1 + 8 * |r.input| - r.Here()
    {
      ghost var q, h' := r.Here(), w.history;
      if due { SymbolAwaited(L, D, bs, p, h, want, ts, q, h'); }
      if !r.bad { HereFits(r); }
      var sym := lencode.Decode(r, L);
      if sym < 0 || r.bad || w.stopped {
        return false, ts;
      }
      HereFits(r);
      CodedIs(L, sym);
      CopyReady(w);
      if sym < 256 {
        LiteralRead(L, D, bs, p, ts, q, h, h', sym);
        w.Put(sym);
        CopyDone(w);
        if due { PrefixMore(want, ts); }
        ts := ts + [Literal(sym)];
      } else if sym == 256 {
        BodyEnds(L, D, bs, p, ts, q);
        return true, ts;
      } else {
        if sym - 257 >= 29 {
          return false, ts;
        }
        ghost var t;
        var took;
        took, t := Rest(r, w, distcode, sym - 257, D, TokenAfter(want, |ts|));
        if !took {
          return false, ts;
        }
        if !r.bad {
          HereFits(r);
          MatchRead(L, D, bs, p, ts, q, r.Here(), h, h', w.history, sym - 257, t);
        }
        if due { PrefixMore(want, ts); }
        ts := ts + [t];
      }
    }
  }

  lemma {:induction false} HereFits(r: Reader)
    requires r.Valid() && !r.bad
    ensures r.Here() <= 8 * |r.input| == |r.Stream()|
  {
  }

  lemma {:induction false} CodedIs(L: seq<nat>, s: nat)
    requires Coded(L, s)
    ensures s < |L| && L[s] > 0 && END == 256
  {
  }

  lemma {:induction false} PrefixMore(want: seq<Token>, ts: seq<Token>)
    requires ts <= want
    ensures ts != want ==> ts + [TokenAfter(want, |ts|)] <= want
  {
  }
}
