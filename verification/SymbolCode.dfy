/**
 * The bits in which an LZMA symbol is written, that those and no others are read as it, and so
 * that whatever symbols are written a chunk reads them and is what they stand for.
 */
module SymbolCode {
  import opened Base
  import opened Bits
  import opened Window
  import opened RangeCoder
  import opened LzmaSpec
  import opened RangeWriter
  import opened LzmaCode
  import Lzma

  // ---- literals

  /** s is a one and then all but n of eight bits. */
  ghost predicate Begun8(s: nat, n: nat)
  {
    n <= 8 && Pow2(8 - n) <= s < 2 * Pow2(8 - n)
  }

  lemma {:induction false} BegunNext(s: nat, n: nat, b: nat)
    requires Begun8(s, n) && b < 2
    ensures n == 0 <==> s >= 256
    ensures n > 0 ==> Begun8(2 * s + b, n - 1)
    ensures s > 0
  {
    SmallPowers();
    PowGrows(8 - n, 8);
    if n > 0 { PowGrows(9 - n, 8); }
  }

  /** The bits of a literal that are not guided go down a tree. */
  lemma {:induction false} PlainIsDown(input: seq<Byte>, k: Core, base: nat, n: nat, s: nat)
    requires Begun8(s, n)
    ensures s > 0 && Plain(input, k, base, s) == Down(input, k, base, n, s)
    decreases n
  {
    hide BitIn, BitDone, Begun8;
    var b := BitIn(k, base + s);
    BitIs(k, base + s);
    BegunNext(s, n, b);
    if n > 0 { PlainIsDown(input, BitDone(input, k, base + s), base, n - 1, 2 * s + b); }
  }

  /** Guided by another byte until they differ from it. */
  function GuidedPieces(base: nat, n: nat, like: nat, s: nat, v: nat): (ps: seq<Piece>)
    decreases n
  {
    if n == 0 then []
    else
      var (h, m) := (Pow2(n - 1), like / 128 % 2);
      var (b, w) := (if v < h then 0 else 1, if v < h then v else v - h);
      [Guess(base + (1 + m) * 256 + s, b)] +
      if b == m then GuidedPieces(base, n - 1, 2 * like, 2 * s + b, w) else DownPieces(base, n - 1, 2 * s + b, w)
  }

  lemma {:induction false} GuidedIs(input: seq<Byte>, k: Core, base: nat, n: nat, like: nat, s: nat, v: nat)
    requires Begun8(s, n) && n > 0
    ensures s > 0 && var i := base + (1 + like / 128 % 2) * 256 + s; var (k', b) := (BitDone(input, k, i), BitIn(k, i));
      && Begun8(2 * s + b, n - 1) && b < 2
      && Guided(input, k, base, like, s) ==
         if b == like / 128 % 2 then Guided(input, k', base, 2 * like, 2 * s + b)
         else Down(input, k', base, n - 1, 2 * s + b)
    ensures var (h, m) := (Pow2(n - 1), like / 128 % 2);
      var (b, w) := (if v < h then 0 else 1, if v < h then v else v - h);
      && GuidedPieces(base, n, like, s, v) ==
         [Guess(base + (1 + m) * 256 + s, b)] +
         (if b == m then GuidedPieces(base, n - 1, 2 * like, 2 * s + b, w)
          else DownPieces(base, n - 1, 2 * s + b, w))
    ensures Shift(s, n) == Shift(2 * s, n - 1) && Pow2(n) == 2 * Pow2(n - 1)
  {
    hide *;
    var i := base + (1 + like / 128 % 2) * 256 + s;
    var (k', b) := (BitDone(input, k, i), BitIn(k, i));
    BitIs(k, i);
    BegunNext(s, n, b);
    PlainIsDown(input, k', base, n - 1, 2 * s + b);
    GuidedOne(input, k, base, like, s);
    PiecesOne(base, n, like, s, v);
    Doubled(s, n);
  }

  lemma {:induction false} GuidedOne(input: seq<Byte>, k: Core, base: nat, like: nat, s: nat)
    requires 0 < s < 256
    ensures var i := base + (1 + like / 128 % 2) * 256 + s; var (k', b) := (BitDone(input, k, i), BitIn(k, i));
      2 * s + b > 0 && Guided(input, k, base, like, s) ==
         if b == like / 128 % 2 then Guided(input, k', base, 2 * like, 2 * s + b) else Plain(input, k', base, 2 * s + b)
  {
    hide BitIn, BitDone, Plain;
  }

  lemma {:induction false} PiecesOne(base: nat, n: nat, like: nat, s: nat, v: nat)
    requires n > 0
    ensures var (h, m) := (Pow2(n - 1), like / 128 % 2);
      var (b, w) := (if v < h then 0 else 1, if v < h then v else v - h);
      GuidedPieces(base, n, like, s, v) ==
         [Guess(base + (1 + m) * 256 + s, b)] +
         (if b == m then GuidedPieces(base, n - 1, 2 * like, 2 * s + b, w)
          else DownPieces(base, n - 1, 2 * s + b, w))
  {
    hide DownPieces, Pow2;
  }

  lemma {:induction false} Doubled(s: nat, n: nat)
    requires n > 0
    ensures Shift(s, n) == Shift(2 * s, n - 1) && Pow2(n) == 2 * Pow2(n - 1)
  {
  }

  lemma {:induction false} GuidedNone(input: seq<Byte>, k: Core, base: nat, like: nat, s: nat, v: nat)
    requires Begun8(s, 0)
    ensures s >= 256 && Guided(input, k, base, like, s) == Got(k, s) && GuidedPieces(base, 0, like, s, v) == []
    ensures Shift(s, 0) == s && Pow2(0) == 1 && Reads(input, k, []) && After(input, k, []) == k
  {
    BegunNext(s, 0, 0);
  }

  lemma {:induction false} GuidedRange(input: seq<Byte>, k: Core, base: nat, n: nat, like: nat, s: nat)
    requires Begun8(s, n)
    ensures s > 0 && Shift(s, n) <= Guided(input, k, base, like, s).v < Shift(s, n) + Pow2(n)
    decreases n
  {
    hide *;
    BegunNext(s, n, 0);
    if n == 0 {
      GuidedNone(input, k, base, like, s, 0);
    } else {
      GuidedIs(input, k, base, n, like, s, 0);
      var m := like / 128 % 2;
      var i := base + (1 + m) * 256 + s;
      var (k', b) := (BitDone(input, k, i), BitIn(k, i));
      ShiftSum(2 * s, b, n - 1);
      ShiftOne(n - 1);
      BitIs(k, i);
      if b == m {
        GuidedRange(input, k', base, n - 1, 2 * like, 2 * s + b);
      } else {
        DownRange(input, k', base, n - 1, 2 * s + b);
      }
    }
  }

  lemma {:induction false} GuidedReads(input: seq<Byte>, k: Core, base: nat, n: nat, like: nat, s: nat, v: nat)
    requires Begun8(s, n) && v < Pow2(n)
    ensures s > 0 && var (g, ps) := (Guided(input, k, base, like, s), GuidedPieces(base, n, like, s, v));
      (Reads(input, k, ps) <==> g.v == Shift(s, n) + v) && (Reads(input, k, ps) ==> g.k == After(input, k, ps))
    decreases n
  {
    hide *;
    BegunNext(s, n, 0);
    if n == 0 {
      GuidedNone(input, k, base, like, s, v);
    } else {
      GuidedIs(input, k, base, n, like, s, v);
      var (h, m) := (Pow2(n - 1), like / 128 % 2);
      var b: nat := if v < h then 0 else 1;
      var w: nat := if v < h then v else v - h;
      var i := base + (1 + m) * 256 + s;
      var (k', c) := (BitDone(input, k, i), BitIn(k, i));
      BitIs(k, i);
      ShiftSum(2 * s, b, n - 1);
      ShiftSum(2 * s, c, n - 1);
      ShiftOne(n - 1);
      if b == m {
        BegunNext(s, n, b);
        GuidedReads(input, k', base, n - 1, 2 * like, 2 * s + b, w);
      } else {
        DownReads(input, k', base, n - 1, 2 * s + b, w);
      }
      if c == m {
        GuidedRange(input, k', base, n - 1, 2 * like, 2 * s + c);
      } else {
        DownRange(input, k', base, n - 1, 2 * s + c);
      }
      FirstRead(input, k, Guess(i, b), if b == m then GuidedPieces(base, n - 1, 2 * like, 2 * s + b, w)
                                       else DownPieces(base, n - 1, 2 * s + b, w));
    }
  }

  function LiteralPieces(p: Past, h: seq<Byte>, total: nat, b: nat): (ps: seq<Piece>)
    requires |p.rep| == 4
  {
    var base := LiteralBase(p, h, total);
    if p.state >= 7 then GuidedPieces(base, 8, ByteBack(h, p.rep[0] + 1), 1, b) else DownPieces(base, 8, 1, b)
  }

  lemma {:induction false} LiteralIs(input: seq<Byte>, k: Core, p: Past, h: seq<Byte>, total: nat)
    requires |p.rep| == 4
    ensures var base := LiteralBase(p, h, total);
      var g := if p.state >= 7 then Guided(input, k, base, ByteBack(h, p.rep[0] + 1), 1) else Plain(input, k, base, 1);
      LiteralIn(input, k, p, h, total) == Read(g.k, Literal(g.v % 256))
  {
    hide LiteralBase, Guided, Plain;
  }

  lemma {:induction false} EightBits()
    ensures Begun8(1, 8) && Shift(1, 8) == 256 && Pow2(8) == 256
  {
    SmallPowers();
    ShiftOne(8);
    assert Pow2(0) == 1;
  }

  /** Each byte is read from its own bits and no others. */
  lemma {:induction false} LiteralReads(input: seq<Byte>, k: Core, p: Past, h: seq<Byte>, total: nat, b: Byte)
    requires |p.rep| == 4
    ensures var (r, ps) := (LiteralIn(input, k, p, h, total), LiteralPieces(p, h, total, b));
      && r.s.Literal? && (Reads(input, k, ps) <==> r.s == Literal(b))
         && (Reads(input, k, ps) ==> r.k == After(input, k, ps))
  {
    hide *;
    var base := LiteralBase(p, h, total);
    var like := ByteBack(h, p.rep[0] + 1);
    LiteralIs(input, k, p, h, total);
    LiteralPiecesIs(p, h, total, b);
    EightBits();
    if p.state >= 7 {
      GuidedReads(input, k, base, 8, like, 1, b);
      GuidedRange(input, k, base, 8, like, 1);
    } else {
      PlainIsDown(input, k, base, 8, 1);
      DownReads(input, k, base, 8, 1, b);
      DownRange(input, k, base, 8, 1);
    }
  }

  lemma {:induction false} LiteralPiecesIs(p: Past, h: seq<Byte>, total: nat, b: nat)
    requires |p.rep| == 4
    ensures var base := LiteralBase(p, h, total);
      LiteralPieces(p, h, total, b) ==
      if p.state >= 7 then GuidedPieces(base, 8, ByteBack(h, p.rep[0] + 1), 1, b) else DownPieces(base, 8, 1, b)
  {
    hide LiteralBase, GuidedPieces, DownPieces;
  }

  // ---- matches

  /** What can be written as a symbol. */
  ghost predicate SymbolOk(s: Symbol)
  {
    match s
    case Literal(_) => true
    case Fresh(d, n) => d < U32 && 2 <= n <= 273
    case Again(w, n) => w < 4 && 2 <= n <= 273
    case Short => true
  }

  function FreshPieces(ps: nat, d: nat, n: nat): (r: seq<Piece>)
    requires 2 <= n <= 273 && SlotOf(d) < 64 && SlotBase(SlotOf(d)) <= d
  {
    LengthPieces(LEN, ps, n - 2) + DistancePieces(n - 2, d)
  }

  lemma {:induction false} SlotOk(d: nat)
    ensures d < U32 ==> InSlot(d, SlotOf(d)) && SlotOf(d) < 64 && SlotBase(SlotOf(d)) <= d
  {
    SlotOnce(d);
    hide SlotOf, SlotBase, SlotBits;
  }

  lemma {:induction false} FreshReads(input: seq<Byte>, k: Core, ps: nat, d: nat, n: nat)
    requires d < U32 && 2 <= n <= 273 && SlotOf(d) < 64 && SlotBase(SlotOf(d)) <= d
    ensures var (r, ws) := (FreshIn(input, k, ps), FreshPieces(ps, d, n));
      && r.s.Fresh? && SymbolOk(r.s)
      && (Reads(input, k, ws) <==> r.s == Fresh(d, n)) && (Reads(input, k, ws) ==> r.k == After(input, k, ws))
  {
    SlotOk(d);
    var g := Length(input, k, LEN, ps);
    LengthReads(input, k, LEN, ps, n - 2);
    hide InSlot;
    DistanceReads(input, g.k, n - 2, d);
    DistanceReads(input, g.k, g.v, d);
    ReadsBoth(input, k, LengthPieces(LEN, ps, n - 2), DistancePieces(n - 2, d));
    hide Length, Distance, LengthPieces, DistancePieces, Reads, After, SlotOf, SlotBase, InSlot;
  }

  /** Which of the last four distances. */
  function WhichPieces(state: nat, ps: nat, w: nat): (r: seq<Piece>)
  {
    if w == 0 then [Guess(G0 + state, 0), Guess(REP0_LONG + (16 * state + ps), 1)]
    else if w == 1 then [Guess(G0 + state, 1), Guess(G1 + state, 0)]
    else [Guess(G0 + state, 1), Guess(G1 + state, 1), Guess(G2 + state, if w == 2 then 0 else 1)]
  }

  function ShortPieces(state: nat, ps: nat): (r: seq<Piece>)
  {
    [Guess(G0 + state, 0), Guess(REP0_LONG + (16 * state + ps), 0)]
  }

  lemma {:induction false} TwoRead(input: seq<Byte>, k: Core, p: Piece, q: Piece)
    requires p.Guess? && q.Guess?
    ensures var k' := BitDone(input, k, p.at);
      && (Reads(input, k, [p, q]) <==> BitIn(k, p.at) == p.bit && BitIn(k', q.at) == q.bit)
      && After(input, k, [p, q]) == BitDone(input, k', q.at)
  {
    hide BitIn, BitDone;
    assert [p, q] == [p] + ([q] + []);
    FirstRead(input, k, p, [q] + []);
    FirstRead(input, BitDone(input, k, p.at), q, []);
    EmptyRead(input, BitDone(input, BitDone(input, k, p.at), q.at));
    hide Reads, After;
  }

  lemma {:induction false} EmptyRead(input: seq<Byte>, k: Core)
    ensures Reads(input, k, []) && After(input, k, []) == k
  {
  }

  lemma {:induction false} ThreeRead(input: seq<Byte>, k: Core, p: Piece, q: Piece, r: Piece)
    requires p.Guess? && q.Guess? && r.Guess?
    ensures var k1 := BitDone(input, k, p.at); var k2 := BitDone(input, k1, q.at);
      && (Reads(input, k, [p, q, r]) <==>
            BitIn(k, p.at) == p.bit && BitIn(k1, q.at) == q.bit && BitIn(k2, r.at) == r.bit)
      && After(input, k, [p, q, r]) == BitDone(input, k2, r.at)
  {
    hide BitIn, BitDone;
    assert [p, q, r] == [p] + [q, r];
    FirstRead(input, k, p, [q, r]);
    TwoRead(input, BitDone(input, k, p.at), q, r);
    hide Reads, After;
  }

  /** What is read off the bits of a repeated match, but for its length. */
  ghost predicate WhichIn(input: seq<Byte>, k: Core, state: nat, ps: nat, w: nat, k': Core)
  {
    w < 5 && var r := if w == 4 then ShortPieces(state, ps) else WhichPieces(state, ps, w);
      Reads(input, k, r) && After(input, k, r) == k'
  }

  /** Something is, and just one thing. */
  lemma {:induction false} WhichSome(input: seq<Byte>, k: Core, state: nat, ps: nat) returns (w: nat, k': Core)
    ensures WhichIn(input, k, state, ps, w, k')
    ensures AgainIn(input, k, state, ps) == if w == 4 then Read(k', Short) else AgainLen(input, k', w, ps)
    ensures forall x: nat, k'' :: WhichIn(input, k, state, ps, x, k'') ==> x == w && k'' == k'
  {
    var (a, b, c, l) := (G0 + state, G1 + state, G2 + state, REP0_LONG + (16 * state + ps));
    var k1 := BitDone(input, k, a);
    var (k2, l2) := (BitDone(input, k1, b), BitDone(input, k1, l));
    var k3 := BitDone(input, k2, c);
    hide BitIn, BitDone, AgainLen;
    BitIs(k, a);
    BitIs(k1, b);
    BitIs(k1, l);
    BitIs(k2, c);
    w := if BitIn(k, a) == 0 then (if BitIn(k1, l) == 0 then 4 else 0)
         else if BitIn(k1, b) == 0 then 1 else if BitIn(k2, c) == 0 then 2 else 3;
    k' := if w == 4 || w == 0 then l2 else if w == 1 then k2 else k3;
    TwoRead(input, k, Guess(a, 0), Guess(l, 0));
    TwoRead(input, k, Guess(a, 0), Guess(l, 1));
    TwoRead(input, k, Guess(a, 1), Guess(b, 0));
    ThreeRead(input, k, Guess(a, 1), Guess(b, 1), Guess(c, 0));
    ThreeRead(input, k, Guess(a, 1), Guess(b, 1), Guess(c, 1));
    hide Reads, After;
  }

  function AgainPieces(state: nat, ps: nat, s: Symbol): (r: seq<Piece>)
    requires s.Short? || (s.Again? && 2 <= s.len <= 273)
  {
    if s.Short? then ShortPieces(state, ps) else WhichPieces(state, ps, s.which) + LengthPieces(REP_LEN, ps, s.len - 2)
  }

  lemma {:induction false} AgainReads(input: seq<Byte>, k: Core, state: nat, ps: nat, s: Symbol)
    requires SymbolOk(s) && (s.Short? || s.Again?)
    ensures var (r, ws) := (AgainIn(input, k, state, ps), AgainPieces(state, ps, s));
      && (r.s.Short? || r.s.Again?) && SymbolOk(r.s)
      && (Reads(input, k, ws) <==> r.s == s) && (Reads(input, k, ws) ==> r.k == After(input, k, ws))
  {
    hide *;
    var w, k' := WhichSome(input, k, state, ps);
    AgainLenIs(input, k', w, ps);
    SymbolIs(s);
    SymbolIs(AgainIn(input, k, state, ps).s);
    AgainPiecesIs(state, ps, s);
    if s.Short? {
      WhichIs(input, k, state, ps, 4, After(input, k, ShortPieces(state, ps)));
      WhichIs(input, k, state, ps, w, k');
      if w < 4 { LengthReads(input, k', REP_LEN, ps, 0); LengthReadIs(input, k', REP_LEN, ps, 0); }
    } else {
      var a := WhichPieces(state, ps, s.which);
      var b := LengthPieces(REP_LEN, ps, s.len - 2);
      ReadsBoth(input, k, a, b);
      WhichIs(input, k, state, ps, s.which, After(input, k, a));
      WhichIs(input, k, state, ps, w, k');
      LengthReads(input, k', REP_LEN, ps, s.len - 2);
      LengthReadIs(input, k', REP_LEN, ps, s.len - 2);
    }
  }

  lemma {:induction false} WhichIs(input: seq<Byte>, k: Core, state: nat, ps: nat, w: nat, k': Core)
    ensures WhichIn(input, k, state, ps, w, k') <==>
      w < 5 && var r := if w == 4 then ShortPieces(state, ps) else WhichPieces(state, ps, w);
        Reads(input, k, r) && After(input, k, r) == k'
  {
    hide Reads, After, ShortPieces, WhichPieces;
  }

  lemma {:induction false} AgainLenIs(input: seq<Byte>, k: Core, w: nat, ps: nat)
    ensures var g := Length(input, k, REP_LEN, ps); AgainLen(input, k, w, ps) == Read(g.k, Again(w, g.v + 2))
  {
    hide Length;
  }

  lemma {:induction false} AgainPiecesIs(state: nat, ps: nat, s: Symbol)
    requires s.Short? || (s.Again? && 2 <= s.len <= 273)
    ensures AgainPieces(state, ps, s) == if s.Short? then ShortPieces(state, ps)
      else WhichPieces(state, ps, s.which) + LengthPieces(REP_LEN, ps, s.len - 2)
  {
    hide ShortPieces, WhichPieces, LengthPieces;
  }

  lemma {:induction false} SymbolIs(s: Symbol)
    ensures s.Literal? || s.Short? ==> SymbolOk(s)
    ensures s.Fresh? ==> (SymbolOk(s) <==> s.dist < U32 && 2 <= s.len <= 273)
    ensures s.Again? ==> (SymbolOk(s) <==> s.which < 4 && 2 <= s.len <= 273)
  {
  }

  // ---- symbols

  function SymbolPieces(p: Past, h: seq<Byte>, total: nat, s: Symbol): (r: seq<Piece>)
    requires |p.rep| == 4 && SymbolOk(s)
  {
    var ps := total % Pow2(p.pb);
    var i := IS_MATCH + (16 * p.state + ps);
    if s.Literal? then [Guess(i, 0)] + LiteralPieces(p, h, total, s.byte)
    else [Guess(i, 1)] + MatchPieces(p.state, ps, s)
  }

  function MatchPieces(state: nat, ps: nat, s: Symbol): (r: seq<Piece>)
    requires SymbolOk(s) && !s.Literal?
  {
    if s.Fresh? then
      SlotOk(s.dist);
      [Guess(IS_REP + state, 0)] + FreshPieces(ps, s.dist, s.len)
    else [Guess(IS_REP + state, 1)] + AgainPieces(state, ps, s)
  }

  lemma {:induction false} MatchIs(input: seq<Byte>, k: Core, state: nat, ps: nat)
    ensures var k' := BitDone(input, k, IS_REP + state);
      MatchIn(input, k, state, ps) ==
        if BitIn(k, IS_REP + state) == 0 then FreshIn(input, k', ps) else AgainIn(input, k', state, ps)
  {
    hide BitIn, BitDone, FreshIn, AgainIn;
  }

  lemma {:induction false} MatchPiecesIs(state: nat, ps: nat, s: Symbol)
    requires SymbolOk(s) && !s.Literal?
    ensures s.Fresh? ==> s.dist < U32 && 2 <= s.len <= 273 && SlotOf(s.dist) < 64 && SlotBase(SlotOf(s.dist)) <= s.dist
    ensures s.Fresh? ==> MatchPieces(state, ps, s) == [Guess(IS_REP + state, 0)] + FreshPieces(ps, s.dist, s.len)
    ensures !s.Fresh? ==> s.Short? || (s.Again? && 2 <= s.len <= 273)
    ensures !s.Fresh? ==>
      MatchPieces(state, ps, s) == [Guess(IS_REP + state, 1)] + AgainPieces(state, ps, s)
  {
    if s.Fresh? { SlotOk(s.dist); }
    hide FreshPieces, AgainPieces, SlotOf, SlotBase;
  }

  lemma {:induction false} MatchReads(input: seq<Byte>, k: Core, state: nat, ps: nat, s: Symbol)
    requires SymbolOk(s) && !s.Literal?
    ensures var (r, ws) := (MatchIn(input, k, state, ps), MatchPieces(state, ps, s));
      && !r.s.Literal? && SymbolOk(r.s)
      && (Reads(input, k, ws) <==> r.s == s) && (Reads(input, k, ws) ==> r.k == After(input, k, ws))
  {
    hide *;
    var i := IS_REP + state;
    var k' := BitDone(input, k, i);
    BitIs(k, i);
    MatchIs(input, k, state, ps);
    MatchPiecesIs(state, ps, s);
    SomeRead(input, k', state, ps);
    if s.Fresh? {
      FreshReads(input, k', ps, s.dist, s.len);
      FirstRead(input, k, Guess(i, 0), FreshPieces(ps, s.dist, s.len));
    } else {
      AgainReads(input, k', state, ps, s);
      FirstRead(input, k, Guess(i, 1), AgainPieces(state, ps, s));
    }
  }

  /** Whatever stands next is a symbol that can be written. */
  lemma {:induction false} SomeRead(input: seq<Byte>, k: Core, state: nat, ps: nat)
    ensures var (f, a) := (FreshIn(input, k, ps).s, AgainIn(input, k, state, ps).s);
      f.Fresh? && SymbolOk(f) && (a.Short? || a.Again?) && SymbolOk(a)
  {
    hide *;
    SlotOk(0);
    SomeDistance();
    FreshReads(input, k, ps, 0, 2);
    SymbolIs(Short);
    AgainReads(input, k, state, ps, Short);
  }

  lemma {:induction false} SomeDistance()
    ensures 0 < U32
  {
  }

  lemma {:induction false} SymbolInIs(input: seq<Byte>, k: Core, p: Past, h: seq<Byte>, total: nat)
    requires |p.rep| == 4
    ensures var ps := total % Pow2(p.pb); var i := IS_MATCH + (16 * p.state + ps); var k' := BitDone(input, k, i);
      SymbolIn(input, k, p, h, total) ==
        if BitIn(k, i) == 0 then LiteralIn(input, k', p, h, total) else MatchIn(input, k', p.state, ps)
  {
    hide BitIn, BitDone, LiteralIn, MatchIn, Pow2;
  }

  lemma {:induction false} SymbolPiecesIs(p: Past, h: seq<Byte>, total: nat, s: Symbol)
    requires |p.rep| == 4 && SymbolOk(s)
    ensures var ps := total % Pow2(p.pb); var i := IS_MATCH + (16 * p.state + ps);
      && (s.Literal? ==> SymbolPieces(p, h, total, s) == [Guess(i, 0)] + LiteralPieces(p, h, total, s.byte))
      && (!s.Literal? ==> SymbolPieces(p, h, total, s) == [Guess(i, 1)] + MatchPieces(p.state, ps, s))
  {
    hide LiteralPieces, MatchPieces, Pow2;
  }

  /** Each symbol is read from its own bits and no others. */
  lemma {:induction false} SymbolReads(input: seq<Byte>, k: Core, p: Past, h: seq<Byte>, total: nat, s: Symbol)
    requires |p.rep| == 4 && SymbolOk(s)
    ensures var (r, ws) := (SymbolIn(input, k, p, h, total), SymbolPieces(p, h, total, s));
      && SymbolOk(r.s) && (Reads(input, k, ws) <==> r.s == s) && (Reads(input, k, ws) ==> r.k == After(input, k, ws))
  {
    hide *;
    SymbolInIs(input, k, p, h, total);
    SymbolPiecesIs(p, h, total, s);
    SymbolIs(SymbolIn(input, k, p, h, total).s);
    var ps := PlaceOf(total, p.pb);
    var i := IS_MATCH + (16 * p.state + ps);
    var k' := BitDone(input, k, i);
    BitIs(k, i);
    LiteralReads(input, k', p, h, total, if s.Literal? then s.byte else 0);
    SymbolIs(Short);
    MatchReads(input, k', p.state, ps, if s.Literal? then Short else s);
    if s.Literal? {
      FirstRead(input, k, Guess(i, 0), LiteralPieces(p, h, total, s.byte));
    } else {
      FirstRead(input, k, Guess(i, 1), MatchPieces(p.state, ps, s));
    }
  }

  function PlaceOf(total: nat, pb: nat): (ps: nat)
    ensures ps == total % Pow2(pb)
  {
    total % Pow2(pb)
  }

  // ---- the state and the last distances

  /** The state is 7 or more exactly after a match. */
  lemma {:induction false} StateSays(state: nat, s: Symbol)
    requires state < 12
    ensures StateAfter(state, s) < 12 && (StateAfter(state, s) >= 7 <==> !s.Literal?)
  {
  }

  /** What a match that is d's kind, after a literal or after another match, leaves. */
  function Kind(d: Symbol, alone: bool, anew: nat, again: nat, short: nat): (t: nat)
  {
    if d.Fresh? then anew else if d.Again? then again else if alone then short else again
  }

  /** It is what the last four symbols were: literals, or which kind of match came last, and how long ago. */
  lemma {:induction false} StateTells(state: nat, a: Symbol, b: Symbol, c: Symbol, d: Symbol)
    requires state < 12
    ensures StateAfter(StateAfter(StateAfter(StateAfter(state, a), b), c), d) ==
      if !d.Literal? then (if c.Literal? then Kind(d, true, 7, 8, 9) else if d.Fresh? then 10 else 11)
      else if !c.Literal? then Kind(c, b.Literal?, 4, 5, 6)
      else if !b.Literal? then Kind(b, a.Literal?, 1, 2, 3)
      else 0
  {
  }

  /** The distance of a match goes to the front of the last four, and the others keep their order. */
  lemma {:induction false} RepSays(rep: seq<nat>, s: Symbol)
    requires |rep| == 4 && SymbolOk(s)
    ensures s.Literal? || s.Short? ==> RepAfter(rep, s) == rep
    ensures s.Fresh? ==> RepAfter(rep, s) == [s.dist] + rep[..3]
    ensures s.Again? ==>
      RepAfter(rep, s)[0] == rep[s.which] && RepAfter(rep, s)[1..] == rep[..s.which] + rep[s.which + 1..]
  {
  }

  // ---- tables

  /** The tables lie one after another, and the lengths' parts do within theirs. */
  lemma {:induction false} TablesApart(i: nat)
    requires i < 11
    ensures var t := [(IS_MATCH, 192), (IS_REP, 12), (G0, 12), (G1, 12), (G2, 12), (REP0_LONG, 192), (SLOT, 4 * 64),
                      (POS, 115), (ALIGN, 16), (LEN, 2 + 16 * 8 + 16 * 8 + 256), (REP_LEN, 2 + 16 * 8 + 16 * 8 + 256),
                      (LIT, 16 * 768)];
      t[0].0 == 0 && t[i + 1].0 == t[i].0 + t[i].1 && t[11].0 + t[11].1 == SIZE
  {
  }

  /** The trees of the near slots' low bits lie one after another. */
  lemma {:induction false} NearApart(s: nat)
    requires 4 <= s < 14
    ensures SlotBase(4) - 4 == 0
    ensures s < 13 ==> SlotBase(s + 1) - (s + 1) == SlotBase(s) - s + (Pow2(SlotBits(s)) - 1)
    ensures s == 13 ==> SlotBase(s) - s + Pow2(SlotBits(s)) == 115
  {
    SmallSlots();
    LargeSlot(s);
    LastNear();
    hide SlotBase, SlotBits, Pow2;
  }

  lemma {:induction false} LastNear()
    ensures SlotBase(13) == 96 && Pow2(SlotBits(13)) == 32
  {
    ShiftTimes(3, 5);
    SmallPowers();
    assert Pow2(5) == 32;
    hide Shift, Pow2;
  }

  /**
   * Literals share chances exactly when the low bits of their places and the high bits of the bytes
   * before them agree.
   */
  lemma {:induction false} ContextOnce(t: nat, u: nat, x: Byte, y: Byte, lc: nat, lp: nat)
    requires lc <= 8
    ensures Context(t, x, lc, lp) == Context(u, y, lc, lp) <==>
      t % Pow2(lp) == u % Pow2(lp) && Quotient(x, Pow2(8 - lc)) == Quotient(y, Pow2(8 - lc))
  {
    var n := Pow2(lc);
    PowAdd(lc, 8 - lc);
    SmallPowers();
    QuotientFits(x, n, Pow2(8 - lc));
    QuotientFits(y, n, Pow2(8 - lc));
    var (a, b) := (t % Pow2(lp), u % Pow2(lp));
    Digit(a, b, Quotient(x, Pow2(8 - lc)), Quotient(y, Pow2(8 - lc)), n);
  }

  lemma {:induction false} QuotientFits(x: nat, n: nat, m: nat)
    requires x < n * m && m > 0
    ensures Quotient(x, m) < n
  {
    var q: nat, r: nat := x / m, x % m;
    assert x == q * m + r;
    assert q >= n ==> q * m >= n * m;
  }

  lemma {:induction false} Digit(a: nat, b: nat, x: nat, y: nat, n: nat)
    requires x < n && y < n
    ensures Product(a, n) + x == Product(b, n) + y <==> a == b && x == y
  {
    if a < b { assert b * n >= (a + 1) * n == a * n + n; }
    if b < a { assert a * n >= (b + 1) * n == b * n + n; }
  }

  /** The parameters of a byte: (pb * 5 + lp) * 9 + lc, if lc + lp is at most 4. */
  lemma {:induction false} ParametersOnce(p: Past, lc: nat, lp: nat, pb: nat)
    requires lc < 9 && lp < 5 && pb < 5
    ensures var b := (pb * 5 + lp) * 9 + lc;
      && b < 225 && Parameters(p, b) == if lc + lp <= 4 then Some(p.(lc := lc, lp := lp, pb := pb)) else None
  {
    var b := (pb * 5 + lp) * 9 + lc;
    FixedParts(b, pb * 5 + lp, lc, pb, lp);
  }

  lemma {:induction false} FixedParts(b: nat, q: nat, lc: nat, pb: nat, lp: nat)
    requires b == q * 9 + lc && q == pb * 5 + lp && lc < 9 && lp < 5
    ensures b / 9 == q && b % 9 == lc && q / 5 == pb && q % 5 == lp && b / 45 == pb
  {
  }

  /** Nothing read yet, a zero is as likely as a one. */
  lemma {:induction false} EvenHalves(i: nat)
    requires i < SIZE
    ensures |LzmaSpec.Even()| == SIZE && 2 * LzmaSpec.Even()[i] == 2048 && AllLikely(LzmaSpec.Even())
  {
  }

  /** A count from 1 to 65536, less one, is written in two bytes, high one first. */
  lemma {:induction false} CountOnce(input: seq<Byte>, p: nat, n: nat)
    requires p + 2 <= |input| && 1 <= n <= 65536
    ensures CountAt(input, p) == n <==> input[p..p + 2] == Digits(n - 1, 2)
  {
    var d := Digits(n - 1, 2);
    assert Digits((n - 1) / 256, 1) == Digits((n - 1) / 256 / 256, 0) + [(n - 1) / 256 % 256];
    assert d == [(n - 1) / 256, (n - 1) % 256];
    var e := input[p..p + 2];
    assert e[0] == input[p] && e[1] == input[p + 1];
  }

  // ---- whole chunks

  ghost predicate AllOk(ss: seq<Symbol>)
  {
    forall i :: 0 <= i < |ss| ==> SymbolOk(ss[i])
  }

  /** What symbols make of a situation, as far as they are allowed and are left bytes in all. */
  function PlayAll(size: nat, z: Sit, ss: seq<Symbol>, left: nat): (r: Option<Sit>)
    requires SitOk(z)
    ensures r.Some? ==> SitOk(r.value)
    decreases |ss|
  {
    if left == 0 then (if ss == [] then Some(z) else None)
    else if ss == [] then None
    else
      var n := Play(size, z, z.k, ss[0], left);
      if n.None? then None else PlayAll(size, n.value, ss[1..], left - Bytes(ss[0]))
  }

  /** The bits of all of them. */
  ghost function ChunkPieces(size: nat, z: Sit, ss: seq<Symbol>, left: nat): (r: seq<Piece>)
    requires SitOk(z) && AllOk(ss)
    decreases |ss|
  {
    if left == 0 || ss == [] then []
    else
      var n := Play(size, z, z.k, ss[0], left);
      if n.None? then []
      else SymbolPieces(z.past, z.history, z.total, ss[0]) +
           ChunkPieces(size, n.value, ss[1..], left - Bytes(ss[0]))
  }

  lemma {:induction false} FirstSymbol(size: nat, z: Sit, ss: seq<Symbol>, left: nat)
    requires SitOk(z) && AllOk(ss) && PlayAll(size, z, ss, left).Some? && left > 0
    ensures ss != [] && AllOk(ss[1..]) && SymbolOk(ss[0]) && Play(size, z, z.k, ss[0], left).Some?
    ensures var n := Play(size, z, z.k, ss[0], left).value;
      && 1 <= Bytes(ss[0]) <= left && SitOk(n)
      && PlayAll(size, z, ss, left) == PlayAll(size, n, ss[1..], left - Bytes(ss[0]))
      && ChunkPieces(size, z, ss, left) ==
         SymbolPieces(z.past, z.history, z.total, ss[0]) + ChunkPieces(size, n, ss[1..], left - Bytes(ss[0]))
  {
    hide Play, SymbolPieces, SymbolOk, Bytes;
  }

  lemma {:induction false} PlayK(size: nat, z: Sit, k: Core, j: Core, s: Symbol, left: nat)
    requires SitOk(z) && left > 0
    ensures SitOk(z.(k := k))
    ensures var (a, b) := (Play(size, z, z.k, s, left), Play(size, z.(k := k), j, s, left));
      (a.None? <==> b.None?) && (a.Some? ==> b.value == a.value.(k := j) && a.value.k == z.k)
  {
    hide Copied, PastAfter;
  }

  /** None of that depends on the coder. */
  lemma {:induction false} CoderApart(size: nat, z: Sit, k: Core, ss: seq<Symbol>, left: nat)
    requires SitOk(z) && AllOk(ss) && PlayAll(size, z, ss, left).Some?
    ensures SitOk(z.(k := k))
    ensures PlayAll(size, z.(k := k), ss, left) == Some(PlayAll(size, z, ss, left).value.(k := k))
    ensures ChunkPieces(size, z.(k := k), ss, left) == ChunkPieces(size, z, ss, left)
    decreases |ss|
  {
    hide Play, SymbolPieces, SymbolOk, Bytes;
    if left > 0 {
      FirstSymbol(size, z, ss, left);
      PlayK(size, z, k, k, ss[0], left);
      var n := Play(size, z, z.k, ss[0], left).value;
      CoderApart(size, n, k, ss[1..], left - Bytes(ss[0]));
    }
  }

  lemma {:induction false} BadStays(input: seq<Byte>, k: Core, ps: seq<Piece>)
    ensures k.bad ==> After(input, k, ps).bad
    decreases |ps|
  {
    if ps != [] { BadStays(input, Done(input, k, ps[0]), ps[1..]); }
  }

  lemma {:induction false} ChunkIs(input: seq<Byte>, size: nat, z: Sit, left: nat)
    requires SitOk(z)
    ensures left == 0 ==> Chunk(input, size, z, left) == Some(z)
    ensures left > 0 && !z.k.bad ==>
      var r := SymbolIn(input, z.k, z.past, z.history, z.total); var n := Play(size, z, r.k, r.s, left);
      Chunk(input, size, z, left) ==
        if n.None? then None else Chunk(input, size, n.value, left - Bytes(r.s))
  {
    hide Play, SymbolIn, Bytes;
  }

  /** A chunk that reads the bits of these symbols is what they stand for. */
  lemma {:induction false} ChunkReads(input: seq<Byte>, size: nat, z: Sit, ss: seq<Symbol>, left: nat)
    requires SitOk(z) && AllOk(ss) && PlayAll(size, z, ss, left).Some?
    requires var ps := ChunkPieces(size, z, ss, left); Reads(input, z.k, ps) && !After(input, z.k, ps).bad
    ensures var ps := ChunkPieces(size, z, ss, left);
      Chunk(input, size, z, left) == Some(PlayAll(size, z, ss, left).value.(k := After(input, z.k, ps)))
    decreases |ss|
  {
    hide *;
    ChunkIs(input, size, z, left);
    var ps := ChunkPieces(size, z, ss, left);
    if left == 0 {
      NoSymbols(input, size, z, ss);
    } else {
      FirstSymbol(size, z, ss, left);
      BadStays(input, z.k, ps);
      SitIs(z);
      var (a, n) := (SymbolPieces(z.past, z.history, z.total, ss[0]), Play(size, z, z.k, ss[0], left).value);
      var b := ChunkPieces(size, n, ss[1..], left - Bytes(ss[0]));
      ReadsBoth(input, z.k, a, b);
      SymbolReads(input, z.k, z.past, z.history, z.total, ss[0]);
      var k := After(input, z.k, a);
      PlayK(size, z, z.k, k, ss[0], left);
      Itself(z);
      CoderApart(size, n, k, ss[1..], left - Bytes(ss[0]));
      ChunkReads(input, size, n.(k := k), ss[1..], left - Bytes(ss[0]));
    }
  }

  lemma {:induction false} Itself(z: Sit)
    ensures z.(k := z.k) == z
  {
  }

  lemma {:induction false} SitIs(z: Sit)
    requires SitOk(z)
    ensures |z.past.rep| == 4
  {
  }

  lemma {:induction false} NoSymbols(input: seq<Byte>, size: nat, z: Sit, ss: seq<Symbol>)
    requires SitOk(z) && AllOk(ss) && PlayAll(size, z, ss, 0).Some?
    ensures ChunkPieces(size, z, ss, 0) == [] && PlayAll(size, z, ss, 0) == Some(z)
    ensures After(input, z.k, []) == z.k && z.(k := z.k) == z
  {
  }

  // ---- every bit has its place in the tables

  ghost predicate PastOk(p: Past)
  {
    p.state < 12 && |p.rep| == 4 && p.lc + p.lp <= 4 && p.pb <= 4
  }

  lemma {:induction false} BothOk(a: seq<Piece>, b: seq<Piece>)
    requires PiecesOk(a) && PiecesOk(b)
    ensures PiecesOk(a + b)
  {
  }

  lemma {:induction false} OneOk(i: nat, b: nat, ps: seq<Piece>)
    requires i < SIZE && b < 2 && PiecesOk(ps)
    ensures PiecesOk([Guess(i, b)] + ps)
  {
  }

  lemma {:induction false} ShiftMore(x: nat, y: nat, n: nat)
    requires x <= y
    ensures x <= Shift(x, n) <= Shift(y, n)
    decreases n
  {
    if n > 0 { ShiftMore(2 * x, 2 * y, n - 1); }
  }

  lemma {:induction false} DownOk(base: nat, n: nat, m: nat, v: nat)
    requires base + Shift(m + 1, n) <= SIZE
    ensures PiecesOk(DownPieces(base, n, m, v))
    decreases n
  {
    if n > 0 {
      var h := Pow2(n - 1);
      var (b, w) := (if v < h then 0 else 1, if v < h then v else v - h);
      hide Pow2;
      ShiftMore(m + 1, m + 1, n);
      ShiftMore(2 * m + b + 1, 2 * m + 2, n - 1);
      DownOk(base, n - 1, 2 * m + b, w);
      OneOk(base + m, b, DownPieces(base, n - 1, 2 * m + b, w));
    }
  }

  lemma {:induction false} LowOk(base: nat, n: nat, m: nat, v: nat)
    requires base + Shift(m + 1, n) <= SIZE
    ensures PiecesOk(LowPieces(base, n, m, v))
    decreases n
  {
    if n > 0 {
      var b := v % 2;
      ShiftMore(m + 1, m + 1, n);
      ShiftMore(2 * m + b + 1, 2 * m + 2, n - 1);
      LowOk(base, n - 1, 2 * m + b, v / 2);
      OneOk(base + m, b, LowPieces(base, n - 1, 2 * m + b, v / 2));
    }
  }

  lemma {:induction false} EvenOk(n: nat, v: nat)
    ensures PiecesOk(EvenPieces(n, v))
    decreases n
  {
    if n > 0 {
      var h := Pow2(n - 1);
      hide Pow2;
      EvenOk(n - 1, if v < h then v else v - h);
    }
  }

  lemma {:induction false} GuidedOk(base: nat, n: nat, like: nat, s: nat, v: nat)
    requires base + 768 <= SIZE && Begun8(s, n)
    ensures PiecesOk(GuidedPieces(base, n, like, s, v))
    decreases n
  {
    hide *;
    if n == 0 {
      GuidedEmpty(base, like, s, v);
    } else {
      var (h, m) := (Pow2(n - 1), like / 128 % 2);
      var b: nat := if v < h then 0 else 1;
      var w: nat := if v < h then v else v - h;
      PiecesOne(base, n, like, s, v);
      BegunNext(s, n, b);
      BegunBelow(2 * s + b, n - 1);
      if b == m {
        GuidedOk(base, n - 1, 2 * like, 2 * s + b, w);
        OneOk(base + (1 + m) * 256 + s, b, GuidedPieces(base, n - 1, 2 * like, 2 * s + b, w));
      } else {
        DownOk(base, n - 1, 2 * s + b, w);
        OneOk(base + (1 + m) * 256 + s, b, DownPieces(base, n - 1, 2 * s + b, w));
      }
    }
  }

  lemma {:induction false} GuidedEmpty(base: nat, like: nat, s: nat, v: nat)
    ensures PiecesOk(GuidedPieces(base, 0, like, s, v))
  {
  }

  lemma {:induction false} BegunBelow(s: nat, n: nat)
    requires Begun8(s, n)
    ensures Shift(s + 1, n) <= 512
  {
    ShiftTimes(s + 1, n);
    PowAdd(8 - n, n);
    SmallPowers();
    var (a, b) := (Pow2(8 - n), Pow2(n));
    hide Pow2, Shift;
    assert (s + 1) * b <= 2 * a * b by { assert (2 * a - (s + 1)) * b >= 0; }
    assert 2 * a * b == 2 * (a * b);
  }

  lemma {:induction false} TreeOk(base: nat, n: nat, v: nat)
    requires base + 2 * Pow2(n) <= SIZE
    ensures PiecesOk(TreePieces(base, n, v))
  {
    ShiftTimes(2, n);
    DownOk(base, n, 1, v);
    hide DownPieces, Shift, Pow2;
  }

  lemma {:induction false} LowTreeOk(base: nat, n: nat, v: nat)
    requires base + 2 * Pow2(n) <= SIZE
    ensures PiecesOk(LowTreePieces(base, n, v))
  {
    ShiftTimes(2, n);
    LowOk(base, n, 1, v);
    hide LowPieces, Shift, Pow2;
  }

  lemma {:induction false} LengthOk(base: nat, ps: nat, v: nat)
    requires v < 272 && ps < 16 && base + 1000 <= SIZE
    ensures PiecesOk(LengthPieces(base, ps, v))
  {
    SmallPowers();
    hide Pow2, TreePieces;
    if v < 8 {
      TreeOk(base + 2 + 8 * ps, 3, v);
    } else if v < 16 {
      TreeOk(base + 130 + 8 * ps, 3, v - 8);
    } else {
      TreeOk(base + 258, 8, v - 16);
    }
  }

  lemma {:induction false} NearBelow(s: nat)
    requires 4 <= s < 14
    ensures SlotBase(s) <= 96 && Pow2(SlotBits(s)) <= 32
  {
    LastNear();
    if s < 13 { SlotGrows(s, 13); }
    PowGrows(SlotBits(s), 5);
    assert Pow2(5) == 32 by { SmallPowers(); }
  }

  lemma {:induction false} FarOk(s: nat, x: nat)
    requires s < 64
    ensures PiecesOk(FarPieces(s, x))
  {
    if 4 <= s < 14 {
      NearBelow(s);
      LowTreeOk(POS + SlotBase(s) - s, SlotBits(s), x);
    } else if s >= 14 {
      EvenOk(SlotBits(s) - 4, x / 16);
      SmallPowers();
      LowTreeOk(ALIGN, 4, x % 16);
      BothOk(EvenPieces(SlotBits(s) - 4, x / 16), LowTreePieces(ALIGN, 4, x % 16));
    }
    hide EvenPieces, LowTreePieces, SlotBase, Pow2;
  }

  lemma {:induction false} DistanceOk(len: nat, d: nat)
    requires SlotOf(d) < 64 && SlotBase(SlotOf(d)) <= d
    ensures PiecesOk(DistancePieces(len, d))
  {
    hide *;
    var s := SlotOf(d);
    var base := SLOT + 64 * (if len < 3 then len else 3);
    SlotPlace(len);
    TreeOk(base, 6, s);
    FarOk(s, d - SlotBase(s));
    BothOk(TreePieces(base, 6, s), FarPieces(s, d - SlotBase(s)));
    DistancePiecesIs(len, d);
  }

  lemma {:induction false} SlotPlace(len: nat)
    ensures SLOT + 64 * (if len < 3 then len else 3) + 2 * Pow2(6) <= SIZE
  {
    SmallPowers();
  }

  lemma {:induction false} DistancePiecesIs(len: nat, d: nat)
    requires SlotOf(d) < 64 && SlotBase(SlotOf(d)) <= d
    ensures DistancePieces(len, d) ==
      TreePieces(SLOT + 64 * (if len < 3 then len else 3), 6, SlotOf(d)) + FarPieces(SlotOf(d), d - SlotBase(SlotOf(d)))
  {
    hide TreePieces, FarPieces, SlotBase, SlotOf;
  }

  lemma {:induction false} LiteralOk(p: Past, h: seq<Byte>, total: nat, b: nat)
    requires PastOk(p)
    ensures PiecesOk(LiteralPieces(p, h, total, b))
  {
    hide *;
    PastIs(p);
    var base := LiteralBase(p, h, total);
    BaseFits(p, h, total);
    LiteralPiecesIs(p, h, total, b);
    EightBits();
    BegunBelow(1, 8);
    if p.state >= 7 { GuidedOk(base, 8, ByteBack(h, p.rep[0] + 1), 1, b); } else { DownOk(base, 8, 1, b); }
  }

  lemma {:induction false} PastIs(p: Past)
    ensures PastOk(p) <==> p.state < 12 && |p.rep| == 4 && p.lc + p.lp <= 4 && p.pb <= 4
  {
  }

  lemma {:induction false} BaseFits(p: Past, h: seq<Byte>, total: nat)
    requires PastOk(p)
    ensures LiteralBase(p, h, total) + 512 <= LiteralBase(p, h, total) + 768 <= SIZE
  {
    Lzma.LiteralFits(total, if total > 0 then ByteBack(h, 1) else 0, p.lc, p.lp);
    hide Context;
  }

  lemma {:induction false} WhichOk(state: nat, ps: nat, w: nat)
    requires state < 12 && ps < 16
    ensures PiecesOk(WhichPieces(state, ps, w)) && PiecesOk(ShortPieces(state, ps))
  {
  }

  lemma {:induction false} MatchOk(state: nat, ps: nat, s: Symbol)
    requires state < 12 && ps < 16 && SymbolOk(s) && !s.Literal?
    ensures PiecesOk(MatchPieces(state, ps, s))
  {
    hide *;
    MatchPiecesIs(state, ps, s);
    SymbolIs(s);
    PlacesFit(state, ps);
    if s.Fresh? {
      LengthOk(LEN, ps, s.len - 2);
      DistanceOk(s.len - 2, s.dist);
      BothOk(LengthPieces(LEN, ps, s.len - 2), DistancePieces(s.len - 2, s.dist));
      FreshPiecesIs(ps, s.dist, s.len);
      OneOk(IS_REP + state, 0, FreshPieces(ps, s.dist, s.len));
    } else {
      AgainPiecesIs(state, ps, s);
      WhichOk(state, ps, if s.Again? then s.which else 0);
      if s.Again? {
        LengthOk(REP_LEN, ps, s.len - 2);
        BothOk(WhichPieces(state, ps, s.which), LengthPieces(REP_LEN, ps, s.len - 2));
      }
      OneOk(IS_REP + state, 1, AgainPieces(state, ps, s));
    }
  }

  lemma {:induction false} FreshPiecesIs(ps: nat, d: nat, n: nat)
    requires 2 <= n <= 273 && SlotOf(d) < 64 && SlotBase(SlotOf(d)) <= d
    ensures FreshPieces(ps, d, n) == LengthPieces(LEN, ps, n - 2) + DistancePieces(n - 2, d)
  {
    hide LengthPieces, DistancePieces, SlotOf, SlotBase;
  }

  lemma {:induction false} PlacesFit(state: nat, ps: nat)
    requires state < 12 && ps < 16
    ensures IS_REP + state < SIZE && LEN + 1000 <= SIZE && REP_LEN + 1000 <= SIZE && IS_MATCH + (16 * state + ps) < SIZE
  {
  }

  lemma {:induction false} SymbolFits(p: Past, h: seq<Byte>, total: nat, s: Symbol)
    requires PastOk(p) && SymbolOk(s)
    ensures PiecesOk(SymbolPieces(p, h, total, s)) && PastOk(PastAfter(p, s))
  {
    hide *;
    PastStays(p, s);
    PastIs(p);
    PlaceBelow(total, p.pb);
    var ps := PlaceOf(total, p.pb);
    PlacesFit(p.state, ps);
    var i := IS_MATCH + (16 * p.state + ps);
    SymbolPiecesIs(p, h, total, s);
    if s.Literal? {
      LiteralOk(p, h, total, s.byte);
      OneOk(i, 0, LiteralPieces(p, h, total, s.byte));
    } else {
      MatchOk(p.state, ps, s);
      OneOk(i, 1, MatchPieces(p.state, ps, s));
    }
  }

  lemma {:induction false} PastStays(p: Past, s: Symbol)
    requires PastOk(p)
    ensures PastOk(PastAfter(p, s))
  {
    StateSays(p.state, s);
    hide StateAfter, RepAfter;
  }

  lemma {:induction false} PlaceBelow(total: nat, pb: nat)
    requires pb <= 4
    ensures PlaceOf(total, pb) < 16
  {
    Lzma.PlaceFits(pb);
  }

  lemma {:induction false} ChunkFits(size: nat, z: Sit, ss: seq<Symbol>, left: nat)
    requires SitOk(z) && PastOk(z.past) && AllOk(ss) && PlayAll(size, z, ss, left).Some?
    ensures PiecesOk(ChunkPieces(size, z, ss, left))
    decreases |ss|
  {
    hide *;
    if left == 0 {
      NonePieces(size, z, ss);
    } else {
      FirstSymbol(size, z, ss, left);
      var n := Play(size, z, z.k, ss[0], left).value;
      SymbolFits(z.past, z.history, z.total, ss[0]);
      PlayPast(size, z, ss[0], left);
      PastIs(z.past);
      ChunkFits(size, n, ss[1..], left - Bytes(ss[0]));
      BothOk(SymbolPieces(z.past, z.history, z.total, ss[0]), ChunkPieces(size, n, ss[1..], left - Bytes(ss[0])));
    }
  }

  lemma {:induction false} NonePieces(size: nat, z: Sit, ss: seq<Symbol>)
    requires SitOk(z) && AllOk(ss)
    ensures PiecesOk(ChunkPieces(size, z, ss, 0))
  {
  }

  lemma {:induction false} PlayPast(size: nat, z: Sit, s: Symbol, left: nat)
    requires SitOk(z) && left > 0
    ensures var n := Play(size, z, z.k, s, left); n.Some? ==> n.value.past == PastAfter(z.past, s)
  {
    hide PastAfter, Copied;
  }

  /** What writing these symbols as a chunk comes to. */
  ghost function ChunkEnds(size: nat, z: Sit, ss: seq<Symbol>, left: nat): (e: Ends)
    requires SitOk(z) && PastOk(z.past) && AllLikely(z.k.probs) && AllOk(ss) && PlayAll(size, z, ss, left).Some?
  {
    ChunkFits(size, z, ss, left);
    WrittenAll(Opening(z.k.probs), ChunkPieces(size, z, ss, left))
  }

  lemma {:induction false} ChunkEndsIs(size: nat, z: Sit, ss: seq<Symbol>, left: nat)
    requires SitOk(z) && PastOk(z.past) && AllLikely(z.k.probs) && AllOk(ss) && PlayAll(size, z, ss, left).Some?
    ensures PiecesOk(ChunkPieces(size, z, ss, left)) && |z.k.probs| == SIZE
    ensures ChunkEnds(size, z, ss, left) == WrittenAll(Opening(z.k.probs), ChunkPieces(size, z, ss, left))
  {
    ChunkFits(size, z, ss, left);
    hide ChunkPieces, WrittenAll, PlayAll;
  }

  /**
   * Whatever symbols are allowed can be written as a chunk, and the chunk reads as what they stand
   * for: so every output is some chunk's, and no chunk is two outputs'.
   */
  lemma {:induction false} RoundTrip(size: nat, z: Sit, ss: seq<Symbol>, left: nat, input: seq<Byte>, at: nat)
    requires SitOk(z) && PastOk(z.past) && AllLikely(z.k.probs) && AllOk(ss) && PlayAll(size, z, ss, left).Some?
    requires var e := ChunkEnds(size, z, ss, left);
      at + 5 + e.more <= |input| && input[at + 1..at + 1 + (4 + e.more)] == Digits(e.low, 4 + e.more)
    ensures SitOk(z.(k := Opened(input, z.k.probs, at)))
    ensures var r := Chunk(input, size, z.(k := Opened(input, z.k.probs, at)), left);
      var y := PlayAll(size, z, ss, left).value;
      r.Some? && r.value.history == y.history && r.value.total == y.total && r.value.past == y.past && !r.value.k.bad
  {
    hide *;
    ChunkEndsIs(size, z, ss, left);
    var ps := ChunkPieces(size, z, ss, left);
    var k := Opened(input, z.k.probs, at);
    WrittenReads(z.k.probs, ps, input, at);
    CoderApart(size, z, k, ss, left);
    ChunkReads(input, size, z.(k := k), ss, left);
  }
}
