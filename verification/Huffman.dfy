/**
 * Canonical Huffman codes: the ones section 3.2.2 of RFC 1951 gives a list of code
 * lengths, and the tables by which src/tuxpac/unpack.c decodes them.
 */
module Huffman {
  import opened Base
  import opened Bits

  /** Codes have 1 to 15 bits; a symbol of length 0 has none. */
  const TOP: nat := 15
  const SYMBOLS: nat := 288

  ghost predicate Lengths(L: seq<nat>)
  {
    forall s :: 0 <= s < |L| ==> L[s] <= TOP
  }

  /** How many symbols have this length. */
  function Count(L: seq<nat>, l: nat): (r: nat)
  {
    if L == [] then 0 else Count(L[..|L| - 1], l) + if L[|L| - 1] == l then 1 else 0
  }

  /** The first code of length l: one past the last one shorter, with a zero after it. */
  function First(L: seq<nat>, l: nat): (r: nat)
  {
    if l <= 1 then 0 else 2 * (First(L, l - 1) + Count(L, l - 1))
  }

  ghost predicate Coded(L: seq<nat>, s: nat)
  {
    s < |L| && 0 < L[s] <= TOP
  }

  /** Symbols before s of its length. */
  function Rank(L: seq<nat>, s: nat): (r: nat)
    requires s < |L|
  {
    Count(L[..s], L[s])
  }

  /** The code of symbol s: codes of one length go up with the symbols. */
  function Code(L: seq<nat>, s: nat): (r: nat)
    requires s < |L|
  {
    First(L, L[s]) + Rank(L, s)
  }

  function Word(L: seq<nat>, s: nat): (r: seq<Bit>)
    requires s < |L|
    ensures |r| == L[s]
  {
    Msb(Code(L, s), L[s])
  }

  /** What symbols take up of the space of codes, in parts of 2^15. */
  function Weight(L: seq<nat>): (r: nat)
  {
    if L == [] then 0
    else Weight(L[..|L| - 1]) + (var l := L[|L| - 1]; if 0 < l <= TOP then Pow2(TOP - l) else 0)
  }

  ghost predicate Oversubscribed(L: seq<nat>)
  {
    Weight(L) > Pow2(TOP)
  }

  ghost predicate Uncoded(L: seq<nat>)
  {
    forall s :: 0 <= s < |L| ==> L[s] == 0
  }

  // ---- counting

  lemma {:induction false} CountUpTo(L: seq<nat>, s: nat, t: nat, l: nat)
    requires s <= t <= |L|
    ensures Count(L[..s], l) <= Count(L[..t], l) <= Count(L[..s], l) + (t - s)
    ensures s < t && L[s] == l ==> Count(L[..s], l) < Count(L[..t], l)
    decreases t - s
  {
    if s < t {
      assert L[..t][..t - 1] == L[..t - 1];
      CountUpTo(L, s, t - 1, l);
    }
  }

  lemma {:induction false} RankBelow(L: seq<nat>, s: nat)
    requires s < |L|
    ensures Rank(L, s) < Count(L, L[s])
  {
    CountUpTo(L, s, |L|, L[s]);
    assert L[..|L|] == L;
  }

  /** The j-th symbol of length l. */
  ghost function Nth(L: seq<nat>, l: nat, j: nat): (s: nat)
    requires j < Count(L, l)
    ensures s < |L| && L[s] == l && Rank(L, s) == j
  {
    var m := |L| - 1;
    if L[m] == l && Count(L[..m], l) == j then m
    else
      var s := Nth(L[..m], l, j);
      assert L[..m][..s] == L[..s];
      s
  }

  lemma {:induction false} RankOnce(L: seq<nat>, s: nat, t: nat)
    requires s < |L| && t < |L| && L[s] == L[t] && Rank(L, s) == Rank(L, t)
    ensures s == t
  {
    if s < t { CountUpTo(L, s, t, L[s]); }
    if t < s { CountUpTo(L, t, s, L[s]); }
  }

  // ---- what is left of the code space

  /** Codes of length l that no symbol of that length or shorter has used up; negative when too many have. */
  function Left(L: seq<nat>, l: nat): (r: int)
  {
    if l == 0 then 1 else 2 * Left(L, l - 1) - Count(L, l)
  }

  lemma {:induction false} LeftIs(L: seq<nat>, l: nat)
    requires l > 0
    ensures First(L, l) + Count(L, l) + Left(L, l) == Pow2(l)
  {
    if l > 1 { LeftIs(L, l - 1); } else { assert Left(L, 0) == 1; }
  }

  lemma {:induction false} LeftDrops(L: seq<nat>, k: nat, l: nat)
    ensures Left(L + [k], l) == Left(L, l) - if 0 < k <= l then Pow2(l - k) else 0
  {
    if l > 0 {
      LeftDrops(L, k, l - 1);
      CountNext(L, k, l);
    }
  }

  lemma {:induction false} CountNext(L: seq<nat>, k: nat, l: nat)
    ensures Count(L + [k], l) == Count(L, l) + if k == l then 1 else 0
  {
    assert (L + [k])[..|L|] == L;
  }

  lemma {:induction false} LeftNone(l: nat)
    ensures Left([], l) == Pow2(l)
  {
    if l > 0 { LeftNone(l - 1); }
  }

  /** Level by level or symbol by symbol, the same space is left. */
  lemma {:induction false} LeftIsUnused(L: seq<nat>)
    requires Lengths(L)
    ensures Left(L, TOP) == Pow2(TOP) - Weight(L)
  {
    hide Left, Pow2;
    if L == [] {
      LeftNone(TOP);
    } else {
      var m := |L| - 1;
      LeftIsUnused(L[..m]);
      LeftDrops(L[..m], L[m], TOP);
      assert L[..m] + [L[m]] == L;
    }
  }

  /** Once too many, too many for good; and enough at the end was enough all along. */
  lemma {:induction false} LeftSinks(L: seq<nat>, l: nat, m: nat)
    requires l <= m && Left(L, l) < 0
    ensures Left(L, m) < 0
    decreases m - l
  {
    if l < m {
      LeftSinks(L, l, m - 1);
    }
  }

  lemma {:induction false} Fits(L: seq<nat>, l: nat)
    requires Lengths(L) && !Oversubscribed(L) && 0 < l <= TOP
    ensures First(L, l) + Count(L, l) <= Pow2(l)
  {
    hide Left, Pow2, First;
    LeftIsUnused(L);
    LeftIs(L, l);
    if Left(L, l) < 0 { LeftSinks(L, l, TOP); }
  }

  // ---- no code begins another

  lemma {:induction false} CodeFits(L: seq<nat>, s: nat)
    requires Lengths(L) && !Oversubscribed(L) && Coded(L, s)
    ensures First(L, L[s]) <= Code(L, s) < First(L, L[s]) + Count(L, L[s]) <= Pow2(L[s])
  {
    hide First, Count, Pow2, Weight;
    RankBelow(L, s);
    Fits(L, L[s]);
  }

  /** A value of l bits that is past the codes of l bits is no code's beginning. */
  lemma {:induction false} NotShort(L: seq<nat>, s: nat, bs: seq<Bit>, p: nat, c: nat, l: nat)
    requires Lengths(L) && !Oversubscribed(L) && Coded(L, s) && L[s] <= l <= TOP
    requires At(bs, p, Msb(c, l)) && First(L, l) + Count(L, l) <= c < Pow2(l)
    ensures !At(bs, p, Word(L, s))
  {
    hide Msb, Pow2, First, Count, Rank, Weight;
    CodeFits(L, s);
    var n := L[s];
    if At(bs, p, Word(L, s)) {
      var d := Shorter(L, c, l, n);
      assert bs[p..p + n] == bs[p..p + l][..n];
      MsbOnce(d, Code(L, s), n);
    }
  }

  lemma {:induction false} Shorter(L: seq<nat>, c: nat, l: nat, n: nat) returns (d: nat)
    requires 0 < n <= l && First(L, l) + Count(L, l) <= c < Pow2(l)
    ensures First(L, n) + Count(L, n) <= d < Pow2(n) && Msb(c, l)[..n] == Msb(d, n)
    decreases l
  {
    d := c;
    if n < l {
      d := Shorter(L, c / 2, l - 1, n);
      assert Msb(c, l)[..n] == Msb(c, l)[..l - 1][..n];
    }
  }

  /** Two codes at one place are one symbol's. */
  lemma {:induction false} PrefixFree(L: seq<nat>, s: nat, t: nat, bs: seq<Bit>, p: nat)
    requires Lengths(L) && !Oversubscribed(L) && Coded(L, s) && Coded(L, t)
    requires At(bs, p, Word(L, s)) && At(bs, p, Word(L, t))
    ensures s == t
  {
    if L[s] == L[t] {
      CodeFits(L, s);
      CodeFits(L, t);
      MsbOnce(Code(L, s), Code(L, t), L[s]);
      RankOnce(L, s, t);
    } else if L[s] < L[t] {
      PrefixApart(L, s, t, bs, p);
    } else {
      PrefixApart(L, t, s, bs, p);
    }
  }

  lemma {:induction false} PrefixApart(L: seq<nat>, s: nat, t: nat, bs: seq<Bit>, p: nat)
    requires Lengths(L) && !Oversubscribed(L) && Coded(L, s) && Coded(L, t) && L[s] < L[t]
    ensures !(At(bs, p, Word(L, s)) && At(bs, p, Word(L, t)))
  {
    hide Msb, Pow2, First, Count, Rank, Weight;
    if At(bs, p, Word(L, s)) && At(bs, p, Word(L, t)) {
      CodeFits(L, s);
      CodeFits(L, t);
      var n := L[s];
      var c := PastShorterFits(L, Code(L, t), L[t], n);
      assert bs[p..p + n] == bs[p..p + L[t]][..n];
      MsbOnce(c, Code(L, s), n);
    }
  }

  lemma {:induction false} PastShorterFits(L: seq<nat>, v: nat, l: nat, n: nat) returns (c: nat)
    requires 0 < n < l && First(L, l) <= v < Pow2(l)
    ensures First(L, n) + Count(L, n) <= c < Pow2(n) && Msb(v, l)[..n] == Msb(c, n)
  {
    c := Shorter(L, v / 2, l - 1, n);
    assert Msb(v, l)[..n] == Msb(v, l)[..l - 1][..n];
  }

  // ---- the tables

  /** Where the symbols of length l begin, sorted by length. */
  function Offset(L: seq<nat>, l: nat): (r: nat)
  {
    if l <= 1 then 0 else Offset(L, l - 1) + Count(L, l - 1)
  }

  function Place(L: seq<nat>, s: nat): (r: nat)
    requires s < |L|
  {
    Offset(L, L[s]) + Rank(L, s)
  }

  lemma {:induction false} OffsetNext(L: seq<nat>, k: nat, l: nat)
    ensures Offset(L + [k], l) == Offset(L, l) + if 0 < k < l then 1 else 0
  {
    if l > 1 {
      OffsetNext(L, k, l - 1);
      CountNext(L, k, l - 1);
    }
  }

  lemma {:induction false} OffsetFits(L: seq<nat>, l: nat)
    ensures Offset(L, l) <= |L|
  {
    if L == [] {
      OffsetNone(l);
    } else {
      var m := |L| - 1;
      OffsetFits(L[..m], l);
      OffsetNext(L[..m], L[m], l);
      assert L[..m] + [L[m]] == L;
    }
  }

  lemma {:induction false} OffsetNone(l: nat)
    ensures Offset([], l) == 0
  {
    if l > 1 { OffsetNone(l - 1); }
  }

  lemma {:induction false} OffsetGrows(L: seq<nat>, l: nat, m: nat)
    requires 0 < l < m
    ensures Offset(L, l) + Count(L, l) <= Offset(L, m)
    decreases m
  {
    if l < m - 1 { OffsetGrows(L, l, m - 1); }
  }

  lemma {:induction false} PlaceFits(L: seq<nat>, s: nat)
    requires s < |L| && L[s] > 0
    ensures Place(L, s) < |L|
  {
    RankBelow(L, s);
    OffsetFits(L, L[s] + 1);
  }

  lemma {:induction false} PlaceOnce(L: seq<nat>, s: nat, t: nat)
    requires s < |L| && t < |L| && L[s] > 0 && L[t] > 0 && s != t
    ensures Place(L, s) != Place(L, t)
  {
    hide Offset, Count;
    RankBelow(L, s);
    RankBelow(L, t);
    if L[s] < L[t] { OffsetGrows(L, L[s], L[t]); }
    if L[t] < L[s] { OffsetGrows(L, L[t], L[s]); }
    if Rank(L, s) == Rank(L, t) && L[s] == L[t] { RankOnce(L, s, t); }
  }

  ghost predicate Counted(count: seq<nat>, L: seq<nat>)
  {
    |count| == TOP + 1 && forall l: nat :: l <= TOP ==> count[l] == Count(L, l)
  }

  /** The first n symbols are where their codes will look for them. */
  ghost predicate Sorted(symbol: seq<nat>, L: seq<nat>, n: nat)
  {
    |symbol| == SYMBOLS && n <= |L| <= SYMBOLS
    && forall s: nat :: s < n && L[s] > 0 ==> Filed(symbol, L, s)
  }

  ghost predicate Filed(symbol: seq<nat>, L: seq<nat>, s: nat)
    requires s < |L|
  {
    Place(L, s) < |symbol| && symbol[Place(L, s)] == s
  }

  lemma {:induction false} FiledNext(symbol: seq<nat>, L: seq<nat>, s: nat)
    requires Sorted(symbol, L, s) && s < |L| && L[s] > 0
    ensures Place(L, s) < |symbol| && Sorted(symbol[Place(L, s) := s], L, s + 1)
  {
    hide Place;
    PlaceFits(L, s);
    var symbol' := symbol[Place(L, s) := s];
    forall t: nat | t < s + 1 && L[t] > 0 ensures Filed(symbol', L, t) {
      if t < s {
        assert Filed(symbol, L, t);
        PlaceOnce(L, t, s);
      }
    }
  }

  lemma {:induction false} CountZeroes(L: seq<nat>)
    ensures Count(L, 0) <= |L| && (Count(L, 0) == |L| <==> Uncoded(L))
  {
    if L != [] {
      var m := |L| - 1;
      CountZeroes(L[..m]);
      assert L == L[..m] + [L[m]];
    }
  }

  lemma {:induction false} UncodedWeighs(L: seq<nat>)
    requires Uncoded(L)
    ensures Weight(L) == 0
  {
    if L != [] { UncodedWeighs(L[..|L| - 1]); }
  }

  class Huff {
    var count: seq<nat>
    var symbol: seq<nat>

    /** These are the tables of the code with lengths L. */
    ghost predicate Decodes(L: seq<nat>)
      reads this
    {
      Lengths(L) && !Oversubscribed(L) && Counted(count, L) && Sorted(symbol, L, |L|)
    }

    constructor ()
      ensures |count| == TOP + 1 && |symbol| == SYMBOLS
    {
      count, symbol := seq(TOP + 1, _ => 0), seq(SYMBOLS, _ => 0);
    }

    /**
     * The tables for these lengths, and how much of the code space they leave: negative
     * exactly when there are too many short codes for any prefix-free code to exist.
     */
    method Construct(length: seq<nat>) returns (left: int)
      requires Lengths(length) && |length| <= SYMBOLS && |symbol| == SYMBOLS
      modifies this
      ensures left < 0 <==> Oversubscribed(length)
      ensures left == 0 <==> Uncoded(length) || Weight(length) == Pow2(TOP)
      ensures left >= 0 ==> Decodes(length)
      ensures |symbol| == SYMBOLS && Counted(count, length)
    {
      hide Count, Left, Pow2, Weight, Sorted;
      ghost var L := length;
      CountAll(L);
      count := CountLengths(length);
      if count[0] == |length| {
        UncodedWeighs(L);
        SortedNone(symbol, L);
        return 0;
      }
      left := 1;
      LeftIsUnused(L);
      LeftStart(L);
      for len := 1 to TOP + 1
        invariant left == Left(L, len - 1) && left >= 0
        invariant |symbol| == SYMBOLS && Counted(count, L)
      {
        LeftNext(L, len);
        left := 2 * left - count[len];
        if left < 0 {
          LeftSinks(L, len, TOP);
          return;
        }
      }
      SortSymbols(length);
    }

    /** The symbols by length, and by number within a length. */
    method SortSymbols(length: seq<nat>)
      requires Lengths(length) && |length| <= SYMBOLS && |symbol| == SYMBOLS && Counted(count, length)
      modifies this`symbol
      ensures |symbol| == SYMBOLS && Sorted(symbol, length, |length|)
    {
      hide Count, Sorted, Offset;
      ghost var L := length;
      var offs := Offsets(count, length);
      SortedStart(symbol, L);
      for s := 0 to |length|
        invariant |offs| == TOP + 1 && |symbol| == SYMBOLS && Sorted(symbol, L, s)
        invariant forall l: nat :: 0 < l <= TOP ==> offs[l] == Offset(L, l) + Count(L[..s], l)
      {
        CountedMore(L, s);
        if length[s] != 0 {
          FiledNext(symbol, L, s);
          var l := length[s];
          symbol := symbol[offs[l] := s];
          offs := offs[l := offs[l] + 1];
        } else {
          SortedSkip(symbol, L, s);
        }
      }
    }

    /**
     * The symbol whose code the stream has next, and -1 when it has none's. Its bits,
     * and no others, are taken. The source turns bad only where no code is.
     */
    method Decode(r: Reader, ghost L: seq<nat>) returns (sym: int)
      requires r.Valid() && Decodes(L)
      modifies r
      ensures r.Valid() && -1 <= sym < |L| && (sym >= 0 ==> Coded(L, sym)) && (old(r.bad) ==> r.bad)
      ensures !r.bad && sym >= 0 ==> At(r.Stream(), old(r.Here()), Word(L, sym)) && r.Here() == old(r.Here()) + L[sym]
      ensures !old(r.bad) ==> forall s: nat :: Coded(L, s) && At(r.Stream(), old(r.Here()), Word(L, s)) ==>
        !r.bad && sym == s
    {
      hide *;
      ghost var bs, p := r.Stream(), r.Here();
      var code, first, index: nat := 0, 0, 0;
      ghost var c: nat := 0;
      Begin(L, bs, p, r);
      Usable(L);
      for len := 1 to TOP + 1
        invariant r.Valid() && (old(r.bad) ==> r.bad)
        invariant index == Offset(L, len) && first == First(L, len) && first <= code
        invariant !r.bad ==> r.Here() == p + len - 1 && code == 2 * c && Beyond(L, bs, p, c, len - 1)
        invariant !old(r.bad) && r.bad ==> Nowhere(L, bs, p)
      {
        ghost var was := r.bad;
        var b := r.Take(1);
        OneBit(b);
        if !r.bad { More(L, bs, p, c, b, len); }
        if r.bad && !was { RanOut(L, bs, p, c, len); }
        code := code + b;
        CountIs(L, len);
        var n := count[len];
        NextLevel(L, len);
        if code < first + n {
          ghost var s := LookUp(L, len, code - first);
          if !r.bad { Found(L, bs, p, s, len); } else if !old(r.bad) { NoWord(L, bs, p); }
          return symbol[index + (code - first)];
        }
        if !r.bad { Missed(L, bs, p, code, len); }
        index := index + n;
        first := 2 * (first + n);
        c := code;
        code := 2 * code;
      }
      if !r.bad {
        NoneLeft(L, bs, p, c);
      }
      if !old(r.bad) { NoWord(L, bs, p); }
      sym := -1;
    }

    lemma {:induction false} Usable(L: seq<nat>)
      requires Decodes(L)
      ensures Lengths(L) && !Oversubscribed(L)
    {
    }

    lemma {:induction false} CountIs(L: seq<nat>, l: nat)
      requires Decodes(L) && 0 < l <= TOP
      ensures |count| == TOP + 1 && count[l] == Count(L, l)
    {
    }

    lemma {:induction false} LookUp(L: seq<nat>, l: nat, j: nat) returns (s: nat)
      requires Decodes(L) && 0 < l <= TOP && j < Count(L, l)
      ensures Coded(L, s) && L[s] == l && Rank(L, s) == j
      ensures Offset(L, l) + j < |symbol| && symbol[Offset(L, l) + j] == s
    {
      s := Nth(L, l, j);
      assert Filed(symbol, L, s);
    }
  }

  // ---- what decoding knows along the way

  /** The l bits at p are c, which is past every code of l bits. */
  ghost predicate Beyond(L: seq<nat>, bs: seq<Bit>, p: nat, c: nat, l: nat)
  {
    Reads(bs, p, c, l) && (l > 0 ==> First(L, l) + Count(L, l) <= c)
  }

  ghost predicate Reads(bs: seq<Bit>, p: nat, c: nat, l: nat)
  {
    At(bs, p, Msb(c, l)) && c < Pow2(l)
  }

  /** No code stands at p. */
  ghost predicate Nowhere(L: seq<nat>, bs: seq<Bit>, p: nat)
  {
    forall s: nat :: Coded(L, s) ==> !At(bs, p, Word(L, s))
  }

  lemma {:induction false} NoWord(L: seq<nat>, bs: seq<Bit>, p: nat)
    requires Nowhere(L, bs, p)
    ensures forall s: nat :: Coded(L, s) ==> !At(bs, p, Word(L, s))
  {
  }

  lemma {:induction false} Begin(L: seq<nat>, bs: seq<Bit>, p: nat, r: Reader)
    requires r.Valid() && bs == r.Stream() && p == r.Here()
    ensures First(L, 1) == 0 == Offset(L, 1) && (!r.bad ==> Beyond(L, bs, p, 0, 0))
    ensures TOP == 15 && |bs| == 8 * |r.input|
  {
  }

  lemma {:induction false} NextLevel(L: seq<nat>, l: nat)
    requires 0 < l
    ensures First(L, l + 1) == 2 * (First(L, l) + Count(L, l)) && Offset(L, l + 1) == Offset(L, l) + Count(L, l)
  {
  }

  lemma {:induction false} OneBit(b: nat)
    requires b < Pow2(1)
    ensures b < 2 && Lsb(b, 1) == [b]
  {
    assert Pow2(0) == 1;
  }

  lemma {:induction false} More(L: seq<nat>, bs: seq<Bit>, p: nat, c: nat, b: Bit, l: nat)
    requires l > 0 && Beyond(L, bs, p, c, l - 1) && At(bs, p + l - 1, [b])
    ensures Reads(bs, p, 2 * c + b, l)
  {
    AtBoth(bs, p, Msb(c, l - 1), [b]);
  }

  lemma {:induction false} Missed(L: seq<nat>, bs: seq<Bit>, p: nat, c: nat, l: nat)
    requires Reads(bs, p, c, l) && First(L, l) + Count(L, l) <= c
    ensures Beyond(L, bs, p, c, l)
  {
  }

  lemma {:induction false} RanOut(L: seq<nat>, bs: seq<Bit>, p: nat, c: nat, l: nat)
    requires Lengths(L) && !Oversubscribed(L) && 0 < l <= TOP && Beyond(L, bs, p, c, l - 1) && p + l > |bs|
    ensures Nowhere(L, bs, p)
  {
    hide Msb, Pow2, First, Count, Code, Weight;
    forall s: nat | Coded(L, s) ensures !At(bs, p, Word(L, s)) {
      if L[s] < l { NotShort(L, s, bs, p, c, l - 1); }
    }
  }

  lemma {:induction false} NoneLeft(L: seq<nat>, bs: seq<Bit>, p: nat, c: nat)
    requires Lengths(L) && !Oversubscribed(L) && Beyond(L, bs, p, c, TOP)
    ensures Nowhere(L, bs, p)
  {
    hide Msb, Pow2, First, Count, Code, Weight;
    forall s: nat | Coded(L, s) ensures !At(bs, p, Word(L, s)) {
      NotShort(L, s, bs, p, c, TOP);
    }
  }

  lemma {:induction false} Found(L: seq<nat>, bs: seq<Bit>, p: nat, s: nat, l: nat)
    requires Lengths(L) && !Oversubscribed(L) && Coded(L, s) && L[s] == l && Reads(bs, p, First(L, l) + Rank(L, s), l)
    ensures At(bs, p, Word(L, s)) && forall t: nat :: Coded(L, t) && At(bs, p, Word(L, t)) ==> t == s
  {
    hide Msb, Pow2, First, Count, Rank, Weight;
    assert At(bs, p, Word(L, s));
    forall t: nat | Coded(L, t) && At(bs, p, Word(L, t)) ensures t == s {
      PrefixFree(L, s, t, bs, p);
    }
  }

  method CountLengths(length: seq<nat>) returns (count: seq<nat>)
    requires Lengths(length)
    ensures Counted(count, length)
  {
    hide Count;
    count := seq(TOP + 1, _ => 0);
    CountNone();
    assert length[..0] == [];
    for s := 0 to |length|
      invariant Counted(count, length[..s])
    {
      CountedMore(length, s);
      count := count[length[s] := count[length[s]] + 1];
    }
    assert length[..|length|] == length;
  }

  lemma {:induction false} CountNone()
    ensures forall l: nat :: Count([], l) == 0
  {
  }

  lemma {:induction false} CountedMore(L: seq<nat>, s: nat)
    requires s < |L|
    ensures forall l: nat :: Count(L[..s + 1], l) == Count(L[..s], l) + if L[s] == l then 1 else 0
  {
    assert L[..s + 1][..s] == L[..s];
  }

  lemma {:induction false} CountAll(L: seq<nat>)
    ensures Count(L, 0) == |L| <==> Uncoded(L)
  {
    CountZeroes(L);
  }

  lemma {:induction false} SortedNone(symbol: seq<nat>, L: seq<nat>)
    requires Uncoded(L) && |symbol| == SYMBOLS && |L| <= SYMBOLS
    ensures Sorted(symbol, L, |L|)
  {
  }

  lemma {:induction false} SortedStart(symbol: seq<nat>, L: seq<nat>)
    requires |symbol| == SYMBOLS && |L| <= SYMBOLS
    ensures Sorted(symbol, L, 0)
    ensures forall l: nat :: Count(L[..0], l) == 0
  {
  }

  lemma {:induction false} SortedSkip(symbol: seq<nat>, L: seq<nat>, s: nat)
    requires Sorted(symbol, L, s) && s < |L| && L[s] == 0
    ensures Sorted(symbol, L, s + 1)
  {
    hide Filed;
  }

  lemma {:induction false} LeftStart(L: seq<nat>)
    ensures Left(L, 0) == 1
  {
  }

  lemma {:induction false} LeftNext(L: seq<nat>, l: nat)
    requires l > 0
    ensures Left(L, l) == 2 * Left(L, l - 1) - Count(L, l)
  {
  }

  method Offsets(count: seq<nat>, ghost L: seq<nat>) returns (offs: seq<nat>)
    requires Counted(count, L)
    ensures |offs| == TOP + 1 && forall l: nat :: 0 < l <= TOP ==> offs[l] == Offset(L, l)
  {
    hide Count;
    offs := seq(TOP + 1, _ => 0);
    for len := 1 to TOP
      invariant |offs| == TOP + 1 && forall l: nat :: 0 < l <= len ==> offs[l] == Offset(L, l)
    {
      offs := offs[len + 1 := offs[len] + count[len]];
    }
  }
}
