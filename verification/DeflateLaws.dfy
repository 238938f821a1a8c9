/**
 * What RFC 1951 and RFC 1952 say of the tables and fields that Deflate spells out: where
 * each length and distance has its symbol, and where the parts of a header stand.
 */
module DeflateLaws {
  import opened Base
  import opened Bits
  import opened Deflate

  // ---- lengths, section 3.2.5 of RFC 1951

  /** A length symbol takes over where the one before it ends, but for the last, which is 258 by itself. */
  lemma {:induction false} LengthTable(l: nat)
    requires l < 29
    ensures LengthExtra(l) == if l < 8 || l == 28 then 0 else l / 4 - 1
    ensures LengthBase(0) == 3 && LengthBase(28) == 258
    ensures l < 27 ==> LengthBase(l + 1) == LengthBase(l) + Pow2(LengthExtra(l))
    ensures l == 27 ==> LengthBase(28) == LengthBase(l) + Pow2(LengthExtra(l)) - 1
  {
    assert Pow2(1) == 2 && Pow2(2) == 4 && Pow2(3) == 8 && Pow2(4) == 16 && Pow2(5) == 32;
  }

  /** Symbol l with extra bits x stands for length n. */
  ghost predicate LengthIs(l: nat, x: nat, n: nat)
  {
    l < 29 && x < Pow2(LengthExtra(l)) && LengthBase(l) + x == n
  }

  lemma {:induction false} LengthGrows(l: nat, m: nat)
    requires l < m <= 27
    ensures LengthBase(l) + Pow2(LengthExtra(l)) <= LengthBase(m)
    decreases m
  {
    hide LengthBase, LengthExtra, Pow2;
    LengthTable(m - 1);
    if l < m - 1 { LengthGrows(l, m - 1); }
  }

  lemma {:induction false} LengthFrom(n: nat, m: nat) returns (l: nat)
    requires m <= 27 && 3 <= n < LengthBase(m) + Pow2(LengthExtra(m))
    ensures l <= m && LengthBase(l) <= n && LengthIs(l, n - LengthBase(l), n)
    decreases m
  {
    hide LengthBase, LengthExtra, Pow2;
    LengthTable(m);
    if LengthBase(m) <= n {
      l := m;
    } else {
      LengthTable(m - 1);
      l := LengthFrom(n, m - 1);
    }
  }

  /** Every length from 3 to 258 has a symbol and extra bits; only 258 has two. */
  lemma {:induction false} LengthOnce(n: nat)
    ensures 3 <= n <= 258 <==> exists l: nat, x: nat :: LengthIs(l, x, n)
    ensures forall l: nat, x: nat, m: nat, y: nat :: LengthIs(l, x, n) && LengthIs(m, y, n) && n != 258 ==>
      l == m && x == y
    ensures forall l: nat, x: nat :: LengthIs(l, x, 258) <==> (l == 28 && x == 0) || (l == 27 && x == 31)
  {
    hide LengthBase, LengthExtra, Pow2;
    LengthTable(0);
    LengthEnds();
    if 3 <= n <= 258 {
      var l := LengthFrom(n, 27);
      assert LengthIs(l, n - LengthBase(l), n);
    }
    forall l: nat, x: nat | LengthIs(l, x, n) ensures 3 <= n <= 258 && (n == 258 ==> l >= 27)
      && (l == 28 ==> n == 258) {
      if 0 < l <= 27 { LengthGrows(0, l); }
      if l < 27 { LengthGrows(l, 27); }
    }
    forall l: nat, x: nat, m: nat, y: nat | LengthIs(l, x, n) && LengthIs(m, y, n) && n != 258 ensures l == m {
      if l < m { LengthGrows(l, m); }
      if m < l { LengthGrows(m, l); }
    }
    forall l: nat, x: nat ensures LengthIs(l, x, 258) <==> (l == 28 && x == 0) || (l == 27 && x == 31) {
      if l < 27 { LengthGrows(l, 27); }
    }
  }

  lemma {:induction false} LengthEnds()
    ensures LengthBase(27) == 227 && Pow2(LengthExtra(27)) == 32 && LengthBase(28) == 258 && Pow2(LengthExtra(28)) == 1
    ensures forall l: nat, x: nat, n: nat :: LengthIs(l, x, n) <==>
      l < 29 && x < Pow2(LengthExtra(l)) && LengthBase(l) + x == n
  {
    assert Pow2(2) == 4;
  }

  // ---- distances

  lemma {:induction false} DistanceTable(d: nat)
    requires d < 30
    ensures DistExtra(d) == if d < 2 then 0 else d / 2 - 1
    ensures DistBase(0) == 1
    ensures d < 29 ==> DistBase(d + 1) == DistBase(d) + Pow2(DistExtra(d))
    ensures d == 29 ==> DistBase(d) + Pow2(DistExtra(d)) == 32769
  {
    if d < 15 { NearTable(d); } else { FarTable(d); }
  }

  lemma {:induction false} NearTable(d: nat)
    requires d < 15
    ensures DistExtra(d) == if d < 2 then 0 else d / 2 - 1
    ensures DistBase(d + 1) == DistBase(d) + Pow2(DistExtra(d))
  {
    assert Pow2(1) == 2 && Pow2(2) == 4 && Pow2(3) == 8 && Pow2(4) == 16 && Pow2(5) == 32 && Pow2(6) == 64;
  }

  lemma {:induction false} FarTable(d: nat)
    requires 15 <= d < 30
    ensures DistExtra(d) == d / 2 - 1
    ensures d < 29 ==> DistBase(d + 1) == DistBase(d) + Pow2(DistExtra(d))
    ensures d == 29 ==> DistBase(d) + Pow2(DistExtra(d)) == 32769
  {
    assert Pow2(6) == 64;
    assert Pow2(7) == 128 && Pow2(8) == 256 && Pow2(9) == 512 && Pow2(10) == 1024 && Pow2(11) == 2048;
    assert Pow2(12) == 4096 && Pow2(13) == 8192;
  }

  /** Symbol d with extra bits x stands for distance n. */
  ghost predicate DistanceIs(d: nat, x: nat, n: nat)
  {
    d < 30 && x < Pow2(DistExtra(d)) && DistBase(d) + x == n
  }

  lemma {:induction false} DistanceGrows(d: nat, e: nat)
    requires d < e < 30
    ensures DistBase(d) + Pow2(DistExtra(d)) <= DistBase(e)
    decreases e
  {
    hide DistBase, DistExtra, Pow2;
    DistanceTable(e - 1);
    if d < e - 1 { DistanceGrows(d, e - 1); }
  }

  lemma {:induction false} DistanceFrom(n: nat, e: nat) returns (d: nat)
    requires e < 30 && 1 <= n < DistBase(e) + Pow2(DistExtra(e))
    ensures d <= e && DistBase(d) <= n && DistanceIs(d, n - DistBase(d), n)
    decreases e
  {
    hide DistBase, DistExtra, Pow2;
    DistanceTable(e);
    if DistBase(e) <= n {
      d := e;
    } else {
      DistanceTable(e - 1);
      d := DistanceFrom(n, e - 1);
    }
  }

  /** Every distance from 1 to 32768 has exactly one symbol and extra bits. */
  lemma {:induction false} DistanceOnce(n: nat)
    ensures 1 <= n <= 32768 <==> exists d: nat, x: nat :: DistanceIs(d, x, n)
    ensures forall d: nat, x: nat, e: nat, y: nat :: DistanceIs(d, x, n) && DistanceIs(e, y, n) ==> d == e && x == y
  {
    hide DistBase, DistExtra, Pow2;
    DistanceTable(0);
    DistanceTable(29);
    if 1 <= n <= 32768 {
      var d := DistanceFrom(n, 29);
      assert DistanceIs(d, n - DistBase(d), n);
    }
    forall d: nat, x: nat | DistanceIs(d, x, n) ensures 1 <= n <= 32768 {
      if d > 0 { DistanceGrows(0, d); }
      if d < 29 { DistanceGrows(d, 29); }
    }
    forall d: nat, x: nat, e: nat, y: nat | DistanceIs(d, x, n) && DistanceIs(e, y, n) ensures d == e {
      if d < e { DistanceGrows(d, e); }
      if e < d { DistanceGrows(e, d); }
    }
  }

  // ---- alphabets

  /** Symbols up to 285 are the end of the block and, once each, the bytes and the lengths. */
  lemma {:induction false} SymbolOnce(s: nat)
    requires s < 286
    ensures s == END <==> forall t: Token :: (t.Match? ==> t.length < 29) ==> Symbol(t) != s
    ensures forall t: Token :: t.Literal? ==> (Symbol(t) == s <==> t.b == s)
    ensures forall t: Token :: t.Match? && t.length < 29 ==> (Symbol(t) == s <==> t.length + END + 1 == s)
  {
    if s < END { assert Symbol(Literal(s)) == s; }
    if s > END { assert Symbol(Match(s - END - 1, 0, 0, 0)) == s; }
  }

  /** The fixed codes, section 3.2.6. */
  lemma {:induction false} FixedTable(s: nat)
    ensures s < 144 || 280 <= s < 288 ==> FixedLengths()[s] == 8
    ensures 144 <= s < 256 ==> FixedLengths()[s] == 9
    ensures 256 <= s < 280 ==> FixedLengths()[s] == 7
    ensures s < 30 ==> FixedDistances()[s] == 5
  {
  }

  /** The order of section 3.2.7: the run symbols and 0, then from 8 outwards, up and down in turn. */
  lemma {:induction false} OrderTable(i: nat)
    requires i < 19
    ensures OrderAt(i) == if i < 3 then 16 + i else if i == 3 then 0
                          else if i % 2 == 0 then 8 + (i - 4) / 2 else 7 - (i - 5) / 2
  {
  }

  /** Symbol 16 is three to six of the last length, and 17 and 18 are runs of three to 138 zeroes, each in one way. */
  lemma {:induction false} StepTable()
    ensures StepBase(16) == 3 && StepBase(16) + Pow2(StepExtra(16)) == 7
    ensures StepBase(17) == 3 && StepBase(17) + Pow2(StepExtra(17)) == StepBase(18)
    ensures StepBase(18) + Pow2(StepExtra(18)) == 139
    ensures forall n :: 3 <= n <= 138 ==>
      var sym := StepSymbol(Zeroes(n)); sym in {17, 18} && StepBase(sym) <= n < StepBase(sym) + Pow2(StepExtra(sym))
    ensures forall n :: StepSymbol(Again(n)) == 16
    ensures forall n :: StepSymbol(One(n)) == n && (n < 16 ==> StepExtra(n) == 0)
  {
    assert Pow2(2) == 4;
    assert Pow2(3) == 8;
    assert Pow2(7) == 128;
  }

  // ---- a header, section 2.3 of RFC 1952

  /** The parts of a header: six bytes that say nothing of its length, and the parts it may have. */
  datatype Parts = Parts(text: bool, six: seq<Byte>, extra: Option<seq<Byte>>, name: Option<seq<Byte>>,
                         comment: Option<seq<Byte>>, check: Option<seq<Byte>>)

  ghost predicate PartsOk(h: Parts)
  {
    && |h.six| == 6 && (h.extra.Some? ==> |h.extra.value| < 65536) && (h.check.Some? ==> |h.check.value| == 2)
    && (h.name.Some? ==> 0 !in h.name.value) && (h.comment.Some? ==> 0 !in h.comment.value)
  }

  /** FTEXT, FHCRC, FEXTRA, FNAME and FCOMMENT. */
  ghost function FlagByte(h: Parts): (f: Byte)
  {
    (if h.text then 1 else 0) + (if h.check.Some? then 2 else 0) + (if h.extra.Some? then 4 else 0)
    + (if h.name.Some? then 8 else 0) + (if h.comment.Some? then 16 else 0)
  }

  ghost function ExtraBytes(e: Option<seq<Byte>>): (r: seq<Byte>)
    requires e.Some? ==> |e.value| < 65536
  {
    if e.None? then [] else [|e.value| % 256, |e.value| / 256] + e.value
  }

  ghost function NameBytes(n: Option<seq<Byte>>): (r: seq<Byte>)
  {
    if n.None? then [] else n.value + [0]
  }

  ghost function HeaderBytes(h: Parts): (r: seq<Byte>)
    requires PartsOk(h)
  {
    [0x1F, 0x8B, 8, FlagByte(h)] + h.six + ExtraBytes(h.extra) + NameBytes(h.name) + NameBytes(h.comment)
      + CheckBytes(h.check)
  }

  lemma {:induction false} FlagIs(h: Parts)
    ensures var f := FlagByte(h);
      && (Flag(f, 1) <==> h.check.Some?) && (Flag(f, 2) <==> h.extra.Some?)
      && (Flag(f, 3) <==> h.name.Some?) && (Flag(f, 4) <==> h.comment.Some?)
  {
    assert Pow2(1) == 2 && Pow2(2) == 4 && Pow2(3) == 8 && Pow2(4) == 16;
  }

  /** A name and its zero byte are passed over. */
  lemma {:induction false} NamePast(a: seq<Byte>, n: seq<Byte>, b: seq<Byte>)
    requires 0 !in n
    ensures PastName(a + (n + [0]) + b, |a|) == Some(|a| + |n| + 1)
    decreases |n|
  {
    var data := a + (n + [0]) + b;
    if n == [] {
      assert data[|a|] == 0;
    } else {
      assert data[|a|] == n[0] && n[0] in n;
      assert a + (n + [0]) + b == (a + [n[0]]) + (n[1..] + [0]) + b;
      NamePast(a + [n[0]], n[1..], b);
    }
  }

  lemma {:induction false} NamePastIf(a: seq<Byte>, n: Option<seq<Byte>>, b: seq<Byte>)
    requires n.Some? ==> 0 !in n.value
    ensures PastNameIf(a + NameBytes(n) + b, n.Some?, Some(|a|)) == Some(|a + NameBytes(n)|)
  {
    hide PastName;
    if n.Some? { NamePast(a, n.value, b); }
  }

  lemma {:induction false} ExtraPast(h: Parts, b: seq<Byte>)
    requires PartsOk(h)
    ensures var a := [0x1F, 0x8B, 8, FlagByte(h)] + h.six; var data := a + ExtraBytes(h.extra) + b;
      && |data| >= 10 && Magic(data) && data[3] == FlagByte(h)
      && PastExtra(data) == Some(|a + ExtraBytes(h.extra)|)
  {
    FlagIs(h);
    hide Flag, FlagByte;
    var a := [0x1F, 0x8B, 8, FlagByte(h)] + h.six;
    var data := a + ExtraBytes(h.extra) + b;
    assert |a| == 10;
    if h.extra.Some? {
      var n := |h.extra.value|;
      assert data[10] == n % 256 && data[11] == n / 256;
    }
  }

  lemma {:induction false} Regrouped(a: seq<Byte>, e: seq<Byte>, n: seq<Byte>, c: seq<Byte>, k: seq<Byte>, r: seq<Byte>)
    ensures a + e + n + c + k + r == a + e + (n + c + k + r)
    ensures a + e + n + c + k + r == (a + e) + n + (c + k + r)
    ensures a + e + n + c + k + r == (a + e + n) + c + (k + r)
    ensures |a + e + n + c + k| == |a + e + n + c| + |k|
  {
  }

  ghost function CheckBytes(k: Option<seq<Byte>>): (r: seq<Byte>)
  {
    if k.Some? then k.value else []
  }

  lemma {:induction false} EndAfter(data: seq<Byte>, h: Parts, i: nat, j: nat, m: nat)
    requires |data| >= 10 && Magic(data) && data[3] == FlagByte(h) && PastExtra(data) == Some(i)
    requires PastNameIf(data, h.name.Some?, Some(i)) == Some(j) && PastNameIf(data, h.comment.Some?, Some(j)) == Some(m)
    requires m + (if h.check.Some? then 2 else 0) <= |data|
    ensures HeaderEnd(data) == Some(m + if h.check.Some? then 2 else 0)
  {
    FlagIs(h);
    hide Flag, FlagByte, PastExtra, PastNameIf, Magic;
  }

  /** Nothing else is a header. */
  lemma {:induction false} HeaderOnly(data: seq<Byte>)
    requires HeaderEnd(data).Some?
    ensures |data| >= 10 && data[..3] == [0x1F, 0x8B, 8] && 10 <= HeaderEnd(data).value <= |data|
  {
    var (a, b) := (PastExtra(data), PastNameIf(data, Flag(data[3], 3), PastExtra(data)));
    if a.Some? { NameWithin(data, a.value); }
    if b.Some? { NameWithin(data, b.value); }
    hide PastName, Flag;
  }

  lemma {:induction false} NameWithin(data: seq<Byte>, i: nat)
    ensures PastName(data, i).Some? ==> i < PastName(data, i).value <= |data|
    decreases |data| - i
  {
    if i < |data| && data[i] != 0 { NameWithin(data, i + 1); }
  }

  /** Whatever parts a header has, the blocks begin after the last of them. */
  lemma {:induction false} HeaderRead(h: Parts, rest: seq<Byte>)
    requires PartsOk(h)
    ensures HeaderEnd(HeaderBytes(h) + rest) == Some(|HeaderBytes(h)|)
  {
    var (e, n, c, k) := (ExtraBytes(h.extra), NameBytes(h.name), NameBytes(h.comment), CheckBytes(h.check));
    var a := [0x1F, 0x8B, 8, FlagByte(h)] + h.six;
    assert HeaderBytes(h) == a + e + n + c + k;
    assert |k| == if h.check.Some? then 2 else 0;
    ExtraPast(h, n + c + k + rest);
    NamePastIf(a + e, h.name, c + k + rest);
    NamePastIf(a + e + n, h.comment, k + rest);
    hide *;
    Regrouped(a, e, n, c, k, rest);
    EndAfter(HeaderBytes(h) + rest, h, |a + e|, |a + e + n|, |a + e + n + c|);
  }
}
