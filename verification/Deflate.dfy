/**
 * What a deflate stream says, after section 3.2 of RFC 1951: blocks, the bits each is
 * written in, and the bytes each adds to the output.
 */
module Deflate {
  import opened Base
  import opened Bits
  import opened Huffman
  import opened Window

  const LENGTH_BASE: seq<nat> := [
    3, 4, 5, 6, 7, 8, 9, 10, 11, 13, 15, 17, 19, 23, 27, 31, 35, 43, 51, 59, 67, 83, 99, 115, 131, 163, 195, 227, 258]
  const LENGTH_EXTRA: seq<nat> := [
    0, 0, 0, 0, 0, 0, 0, 0, 1, 1, 1, 1, 2, 2, 2, 2, 3, 3, 3, 3, 4, 4, 4, 4, 5, 5, 5, 5, 0]
  const DIST_BASE: seq<nat> := [
    1, 2, 3, 4, 5, 7, 9, 13, 17, 25, 33, 49, 65, 97, 129, 193, 257, 385, 513, 769, 1025, 1537, 2049, 3073,
    4097, 6145, 8193, 12289, 16385, 24577]
  const DIST_EXTRA: seq<nat> := [
    0, 0, 0, 0, 1, 1, 2, 2, 3, 3, 4, 4, 5, 5, 6, 6, 7, 7, 8, 8, 9, 9, 10, 10, 11, 11, 12, 12, 13, 13]
  const ORDER: seq<nat> := [16, 17, 18, 0, 8, 7, 9, 6, 10, 5, 11, 4, 12, 3, 13, 2, 14, 1, 15]
  const WINDOW: nat := 32768
  const END: nat := 256

  function LengthBase(l: nat): (r: nat) requires l < 29 { LENGTH_BASE[l] }
  function LengthExtra(l: nat): (r: nat) requires l < 29 ensures r <= 5 { LENGTH_EXTRA[l] }
  function DistBase(d: nat): (r: nat) requires d < 30 ensures 1 <= r <= 24577 { DIST_BASE[d] }
  function DistExtra(d: nat): (r: nat) requires d < 30 ensures r <= 13 { DIST_EXTRA[d] }

  // ---- tokens

  /**
   * A byte as it is, or a stretch of earlier output again: its length and distance symbols with the
   * extra bits of each.
   */
  datatype Token = Literal(b: Byte) | Match(length: nat, lengthExtra: nat, dist: nat, distExtra: nat)

  ghost predicate RestOk(D: seq<nat>, t: Token)
  {
    && t.Match? && t.length < 29 && t.lengthExtra < Pow2(LengthExtra(t.length))
    && t.dist < 30 && Coded(D, t.dist) && t.distExtra < Pow2(DistExtra(t.dist))
  }

  ghost predicate TokenOk(L: seq<nat>, D: seq<nat>, t: Token)
  {
    Coded(L, Symbol(t)) && (t.Match? ==> RestOk(D, t))
  }

  /** The symbol of the literal and length alphabet. */
  function Symbol(t: Token): (s: nat)
  {
    if t.Literal? then t.b else 257 + t.length
  }

  /** Everything of a match after its length symbol. */
  ghost function RestBits(D: seq<nat>, t: Token): (r: seq<Bit>)
    requires RestOk(D, t)
  {
    Lsb(t.lengthExtra, LengthExtra(t.length)) + Word(D, t.dist) + Lsb(t.distExtra, DistExtra(t.dist))
  }

  ghost function TokenBits(L: seq<nat>, D: seq<nat>, t: Token): (r: seq<Bit>)
    requires TokenOk(L, D, t)
  {
    Word(L, Symbol(t)) + if t.Match? then RestBits(D, t) else []
  }

  function Length(t: Token): (n: nat)
    requires t.Match? && t.length < 29
  {
    LengthBase(t.length) + t.lengthExtra
  }

  function Distance(t: Token): (n: nat)
    requires t.Match? && t.dist < 30
    ensures n >= 1
  {
    DistBase(t.dist) + t.distExtra
  }

  /** A match may not reach behind the start of the output. */
  ghost predicate TokenFits(h: seq<Byte>, t: Token)
  {
    t.Match? ==> t.length < 29 && t.dist < 30 && Distance(t) <= |h|
  }

  ghost function Played(h: seq<Byte>, t: Token): (r: seq<Byte>)
    requires TokenFits(h, t)
  {
    if t.Literal? then h + [t.b] else Copied(h, Distance(t), Length(t))
  }

  // ---- the tokens of a block

  ghost predicate TokensOk(L: seq<nat>, D: seq<nat>, ts: seq<Token>)
  {
    forall i: nat :: i < |ts| ==> TokenOk(L, D, ts[i])
  }

  ghost function TokensBits(L: seq<nat>, D: seq<nat>, ts: seq<Token>): (r: seq<Bit>)
    requires TokensOk(L, D, ts)
  {
    if ts == [] then [] else TokensBits(L, D, ts[..|ts| - 1]) + TokenBits(L, D, ts[|ts| - 1])
  }

  ghost predicate BodyOk(L: seq<nat>, D: seq<nat>, ts: seq<Token>)
  {
    TokensOk(L, D, ts) && Coded(L, END)
  }

  /** Tokens, then the end of the block. */
  ghost function BodyBits(L: seq<nat>, D: seq<nat>, ts: seq<Token>): (r: seq<Bit>)
    requires BodyOk(L, D, ts)
  {
    TokensBits(L, D, ts) + Word(L, END)
  }

  /** Every token fits the output before it, and what they all make of it. */
  ghost predicate TokensFit(h: seq<Byte>, ts: seq<Token>)
    decreases |ts|, 0
  {
    ts == [] || (TokensFit(h, ts[..|ts| - 1]) && TokenFits(AllPlayed(h, ts[..|ts| - 1]), ts[|ts| - 1]))
  }

  ghost function AllPlayed(h: seq<Byte>, ts: seq<Token>): (r: seq<Byte>)
    requires TokensFit(h, ts)
    decreases |ts|, 1
  {
    if ts == [] then h else Played(AllPlayed(h, ts[..|ts| - 1]), ts[|ts| - 1])
  }

  // ---- the code lengths of a dynamic block

  datatype Step = One(length: nat) | Again(times: nat) | Zeroes(times: nat)

  /** A run of zeroes has one of two symbols, by how long it is. */
  function StepSymbol(s: Step): (r: nat)
  {
    match s
    case One(l) => l
    case Again(_) => 16
    case Zeroes(n) => if n <= 10 then 17 else 18
  }

  /** The shortest run symbol 16, 17 or 18 stands for, and how many bits say how much longer it is. */
  function StepBase(sym: nat): (r: nat)
  {
    if sym < 16 then 0 else if sym <= 17 then 3 else 11
  }

  function StepExtra(sym: nat): (r: nat)
    ensures r <= 7
  {
    if sym < 16 then 0 else if sym == 16 then 2 else if sym == 17 then 3 else 7
  }

  ghost predicate StepOk(C: seq<nat>, s: Step)
  {
    && Coded(C, StepSymbol(s))
    && match s
       case One(l) => l < 16
       case Again(n) => 3 <= n <= 6
       case Zeroes(n) => 3 <= n <= 138
  }

  ghost function StepBits(C: seq<nat>, s: Step): (r: seq<Bit>)
    requires StepOk(C, s)
  {
    var sym := StepSymbol(s);
    Word(C, sym) + if s.One? then [] else Lsb(s.times - StepBase(sym), StepExtra(sym))
  }

  function Times(n: nat, l: nat): (r: seq<nat>)
    ensures |r| == n
  {
    seq(n, _ => l)
  }

  ghost predicate StepFits(lens: seq<nat>, s: Step)
  {
    s.Again? ==> lens != []
  }

  ghost function Stepped(lens: seq<nat>, s: Step): (r: seq<nat>)
    requires StepFits(lens, s)
  {
    match s
    case One(l) => lens + [l]
    case Again(n) => lens + Times(n, lens[|lens| - 1])
    case Zeroes(n) => lens + Times(n, 0)
  }

  ghost predicate StepsOk(C: seq<nat>, ss: seq<Step>)
  {
    forall i: nat :: i < |ss| ==> StepOk(C, ss[i])
  }

  ghost function StepsBits(C: seq<nat>, ss: seq<Step>): (r: seq<Bit>)
    requires StepsOk(C, ss)
  {
    if ss == [] then [] else StepsBits(C, ss[..|ss| - 1]) + StepBits(C, ss[|ss| - 1])
  }

  ghost predicate StepsFit(ss: seq<Step>)
    decreases |ss|, 0
  {
    ss == [] || (StepsFit(ss[..|ss| - 1]) && StepFits(AllStepped(ss[..|ss| - 1]), ss[|ss| - 1]))
  }

  ghost function AllStepped(ss: seq<Step>): (r: seq<nat>)
    requires StepsFit(ss)
    decreases |ss|, 1
  {
    if ss == [] then [] else Stepped(AllStepped(ss[..|ss| - 1]), ss[|ss| - 1])
  }

  // ---- blocks

  /** The lengths of the code length code, written in ORDER and only as many as needed. */
  datatype Header = Header(nlen: nat, ndist: nat, given: seq<nat>)

  ghost predicate HeaderOk(h: Header)
  {
    && 257 <= h.nlen <= 286 && 1 <= h.ndist <= 30 && 4 <= |h.given| <= 19
    && (forall i :: 0 <= i < |h.given| ==> h.given[i] < 8)
  }

  ghost function GivenBits(given: seq<nat>): (r: seq<Bit>)
  {
    if given == [] then [] else GivenBits(given[..|given| - 1]) + Lsb(given[|given| - 1], 3)
  }

  ghost function HeaderBits(h: Header): (r: seq<Bit>)
    requires HeaderOk(h)
  {
    Lsb(h.nlen - 257, 5) + Lsb(h.ndist - 1, 5) + Lsb(|h.given| - 4, 4) + GivenBits(h.given)
  }

  /** The symbol whose length comes at place i. */
  function OrderAt(i: nat): (s: nat)
    requires i < 19
    ensures s < 19
  {
    ORDER[i]
  }

  /** Where in ORDER length symbol s stands. */
  function InOrder(s: nat): (i: nat)
    requires s < 19
    ensures i < 19 && OrderAt(i) == s
  {
    [3, 17, 15, 13, 11, 9, 7, 5, 4, 6, 8, 10, 12, 14, 16, 18, 0, 1, 2][s]
  }

  /** The code length code's own lengths: those given, and zero for the rest. */
  function CodeLengths(given: seq<nat>): (C: seq<nat>)
    ensures |C| == 19
  {
    seq(19, s requires 0 <= s < 19 => if InOrder(s) < |given| then given[InOrder(s)] else 0)
  }

  ghost predicate Complete(L: seq<nat>)
  {
    Weight(L) == Pow2(TOP)
  }

  /** A code with room left over is taken only when it has one symbol. */
  ghost predicate Sound(L: seq<nat>)
  {
    && Lengths(L) && !Oversubscribed(L)
    && (Complete(L) || Uncoded(L) || |L| - Count(L, 0) == 1)
  }

  datatype Block =
    | Stored(data: seq<Byte>)
    | Fixed(tokens: seq<Token>)
    | Dynamic(header: Header, steps: seq<Step>, tokens: seq<Token>)

  function FixedLengths(): (L: seq<nat>)
    ensures |L| == 288
  {
    Times(144, 8) + Times(112, 9) + Times(24, 7) + Times(8, 8)
  }

  function FixedDistances(): (D: seq<nat>)
    ensures |D| == 30
  {
    Times(30, 5)
  }

  ghost predicate StepsWhole(h: Header, ss: seq<Step>)
  {
    StepsFit(ss) && |AllStepped(ss)| == h.nlen + h.ndist
  }

  ghost predicate DynamicOk(h: Header, ss: seq<Step>, ts: seq<Token>)
  {
    && HeaderOk(h) && Complete(CodeLengths(h.given)) && StepsOk(CodeLengths(h.given), ss) && StepsWhole(h, ss)
    && var (L, D) := (AllStepped(ss)[..h.nlen], AllStepped(ss)[h.nlen..]);
       Sound(L) && Sound(D) && BodyOk(L, D, ts)
  }

  ghost function DynamicBits(h: Header, ss: seq<Step>, ts: seq<Token>): (r: seq<Bit>)
    requires DynamicOk(h, ss, ts)
  {
    HeaderBits(h) + StepsBits(CodeLengths(h.given), ss) +
    BodyBits(AllStepped(ss)[..h.nlen], AllStepped(ss)[h.nlen..], ts)
  }

  /** A stored block's two counts, low byte first, one the other's complement. */
  function CountBytes(n: nat): (r: seq<Byte>)
    requires n < 65536
    ensures |r| == 4
  {
    [n % 256, n / 256, (65535 - n) % 256, (65535 - n) / 256]
  }

  /** The counts and the bytes. */
  function StoredBytes(data: seq<Byte>): (r: seq<Byte>)
    requires |data| < 65536
    ensures |r| == 4 + |data|
  {
    CountBytes(|data|) + data
  }

  ghost predicate BlockOk(b: Block)
  {
    match b
    case Stored(data) => |data| < 65536
    case Fixed(ts) => BodyOk(FixedLengths(), FixedDistances(), ts)
    case Dynamic(h, ss, ts) => DynamicOk(h, ss, ts)
  }

  function Kind(b: Block): (k: nat)
  {
    match b case Stored(_) => 0 case Fixed(_) => 1 case Dynamic(_, _, _) => 2
  }

  /** A block's own bits. */
  ghost function BlockBits(b: Block): (r: seq<Bit>)
    requires BlockOk(b)
  {
    match b
    case Stored(data) => BitsOf(StoredBytes(data))
    case Fixed(ts) => BodyBits(FixedLengths(), FixedDistances(), ts)
    case Dynamic(h, ss, ts) => DynamicBits(h, ss, ts)
  }

  function ByteUp(p: nat): (r: nat)
  {
    (p + 7) / 8 * 8
  }

  /** Where they begin: a stored block's on the next whole byte after the three bits every block has. */
  ghost function BodyStart(b: Block, p: nat): (r: nat)
  {
    if b.Stored? then ByteUp(p + 3) else p + 3
  }

  ghost predicate BlockAt(bs: seq<Bit>, p: nat, last: bool, b: Block)
  {
    && BlockOk(b) && At(bs, p, [if last then 1 else 0]) && At(bs, p + 1, Lsb(Kind(b), 2))
    && At(bs, BodyStart(b, p), BlockBits(b))
  }

  ghost function BlockEnd(b: Block, p: nat): (r: nat)
    requires BlockOk(b)
  {
    BodyStart(b, p) + |BlockBits(b)|
  }

  ghost predicate BlockFits(h: seq<Byte>, b: Block)
  {
    b.Stored? || TokensFit(h, b.tokens)
  }

  ghost function BlockPlayed(h: seq<Byte>, b: Block): (r: seq<Byte>)
    requires BlockFits(h, b)
  {
    match b
    case Stored(data) => h + data
    case Fixed(ts) => AllPlayed(h, ts)
    case Dynamic(_, _, ts) => AllPlayed(h, ts)
  }

  // ---- the whole stream

  ghost predicate BlocksOk(blocks: seq<Block>)
  {
    forall i: nat :: i < |blocks| ==> BlockOk(blocks[i])
  }

  ghost function EndOf(p: nat, blocks: seq<Block>): (r: nat)
    requires BlocksOk(blocks)
  {
    if blocks == [] then p else BlockEnd(blocks[|blocks| - 1], EndOf(p, blocks[..|blocks| - 1]))
  }

  /** Block i is in the stream after those before it. */
  ghost predicate BlockIn(bs: seq<Bit>, p: nat, blocks: seq<Block>, i: nat, last: bool)
    requires BlocksOk(blocks) && i < |blocks|
  {
    BlockAt(bs, EndOf(p, blocks[..i]), last, blocks[i])
  }

  ghost predicate IsLast(blocks: seq<Block>, i: nat)
  {
    i == |blocks| - 1
  }

  /** These blocks, and the last one says it is the last. */
  ghost predicate StreamAt(bs: seq<Bit>, p: nat, blocks: seq<Block>)
  {
    blocks != [] && BlocksOk(blocks) && forall i: nat :: i < |blocks| ==> BlockIn(bs, p, blocks, i, IsLast(blocks, i))
  }

  ghost predicate BlocksFit(blocks: seq<Block>)
    decreases |blocks|, 0
  {
    blocks == [] || (BlocksFit(blocks[..|blocks| - 1])
      && BlockFits(Unpacked(blocks[..|blocks| - 1]), blocks[|blocks| - 1]))
  }

  /** What the blocks unpack to. */
  ghost function Unpacked(blocks: seq<Block>): (r: seq<Byte>)
    requires BlocksFit(blocks)
    decreases |blocks|, 1
  {
    if blocks == [] then [] else BlockPlayed(Unpacked(blocks[..|blocks| - 1]), blocks[|blocks| - 1])
  }

  // ---- the gzip header, section 2.3 of RFC 1952

  /** Past the next zero byte. */
  function PastName(data: seq<Byte>, i: nat): (r: Option<nat>)
    decreases |data| - i
  {
    if i >= |data| then None else if data[i] == 0 then Some(i + 1) else PastName(data, i + 1)
  }

  function Flag(f: Byte, bit: nat): (r: bool)
  {
    f / Pow2(bit) % 2 == 1
  }

  function PastExtra(data: seq<Byte>): (r: Option<nat>)
    requires |data| >= 10
  {
    if !Flag(data[3], 2) then Some(10)
    else if |data| < 12 then None
    else
      var i: nat := 12 + (data[10] as nat) + 256 * (data[11] as nat);
      if i <= |data| then Some(i) else None
  }

  function PastNameIf(data: seq<Byte>, on: bool, i: Option<nat>): (r: Option<nat>)
  {
    if on && i.Some? then PastName(data, i.value) else i
  }

  /** Past the two bytes of a checksum of the header. */
  function PastCheck(data: seq<Byte>, on: bool, i: Option<nat>): (r: Option<nat>)
  {
    if !on || i.None? then i else if i.value + 2 <= |data| then Some(i.value + 2) else None
  }

  function PastNames(data: seq<Byte>): (r: Option<nat>)
    requires |data| >= 10
  {
    PastNameIf(data, Flag(data[3], 4), PastNameIf(data, Flag(data[3], 3), PastExtra(data)))
  }

  predicate Magic(data: seq<Byte>)
  {
    |data| >= 10 && data[0] == 0x1F && data[1] == 0x8B && data[2] == 8
  }

  /** Where the blocks begin. */
  function HeaderEnd(data: seq<Byte>): (r: Option<nat>)
  {
    if !Magic(data) then None else PastCheck(data, Flag(data[3], 1), PastNames(data))
  }
}
