/**
 * What LZMA2 data stands for (src/tuxpac/unpack.c), as functions: which symbol stands next
 * in the coded input, what a symbol adds to the output, and so what chunks unpack to.
 */
module LzmaSpec {
  import opened Base
  import opened Bits
  import opened Window
  import opened RangeCoder

  // ---- one table of probabilities after another, as they are laid out

  const IS_MATCH: nat := 0
  const IS_REP: nat := 192
  const G0: nat := 204
  const G1: nat := 216
  const G2: nat := 228
  const REP0_LONG: nat := 240
  const SLOT: nat := 432
  const POS: nat := 688
  const ALIGN: nat := 803
  const LEN: nat := 819
  const REP_LEN: nat := 1333
  const LIT: nat := 1847
  const SIZE: nat := 14135

  ghost predicate AllLikely(probs: seq<nat>)
  {
    |probs| == SIZE && forall i :: 0 <= i < SIZE ==> Likely(probs[i])
  }

  // ---- numbers out of the coded input

  /**
   * The probabilities, the coder and how far the input has been read, whether beyond its end; and
   * whether a bit of even chance has met the last code of an odd range.
   */
  datatype Core = Core(probs: seq<nat>, coder: Coder, pos: nat, bad: bool, escaped: bool)

  /** A number read, and what reading it leaves. */
  datatype Got = Got(k: Core, v: nat)

  /** A range grown narrow takes in the next byte; past the last one, zero. */
  function Fed(input: seq<Byte>, k: Core): (k': Core)
    ensures k.pos <= k'.pos
  {
    if k.coder.range >= RangeCoder.TOP then k
    else if k.pos < |input| then k.(coder := Widened(k.coder, input[k.pos]), pos := k.pos + 1)
    else k.(coder := Widened(k.coder, 0), bad := true)
  }

  function Chance(k: Core, i: nat): (p: nat)
  {
    if i < |k.probs| then k.probs[i] else 0
  }

  /** The next bit, by the probability at i. */
  function BitIn(k: Core, i: nat): (b: nat)
    ensures b < 2
  {
    BitRead(k.coder, Chance(k, i))
  }

  function BitDone(input: seq<Byte>, k: Core, i: nat): (k': Core)
    ensures k.pos <= k'.pos
  {
    var p := Chance(k, i);
    var probs := if i < |k.probs| then k.probs[i := Learned(p, BitIn(k, i))] else k.probs;
    Fed(input, k.(probs := probs, coder := Narrowed(k.coder, p)))
  }

  /** The next bit of even chance. */
  function HalfIn(k: Core): (b: nat)
    ensures b < 2
  {
    if k.coder.code >= k.coder.range / 2 then 1 else 0
  }

  function HalfDone(input: seq<Byte>, k: Core): (k': Core)
    ensures k.pos <= k'.pos
  {
    Fed(input, k.(coder := HalfTaken(k.coder), escaped := k.escaped || OddLast(k.coder)))
  }

  /** n bits of even chance, high ones first, after those of v. */
  function Direct(input: seq<Byte>, k: Core, n: nat, v: nat): (g: Got)
    ensures k.pos <= g.k.pos
    decreases n
  {
    if n == 0 then Got(k, v) else Direct(input, HalfDone(input, k), n - 1, 2 * v + HalfIn(k))
  }

  /** One of n bits of even chance meets the last code of an odd range. */
  ghost predicate MeetsOdd(input: seq<Byte>, k: Core, n: nat)
  {
    exists i: nat :: i < n && OddLast(Direct(input, k, i, 0).k.coder)
  }

  lemma {:induction false} SameCore(input: seq<Byte>, k: Core, n: nat, v: nat, w: nat)
    ensures Direct(input, k, n, v).k == Direct(input, k, n, w).k
    decreases n
  {
    if n > 0 { SameCore(input, HalfDone(input, k), n - 1, 2 * v + HalfIn(k), 2 * w + HalfIn(k)); }
  }

  /** Only that marks the code as escaped. */
  lemma {:induction false} EscapedIs(input: seq<Byte>, k: Core, n: nat, v: nat)
    ensures Direct(input, k, n, v).k.escaped <==> k.escaped || MeetsOdd(input, k, n)
    decreases n
  {
    if n > 0 {
      var (k', v') := (HalfDone(input, k), 2 * v + HalfIn(k));
      EscapedIs(input, k', n - 1, v');
      OddNext(input, k, n);
    }
  }

  lemma {:induction false} OddNext(input: seq<Byte>, k: Core, n: nat)
    requires n > 0
    ensures MeetsOdd(input, k, n) <==> OddLast(k.coder) || MeetsOdd(input, HalfDone(input, k), n - 1)
  {
    var k' := HalfDone(input, k);
    forall i: nat | i < n - 1 ensures Direct(input, k', i, 0).k == Direct(input, k, i + 1, 0).k {
      SameCore(input, k', i, 0, HalfIn(k));
    }
    hide HalfDone, OddLast;
    assert Direct(input, k, 0, 0).k == k;
    if MeetsOdd(input, k, n) {
      var i: nat :| i < n && OddLast(Direct(input, k, i, 0).k.coder);
      if i > 0 { assert OddLast(Direct(input, k', i - 1, 0).k.coder); }
    }
    if MeetsOdd(input, k', n - 1) {
      var i: nat :| i < n - 1 && OddLast(Direct(input, k', i, 0).k.coder);
      assert OddLast(Direct(input, k, i + 1, 0).k.coder);
    }
  }

  /** n more bits down a tree from node m. */
  function Down(input: seq<Byte>, k: Core, base: nat, n: nat, m: nat): (g: Got)
    ensures k.pos <= g.k.pos
    decreases n
  {
    if n == 0 then Got(k, m) else Down(input, BitDone(input, k, base + m), base, n - 1, 2 * m + BitIn(k, base + m))
  }

  /** A number of n bits off a tree. */
  function Tree(input: seq<Byte>, k: Core, base: nat, n: nat): (g: Got)
    ensures k.pos <= g.k.pos
  {
    var g := Down(input, k, base, n, 1);
    Got(g.k, if g.v >= Pow2(n) then g.v - Pow2(n) else 0)
  }

  /** The same with the low bits first, after i bits that make v. */
  function DownLow(input: seq<Byte>, k: Core, base: nat, n: nat, m: nat, i: nat, v: nat): (g: Got)
    ensures k.pos <= g.k.pos
    decreases n
  {
    if n == 0 then Got(k, v)
    else
      var b := BitIn(k, base + m);
      DownLow(input, BitDone(input, k, base + m), base, n - 1, 2 * m + b, i + 1, v + if b == 1 then Pow2(i) else 0)
  }

  function LowTree(input: seq<Byte>, k: Core, base: nat, n: nat): (g: Got)
    ensures k.pos <= g.k.pos
  {
    DownLow(input, k, base, n, 1, 0, 0)
  }

  /** A number and some more. */
  function More(g: Got, n: nat): (g': Got)
  {
    Got(g.k, g.v + n)
  }

  /** A length less two: 3 bits, 3 bits or 8. */
  function Length(input: seq<Byte>, k: Core, base: nat, ps: nat): (g: Got)
    ensures k.pos <= g.k.pos
  {
    var k1 := BitDone(input, k, base);
    var k2 := BitDone(input, k1, base + 1);
    if BitIn(k, base) == 0 then Tree(input, k1, base + 2 + 8 * ps, 3)
    else if BitIn(k1, base + 1) == 0 then More(Tree(input, k2, base + 130 + 8 * ps, 3), 8)
    else More(Tree(input, k2, base + 258, 8), 16)
  }

  /** A distance less one: a slot of 6 bits, and for a far one more bits, the high ones of even chance. */
  function Distance(input: seq<Byte>, k: Core, len: nat): (g: Got)
    ensures k.pos <= g.k.pos
  {
    var s := Tree(input, k, SLOT + 64 * (if len < 3 then len else 3), 6);
    if s.v < 4 then s else Far(input, s.k, s.v)
  }

  function Far(input: seq<Byte>, k: Core, slot: nat): (g: Got)
    requires slot >= 4
    ensures k.pos <= g.k.pos
  {
    var nb: nat := slot / 2 - 1;
    var d: nat := (2 + slot % 2) * Pow2(nb);
    if slot < 14 then More(LowTree(input, k, POS + d - slot, nb), d)
    else
      var high := Direct(input, k, nb - 4, 0);
      More(LowTree(input, high.k, ALIGN, 4), d + high.v * 16)
  }

  // ---- symbols

  /** A byte; earlier output from a new distance, or from one of the last four, or one byte from the last. */
  datatype Symbol = Literal(byte: Byte) | Fresh(dist: nat, len: nat) | Again(which: nat, len: nat) | Short

  /** A symbol read, and what reading it leaves. */
  datatype Read = Read(k: Core, s: Symbol)

  /** What the last few symbols were, 7 and up after a match, the last four distances, and the parameters. */
  datatype Past = Past(state: nat, rep: seq<nat>, lc: nat, lp: nat, pb: nat)

  /** Low bits of the position and high bits of the byte before it. */
  function Context(total: nat, prev: nat, lc: nat, lp: nat): (t: nat)
    requires lc <= 8
  {
    Product(total % Pow2(lp), Pow2(lc)) + Quotient(prev, Pow2(8 - lc))
  }

  function Product(a: nat, b: nat): (c: nat)
  {
    a * b
  }

  function Quotient(a: nat, b: nat): (c: nat)
    requires b > 0
  {
    a / b
  }

  /** The byte d back; a zero if there is none. */
  function ByteBack(h: seq<Byte>, d: nat): (b: Byte)
  {
    if 1 <= d <= |h| then h[|h| - d] else 0
  }

  /** The other bits of a literal, after those of s. */
  function Plain(input: seq<Byte>, k: Core, base: nat, s: nat): (g: Got)
    requires s > 0
    ensures k.pos <= g.k.pos
    decreases if s < 256 then 256 - s else 0
  {
    if s >= 256 then Got(k, s) else Plain(input, BitDone(input, k, base + s), base, 2 * s + BitIn(k, base + s))
  }

  /** Bits alike with those of another byte, and after the first that differs the others. */
  function Guided(input: seq<Byte>, k: Core, base: nat, like: nat, s: nat): (g: Got)
    requires s > 0
    ensures k.pos <= g.k.pos
    decreases if s < 256 then 256 - s else 0
  {
    if s >= 256 then Got(k, s)
    else
      var m := like / 128 % 2;
      var i := base + (1 + m) * 256 + s;
      var (k', s') := (BitDone(input, k, i), 2 * s + BitIn(k, i));
      if BitIn(k, i) == m then Guided(input, k', base, 2 * like, s') else Plain(input, k', base, s')
  }

  /** Where the probabilities of the next literal start. */
  function LiteralBase(p: Past, h: seq<Byte>, total: nat): (base: nat)
  {
    LIT + 768 * if p.lc <= 8 then Context(total, if total > 0 then ByteBack(h, 1) else 0, p.lc, p.lp) else 0
  }

  function LiteralIn(input: seq<Byte>, k: Core, p: Past, h: seq<Byte>, total: nat): (r: Read)
    requires |p.rep| == 4
    ensures k.pos <= r.k.pos && r.s.Literal?
  {
    var base := LiteralBase(p, h, total);
    var g := if p.state >= 7 then Guided(input, k, base, ByteBack(h, p.rep[0] + 1), 1) else Plain(input, k, base, 1);
    Read(g.k, Literal(g.v % 256))
  }

  /** One of the last four distances. */
  function AgainIn(input: seq<Byte>, k: Core, state: nat, ps: nat): (r: Read)
    ensures k.pos <= r.k.pos
  {
    var k1 := BitDone(input, k, G0 + state);
    if BitIn(k, G0 + state) == 0 then
      var i := REP0_LONG + (16 * state + ps);
      var k2 := BitDone(input, k1, i);
      if BitIn(k1, i) == 0 then Read(k2, Short) else AgainLen(input, k2, 0, ps)
    else
      var k2 := BitDone(input, k1, G1 + state);
      var k3 := BitDone(input, k2, G2 + state);
      if BitIn(k1, G1 + state) == 0 then AgainLen(input, k2, 1, ps)
      else AgainLen(input, k3, if BitIn(k2, G2 + state) == 0 then 2 else 3, ps)
  }

  function AgainLen(input: seq<Byte>, k: Core, which: nat, ps: nat): (r: Read)
    ensures k.pos <= r.k.pos
  {
    var g := Length(input, k, REP_LEN, ps);
    Read(g.k, Again(which, g.v + 2))
  }

  function FreshIn(input: seq<Byte>, k: Core, ps: nat): (r: Read)
    ensures k.pos <= r.k.pos
  {
    var g := Length(input, k, LEN, ps);
    var d := Distance(input, g.k, g.v);
    Read(d.k, Fresh(d.v, g.v + 2))
  }

  function MatchIn(input: seq<Byte>, k: Core, state: nat, ps: nat): (r: Read)
    ensures k.pos <= r.k.pos
  {
    var k' := BitDone(input, k, IS_REP + state);
    if BitIn(k, IS_REP + state) == 0 then FreshIn(input, k', ps) else AgainIn(input, k', state, ps)
  }

  /** The symbol that stands next. */
  function SymbolIn(input: seq<Byte>, k: Core, p: Past, h: seq<Byte>, total: nat): (r: Read)
    requires |p.rep| == 4
    ensures k.pos <= r.k.pos
  {
    var ps := total % Pow2(p.pb);
    var i := IS_MATCH + (16 * p.state + ps);
    var k' := BitDone(input, k, i);
    if BitIn(k, i) == 0 then LiteralIn(input, k', p, h, total) else MatchIn(input, k', p.state, ps)
  }

  // ---- what symbols stand for

  function AfterLiteral(s: nat): (t: nat)
  {
    if s < 4 then 0 else if s < 10 then s - 3 else s - 6
  }

  function StateAfter(state: nat, s: Symbol): (t: nat)
  {
    match s
    case Literal(_) => AfterLiteral(state)
    case Fresh(_, _) => if state < 7 then 7 else 10
    case Again(_, _) => if state < 7 then 8 else 11
    case Short => if state < 7 then 9 else 11
  }

  /** The k-th of the last distances before the others. */
  function Recalled(rep: seq<nat>, k: nat): (r: seq<nat>)
    requires k < |rep|
  {
    [rep[k]] + rep[..k] + rep[k + 1..]
  }

  function RepAfter(rep: seq<nat>, s: Symbol): (r: seq<nat>)
    requires |rep| == 4
    ensures |r| == 4
  {
    if s.Fresh? then [s.dist, rep[0], rep[1], rep[2]]
    else if s.Again? && s.which < 4 then Recalled(rep, s.which) else rep
  }

  function PastAfter(p: Past, s: Symbol): (p': Past)
    requires |p.rep| == 4
    ensures |p'.rep| == 4
  {
    p.(state := StateAfter(p.state, s), rep := RepAfter(p.rep, s))
  }

  /** How many bytes a symbol is. */
  function Bytes(s: Symbol): (n: nat)
  {
    if s.Fresh? || s.Again? then s.len else 1
  }

  /** Everything there is between two symbols. */
  datatype Sit = Sit(k: Core, past: Past, history: seq<Byte>, total: nat)

  ghost predicate SitOk(z: Sit)
  {
    |z.past.rep| == 4 && z.total <= |z.history|
  }

  /** A match is no longer than is left, and reaches neither past the window nor past the last reset. */
  predicate Allowed(size: nat, total: nat, rep: seq<nat>, s: Symbol, left: nat)
    requires |rep| == 4
  {
    s.Literal? || (1 <= Bytes(s) <= left && 1 <= (rep[0] + 1) % U32 <= total && (rep[0] + 1) % U32 <= size)
  }

  /** A symbol played, if it is allowed. */
  function Play(size: nat, z: Sit, k: Core, s: Symbol, left: nat): (r: Option<Sit>)
    requires SitOk(z) && left > 0
    ensures r.Some? ==> SitOk(r.value) && r.value.k == k
    ensures r.Some? ==> r.value.total == z.total + Bytes(s) && 1 <= Bytes(s) <= left
  {
    var p := PastAfter(z.past, s);
    if !Allowed(size, z.total, p.rep, s, left) then None
    else if s.Literal? then Some(Sit(k, p, z.history + [s.byte], z.total + 1))
    else Some(Sit(k, p, Copied(z.history, (p.rep[0] + 1) % U32, Bytes(s)), z.total + Bytes(s)))
  }

  /** One symbol more. */
  function Step(input: seq<Byte>, size: nat, z: Sit, left: nat): (r: Option<Sit>)
    requires SitOk(z) && left > 0
    ensures r.Some? ==> SitOk(r.value) && z.k.pos <= r.value.k.pos && 1 <= r.value.total - z.total <= left
  {
    var r := SymbolIn(input, z.k, z.past, z.history, z.total);
    Play(size, z, r.k, r.s, left)
  }

  /** left bytes of symbols. */
  function Chunk(input: seq<Byte>, size: nat, z: Sit, left: nat): (r: Option<Sit>)
    requires SitOk(z)
    ensures r.Some? ==> SitOk(r.value) && z.k.pos <= r.value.k.pos
    decreases left
  {
    if left == 0 then Some(z)
    else if z.k.bad then None
    else
      var n := Step(input, size, z, left);
      if n.None? then None else Chunk(input, size, n.value, left - (n.value.total - z.total))
  }

  // ---- chunks

  /** The count that stands at p: two bytes, high one first, and one. */
  function CountAt(input: seq<Byte>, p: nat): (n: nat)
    ensures n >= 1
  {
    if p + 2 <= |input| then (input[p] as nat) * 256 + (input[p + 1] as nat) + 1 else 1
  }

  /** A chunk of bytes as they are. A reset here forgets the dictionary but not the state. */
  function StoredIn(input: seq<Byte>, z: Sit, forget: bool): (r: Option<Sit>)
    requires SitOk(z)
    ensures r.Some? ==> SitOk(r.value) && z.k.pos < r.value.k.pos
  {
    var (n, from) := (CountAt(input, z.k.pos), z.k.pos + 2);
    if z.k.bad || from + n > |input| then None
    else Some(z.(k := z.k.(pos := from + n), history := z.history + input[from..from + n],
                 total := (if forget then 0 else z.total) + n))
  }

  /** The coder from the four bytes at p. */
  function Started(input: seq<Byte>, p: nat): (c: Coder)
    requires p + 4 <= |input|
  {
    Coder(U32 - 1, (((input[p] as nat) * 256 + (input[p + 1] as nat)) * 256 + (input[p + 2] as nat)) * 256
                   + (input[p + 3] as nat))
  }

  /** lc, lp and pb out of one byte, if they are not too much. */
  function Parameters(p: Past, b: nat): (p': Option<Past>)
    ensures p'.Some? ==> p'.value.rep == p.rep
  {
    if b > 224 || b % 9 + b / 9 % 5 > 4 then None else Some(p.(lc := b % 9, lp := b / 9 % 5, pb := b / 45))
  }

  function Even(): (probs: seq<nat>)
  {
    seq(SIZE, _ => HALF)
  }

  /** What stands in the input from there to at is passed over. */
  function Skipped(input: seq<Byte>, k: Core, at: nat): (k': Core)
    ensures k.pos <= k'.pos || k'.bad
  {
    if k.bad || at <= k.pos then k
    else if at <= |input| then k.(pos := at) else k.(pos := |input|, bad := true)
  }

  /** With what a coded chunk begins: its control says how much is made new. */
  function Begun(input: seq<Byte>, z: Sit, control: nat, props: bool): (r: Option<Sit>)
    requires SitOk(z)
    ensures r.Some? ==> SitOk(r.value) && z.k.pos < r.value.k.pos
  {
    var reset := control / 32 % 4;
    var at := z.k.pos + 4 + if reset >= 2 then 1 else 0;
    if z.k.bad || at + 5 > |input| then None
    else
      var p := if reset >= 2 then Parameters(z.past, input[at - 1]) else if props then Some(z.past) else None;
      if p.None? then None
      else
        var k := Core(if reset >= 1 then Even() else z.k.probs, Started(input, at + 1), at + 5, false, z.k.escaped);
        Some(Sit(k, if reset >= 1 then p.value.(state := 0, rep := [0, 0, 0, 0]) else p.value, z.history,
                 if reset == 3 then 0 else z.total))
  }

  /** A coded chunk, as long in the input as its header says. */
  function CodedIn(input: seq<Byte>, size: nat, z: Sit, control: nat, props: bool): (r: Option<Sit>)
    requires SitOk(z)
    ensures r.Some? ==> SitOk(r.value) && (z.k.pos < r.value.k.pos || r.value.k.bad)
  {
    var b := Begun(input, z, control, props);
    if b.None? then None
    else
      var y := Chunk(input, size, b.value, control % 32 * 65536 + CountAt(input, z.k.pos));
      if y.None? then None
      else Some(y.value.(k := Skipped(input, y.value.k, b.value.k.pos - 5 + CountAt(input, z.k.pos + 2))))
  }

  /** Chunks up to the one that says they end. */
  function Chunks(input: seq<Byte>, size: nat, z: Sit, props: bool): (r: Option<Sit>)
    requires SitOk(z)
    ensures r.Some? ==> SitOk(r.value)
    decreases |input| - z.k.pos, !z.k.bad
  {
    if z.k.bad || z.k.pos >= |input| then None
    else
      var c := input[z.k.pos];
      var y := z.(k := z.k.(pos := z.k.pos + 1));
      if c == 0 then Some(y)
      else if c < 0x80 && c > 2 then None
      else
        var x := if c <= 2 then StoredIn(input, y, c == 1) else CodedIn(input, size, y, c, props);
        if x.None? || x.value.k.bad then None else Chunks(input, size, x.value, props || c > 2)
  }
}
