/**
 * The other side of the range coder: what a writer does with its low end and its range, and
 * that a reader reads the bits written exactly if its input is a number between the ends.
 */
module RangeWriter {
  import opened Base
  import opened Bits
  import opened RangeCoder
  import opened LzmaSpec

  /** A bit to be written, by the probability at a place or by even chance. */
  datatype Piece = Guess(at: nat, bit: nat) | Even(bit: nat)

  ghost predicate PieceOk(p: Piece)
  {
    p.bit < 2 && (p.Guess? ==> p.at < SIZE)
  }

  ghost predicate PiecesOk(ps: seq<Piece>)
  {
    forall i :: 0 <= i < |ps| ==> PieceOk(ps[i])
  }

  // ---- reading

  function Next(k: Core, p: Piece): (b: nat)
  {
    if p.Guess? then BitIn(k, p.at) else HalfIn(k)
  }

  function Done(input: seq<Byte>, k: Core, p: Piece): (k': Core)
  {
    if p.Guess? then BitDone(input, k, p.at) else HalfDone(input, k)
  }

  /** What reading bits at these places leaves. */
  function After(input: seq<Byte>, k: Core, ps: seq<Piece>): (k': Core)
    decreases |ps|
  {
    if ps == [] then k else After(input, Done(input, k, ps[0]), ps[1..])
  }

  /** The bits read are these. */
  predicate Reads(input: seq<Byte>, k: Core, ps: seq<Piece>)
    decreases |ps|
  {
    ps == [] || (Next(k, ps[0]) == ps[0].bit && Reads(input, Done(input, k, ps[0]), ps[1..]))
  }

  lemma {:induction false} ReadsBoth(input: seq<Byte>, k: Core, a: seq<Piece>, b: seq<Piece>)
    ensures Reads(input, k, a + b) <==> Reads(input, k, a) && Reads(input, After(input, k, a), b)
    ensures After(input, k, a + b) == After(input, After(input, k, a), b)
    decreases |a|
  {
    hide Next, Done;
    if a == [] {
      assert a + b == b;
    } else {
      assert (a + b)[1..] == a[1..] + b;
      ReadsBoth(input, Done(input, k, a[0]), a[1..], b);
    }
  }

  // ---- writing

  /** The low end and the width of the numbers that read so, for so many bytes beyond the coder's own. */
  datatype Ends = Ends(low: nat, range: nat, probs: seq<nat>, more: nat)

  /** A range grown narrow takes one byte more. */
  function Grown(e: Ends): (e': Ends)
  {
    if e.range >= RangeCoder.TOP then e else Ends(e.low * 256, e.range * 256, e.probs, e.more + 1)
  }

  function Written(e: Ends, p: Piece): (e': Ends)
    requires PieceOk(p) && |e.probs| == SIZE
    ensures |e'.probs| == SIZE
  {
    if p.Even? then Grown(Ends(e.low + if p.bit == 1 then e.range / 2 else 0, e.range / 2, e.probs, e.more))
    else
      var b := Bound(Coder(e.range, 0), e.probs[p.at]);
      var probs := e.probs[p.at := Learned(e.probs[p.at], p.bit)];
      Grown(if p.bit == 0 then Ends(e.low, b, probs, e.more)
            else Ends(e.low + b, if b <= e.range then e.range - b else 0, probs, e.more))
  }

  function WrittenAll(e: Ends, ps: seq<Piece>): (e': Ends)
    requires PiecesOk(ps) && |e.probs| == SIZE
    ensures |e'.probs| == SIZE
    decreases |ps|
  {
    if ps == [] then e else WrittenAll(Written(e, ps[0]), ps[1..])
  }

  // ---- numbers with more bytes after them

  /** x with m zero bytes after it. */
  function Up(x: nat, m: nat): (r: nat)
    decreases m
  {
    if m == 0 then x else Up(256 * x, m - 1)
  }

  lemma {:induction false} UpSum(x: nat, y: nat, m: nat)
    ensures Up(x + y, m) == Up(x, m) + Up(y, m)
    decreases m
  {
    if m > 0 { UpSum(256 * x, 256 * y, m - 1); }
  }

  lemma {:induction false} UpUp(x: nat, m: nat, n: nat)
    ensures Up(Up(x, m), n) == Up(x, m + n)
    decreases m
  {
    if m > 0 { UpUp(256 * x, m - 1, n); }
  }

  lemma {:induction false} UpMore(x: nat, y: nat, m: nat)
    requires x <= y
    ensures Up(x, m) <= Up(y, m)
  {
    UpSum(x, y - x, m);
  }

  function ByteAt(input: seq<Byte>, p: nat): (b: Byte)
  {
    if p < |input| then input[p] else 0
  }

  /** A code with the next m bytes after it. */
  function Ahead(input: seq<Byte>, code: nat, p: nat, m: nat): (v: nat)
    decreases m
  {
    if m == 0 then code else Ahead(input, code * 256 + ByteAt(input, p) as nat, p + 1, m - 1)
  }

  lemma {:induction false} AheadSum(input: seq<Byte>, x: nat, y: nat, p: nat, m: nat)
    ensures Ahead(input, x + y, p, m) == Up(x, m) + Ahead(input, y, p, m)
    decreases m
  {
    if m > 0 { AheadSum(input, 256 * x, y * 256 + ByteAt(input, p) as nat, p + 1, m - 1); }
  }

  lemma {:induction false} AheadAhead(input: seq<Byte>, x: nat, p: nat, m: nat, n: nat)
    ensures Ahead(input, Ahead(input, x, p, m), p + m, n) == Ahead(input, x, p, m + n)
    decreases m
  {
    if m > 0 { AheadAhead(input, x * 256 + ByteAt(input, p) as nat, p + 1, m - 1, n); }
  }

  lemma {:induction false} AheadBounds(input: seq<Byte>, x: nat, p: nat, m: nat)
    ensures Up(x, m) <= Ahead(input, x, p, m) < Up(x + 1, m)
    decreases m
  {
    if m > 0 {
      var y := x * 256 + ByteAt(input, p) as nat;
      AheadBounds(input, y, p + 1, m - 1);
      UpMore(256 * x, y, m - 1);
      UpMore(y + 1, 256 * (x + 1), m - 1);
    }
  }

  // ---- the two together

  /** A writer at a reader's range. */
  function From(k: Core): (e: Ends)
  {
    Ends(0, k.coder.range, k.probs, 0)
  }

  ghost predicate Sane(k: Core)
  {
    AllLikely(k.probs) && Wide(k.coder) && Inside(k.coder)
  }

  /** The number ahead lies between the ends. */
  predicate Between(e: Ends, v: nat)
  {
    e.low <= v < e.low + e.range
  }

  /**
   * One bit: if it is the one read, and the reader does not leave its range, the two go on with the
   * same range and chances, and what the reader has is how far the number is above the low end; if it
   * is not, the number is not between the ends.
   */
  lemma {:induction false} OneStep(input: seq<Byte>, k: Core, p: Piece)
    requires Sane(k) && PieceOk(p)
    ensures var (e, k') := (Written(From(k), p), Done(input, k, p));
      && e.more <= 1
      && (k.pos + e.more <= |input| ==>
          var v := Ahead(input, k.coder.code, k.pos, e.more);
          if Next(k, p) == p.bit && !(p.Even? && OddLast(k.coder)) then Agree(k, k', e, v) else !Between(e, v))
  {
    if p.Guess? { GuessStep(input, k, p); } else { EvenStep(input, k, p); }
  }

  ghost predicate Agree(k: Core, k': Core, e: Ends, v: nat)
  {
    && Sane(k') && k'.coder.range == e.range && k'.probs == e.probs && k'.pos == k.pos + e.more
    && e.low + k'.coder.code == v && k'.bad == k.bad && k'.escaped == k.escaped
  }

  lemma {:induction false} OneAhead(input: seq<Byte>, code: nat, p: nat)
    ensures Ahead(input, code, p, 0) == code && Ahead(input, code, p, 1) == code * 256 + ByteAt(input, p) as nat
  {
    assert Ahead(input, code * 256 + ByteAt(input, p) as nat, p + 1, 0) == code * 256 + ByteAt(input, p) as nat;
  }

  lemma {:induction false} GuessStep(input: seq<Byte>, k: Core, p: Piece)
    requires Sane(k) && PieceOk(p) && p.Guess?
    ensures var (e, k') := (Written(From(k), p), Done(input, k, p));
      && e.more <= 1
      && (k.pos + e.more <= |input| ==>
          var v := Ahead(input, k.coder.code, k.pos, e.more);
          if Next(k, p) == p.bit then Agree(k, k', e, v) else !Between(e, v))
  {
    var (c, q) := (k.coder, k.probs[p.at]);
    RangeCoder.Parts(c, q);
    OneAhead(input, c.code, k.pos);
    var byte := ByteAt(input, k.pos);
    BitKeeps(c, q, byte);
    LikelyStill(k.probs, p.at, p.bit);
    SameBound(c, q);
    hide Bound, Learned, Ahead;
  }

  lemma {:induction false} SameBound(c: Coder, q: nat)
    ensures Bound(Coder(c.range, 0), q) == Bound(c, q)
  {
  }

  lemma {:induction false} LikelyStill(probs: seq<nat>, i: nat, b: nat)
    requires AllLikely(probs) && i < SIZE
    ensures Likely(probs[i]) && AllLikely(probs[i := Learned(probs[i], b)])
  {
    LearnedLikely(probs[i], b);
  }

  lemma {:induction false} EvenStep(input: seq<Byte>, k: Core, p: Piece)
    requires Sane(k) && PieceOk(p) && p.Even?
    ensures var (e, k') := (Written(From(k), p), Done(input, k, p));
      && e.more <= 1
      && (k.pos + e.more <= |input| ==>
          var v := Ahead(input, k.coder.code, k.pos, e.more);
          if Next(k, p) == p.bit && !OddLast(k.coder) then Agree(k, k', e, v) else !Between(e, v))
  {
    var c := k.coder;
    Halves(c);
    OneAhead(input, c.code, k.pos);
    HalfKeeps(c, ByteAt(input, k.pos));
    hide Ahead, AllLikely, Widened;
  }

  /** A writer that starts higher and later ends as much higher and later. */
  lemma {:induction false} Lifted(e: Ends, x: nat, m: nat, ps: seq<Piece>)
    requires PiecesOk(ps) && |e.probs| == SIZE
    ensures var g := WrittenAll(e, ps);
      g.more >= e.more &&
      WrittenAll(Ends(x + e.low, e.range, e.probs, m + e.more), ps) ==
        Ends(Up(x, g.more - e.more) + g.low, g.range, g.probs, m + g.more)
    decreases |ps|
  {
    if ps != [] {
      var e1 := Written(e, ps[0]);
      LiftedOne(e, x, m, ps[0]);
      hide Written, Up;
      var d := e1.more - e.more;
      Lifted(e1, Up(x, d), m, ps[1..]);
      UpUp(x, d, WrittenAll(e, ps).more - e1.more);
    }
  }

  lemma {:induction false} LiftedOne(e: Ends, x: nat, m: nat, p: Piece)
    requires PieceOk(p) && |e.probs| == SIZE
    ensures var g := Written(e, p);
      g.more >= e.more &&
      Written(Ends(x + e.low, e.range, e.probs, m + e.more), p) ==
        Ends(Up(x, g.more - e.more) + g.low, g.range, g.probs, m + g.more)
  {
    hide Bound, Learned;
    assert Up(x, 0) == x;
    assert Up(x, 1) == 256 * x;
  }

  /** The numbers between the ends lie between the ends before. */
  lemma {:induction false} Within(e: Ends, ps: seq<Piece>)
    requires PiecesOk(ps) && AllLikely(e.probs)
    ensures var g := WrittenAll(e, ps);
      g.more >= e.more && Up(e.low, g.more - e.more) <= g.low && g.low + g.range <= Up(e.low + e.range, g.more - e.more)
    decreases |ps|
  {
    if ps != [] {
      var e1 := Written(e, ps[0]);
      WithinOne(e, ps[0]);
      hide Written, Up, AllLikely;
      Within(e1, ps[1..]);
      var (d, n) := (e1.more - e.more, WrittenAll(e, ps).more - e1.more);
      UpMore(Up(e.low, d), e1.low, n);
      UpMore(e1.low + e1.range, Up(e.low + e.range, d), n);
      UpUp(e.low, d, n);
      UpUp(e.low + e.range, d, n);
    }
  }

  lemma {:induction false} WithinOne(e: Ends, p: Piece)
    requires PieceOk(p) && AllLikely(e.probs)
    ensures var g := Written(e, p);
      && AllLikely(g.probs) && g.more >= e.more
      && Up(e.low, g.more - e.more) <= g.low && g.low + g.range <= Up(e.low + e.range, g.more - e.more)
  {
    var (x, y) := (e.low, e.low + e.range);
    assert Up(x, 0) == x && Up(y, 0) == y;
    assert Up(x, 1) == 256 * x && Up(y, 1) == 256 * y;
    if p.Guess? {
      LikelyStill(e.probs, p.at, p.bit);
      BoundFits(e.range, e.probs[p.at]);
    }
    hide AllLikely, Learned, Bound, Up;
  }

  lemma {:induction false} BoundFits(range: nat, q: nat)
    requires q <= 2048
    ensures Bound(Coder(range, 0), q) <= range
  {
    var h: nat := range / 2048;
    assert h * 2048 == h * q + h * (2048 - q);
    assert h * (2048 - q) >= 0;
  }

  lemma {:induction false} EscapedStays(input: seq<Byte>, k: Core, ps: seq<Piece>)
    ensures k.escaped ==> After(input, k, ps).escaped
    decreases |ps|
  {
    if ps != [] {
      EscapedStays(input, Done(input, k, ps[0]), ps[1..]);
      assert k.escaped ==> Done(input, k, ps[0]).escaped;
    }
  }

  lemma {:induction false} EscapedNow(input: seq<Byte>, k: Core, p: Piece)
    ensures p.Even? && OddLast(k.coder) ==> Done(input, k, p).escaped
  {
  }

  /** The first bit, and then the others. */
  lemma {:induction false} FirstThen(input: seq<Byte>, k: Core, ps: seq<Piece>)
    requires ps != [] && PiecesOk(ps) && AllLikely(k.probs)
    ensures var (p, rest) := (ps[0], ps[1..]); var (e1, k1) := (Written(From(k), p), Done(input, k, p));
      && PieceOk(p) && PiecesOk(rest) && AllLikely(e1.probs) && From(k) == Ends(0, k.coder.range, k.probs, 0)
      && WrittenAll(From(k), ps) == WrittenAll(e1, rest)
      && After(input, k, ps) == After(input, k1, rest)
      && (Reads(input, k, ps) <==> Next(k, p) == p.bit && Reads(input, k1, rest))
  {
    WithinOne(From(k), ps[0]);
    hide Written, Done, Next;
  }

  ghost predicate Tell(input: seq<Byte>, k: Core, ps: seq<Piece>)
    requires PiecesOk(ps) && |k.probs| == SIZE
  {
    var (e, k') := (WrittenAll(From(k), ps), After(input, k, ps));
    && (Between(e, Ahead(input, k.coder.code, k.pos, e.more)) <==> Reads(input, k, ps) && !k'.escaped)
    && (Reads(input, k, ps) && !k'.escaped ==> Sane(k') && k'.pos == k.pos + e.more && k'.bad == k.bad)
  }

  lemma {:induction false} TellNone(input: seq<Byte>, k: Core)
    requires Sane(k) && !k.escaped
    ensures Tell(input, k, [])
  {
    assert Ahead(input, k.coder.code, k.pos, 0) == k.coder.code;
  }

  /** The first bit is read: the others decide. */
  lemma {:induction false} TellSame(input: seq<Byte>, k: Core, ps: seq<Piece>, k1: Core, e1: Ends, e: Ends, g: Ends)
    requires ps != [] && PiecesOk(ps) && |k.probs| == SIZE && |k1.probs| == SIZE
    requires e == WrittenAll(From(k), ps) && g == WrittenAll(From(k1), ps[1..])
    requires e == Ends(Up(e1.low, g.more) + g.low, g.range, g.probs, e1.more + g.more)
    requires Agree(k, k1, e1, Ahead(input, k.coder.code, k.pos, e1.more)) && Tell(input, k1, ps[1..])
    requires After(input, k, ps) == After(input, k1, ps[1..]) && (Reads(input, k, ps) <==> Reads(input, k1, ps[1..]))
    ensures Tell(input, k, ps)
  {
    hide After, Reads, WrittenAll, Ahead, Up, Sane, From;
    AheadAhead(input, k.coder.code, k.pos, e1.more, g.more);
    AheadSum(input, e1.low, k1.coder.code, k1.pos, g.more);
  }

  lemma {:induction false} SaneIs(k: Core)
    ensures Sane(k) ==> AllLikely(k.probs) && |k.probs| == SIZE
  {
  }

  lemma {:induction false} AgreeIs(k: Core, k': Core, e: Ends, v: nat)
    requires Agree(k, k', e, v)
    ensures Sane(k') && AllLikely(k'.probs) && |k'.probs| == SIZE && k'.pos == k.pos + e.more && k'.escaped == k.escaped
    ensures From(k') == Ends(0, e.range, e.probs, 0) && e == Ends(e.low + 0, e.range, e.probs, e.more + 0)
  {
  }

  lemma {:induction false} TellIs(input: seq<Byte>, k: Core, ps: seq<Piece>)
    requires PiecesOk(ps) && |k.probs| == SIZE
    requires var (e, k') := (WrittenAll(From(k), ps), After(input, k, ps));
      !Between(e, Ahead(input, k.coder.code, k.pos, e.more)) && (!Reads(input, k, ps) || k'.escaped)
    ensures Tell(input, k, ps)
  {
    hide WrittenAll, After, Reads, Ahead, Between;
  }

  /** It is not, or takes the reader out of its range: the number is not between the ends. */
  lemma {:induction false} TellOther(input: seq<Byte>, code: nat, pos: nat, e1: Ends, e: Ends)
    requires !Between(e1, Ahead(input, code, pos, e1.more)) && e.more >= e1.more
    requires Up(e1.low, e.more - e1.more) <= e.low && e.low + e.range <= Up(e1.low + e1.range, e.more - e1.more)
    ensures !Between(e, Ahead(input, code, pos, e.more))
  {
    hide Up, Ahead;
    var d := e.more - e1.more;
    var v := Ahead(input, code, pos, e1.more);
    AheadAhead(input, code, pos, e1.more, d);
    AheadBounds(input, v, pos + e1.more, d);
    if v < e1.low { UpMore(v + 1, e1.low, d); } else { UpMore(e1.low + e1.range, v, d); }
  }

  /**
   * Bits are what a reader reads, and it stays inside its range, exactly if its number is between
   * the ends that a writer of these bits comes to.
   */
  lemma {:induction false} Tells(input: seq<Byte>, k: Core, ps: seq<Piece>)
    requires Sane(k) && PiecesOk(ps) && !k.escaped && k.pos + WrittenAll(From(k), ps).more <= |input|
    ensures Tell(input, k, ps)
    decreases |ps|
  {
    hide *;
    SaneIs(k);
    if ps == [] {
      TellNone(input, k);
    } else {
      var (p, rest) := (ps[0], ps[1..]);
      FirstThen(input, k, ps);
      var (e1, k1, e) := (Written(From(k), p), Done(input, k, p), WrittenAll(From(k), ps));
      OneStep(input, k, p);
      Within(e1, rest);
      var v := Ahead(input, k.coder.code, k.pos, e1.more);
      if Next(k, p) == p.bit && !(p.Even? && OddLast(k.coder)) {
        AgreeIs(k, k1, e1, v);
        var g := WrittenAll(From(k1), rest);
        Lifted(From(k1), e1.low, e1.more, rest);
        Tells(input, k1, rest);
        TellSame(input, k, ps, k1, e1, e, g);
      } else {
        TellOther(input, k.coder.code, k.pos, e1, e);
        EscapedNow(input, k, p);
        EscapedStays(input, k1, rest);
        TellIs(input, k, ps);
      }
    }
  }

  // ---- bytes that read so

  /** n in len bytes, high one first. */
  function Digits(n: nat, len: nat): (r: seq<Byte>)
    ensures |r| == len
    decreases len
  {
    if len == 0 then [] else Digits(n / 256, len - 1) + [n % 256]
  }

  lemma {:induction false} DigitsAhead(input: seq<Byte>, x: nat, p: nat, n: nat, len: nat)
    requires p + len <= |input| && input[p..p + len] == Digits(n, len) && n < Up(1, len)
    ensures Ahead(input, x, p, len) == Up(x, len) + n
    decreases len
  {
    if len > 0 {
      var m := len - 1;
      assert input[p..p + m] == input[p..p + len][..m] == Digits(n / 256, m);
      assert input[p + m] == input[p..p + len][m] == n % 256;
      UpOne(m);
      DigitsAhead(input, x, p, n / 256, m);
      AheadAhead(input, x, p, m, 1);
      var v := Ahead(input, x, p, m);
      OneAhead(input, v, p + m);
      UpLast(x, m);
    }
  }

  lemma {:induction false} UpLast(x: nat, m: nat)
    ensures Up(x, m + 1) == 256 * Up(x, m)
    decreases m
  {
    if m > 0 { UpLast(256 * x, m - 1); }
  }

  lemma {:induction false} UpOne(m: nat)
    ensures Up(1, m + 1) == 256 * Up(1, m)
  {
    UpLast(1, m);
  }

  /** The range stays wide enough for the next bit. */
  lemma {:induction false} WideStays(e: Ends, ps: seq<Piece>)
    requires PiecesOk(ps) && AllLikely(e.probs) && RangeCoder.TOP <= e.range < U32
    ensures RangeCoder.TOP <= WrittenAll(e, ps).range < U32
    decreases |ps|
  {
    if ps != [] {
      WideOne(e, ps[0]);
      WithinOne(e, ps[0]);
      hide Written, AllLikely;
      WideStays(Written(e, ps[0]), ps[1..]);
    }
  }

  lemma {:induction false} WideOne(e: Ends, p: Piece)
    requires PieceOk(p) && AllLikely(e.probs) && RangeCoder.TOP <= e.range < U32
    ensures RangeCoder.TOP <= Written(e, p).range < U32
  {
    if p.Guess? { Shares(Coder(e.range, 0), e.probs[p.at]); }
    hide Bound, Learned;
  }

  /** A writer at the start of a chunk. */
  function Opening(probs: seq<nat>): (e: Ends)
  {
    Ends(0, U32 - 1, probs, 0)
  }

  /** A reader at the start of a chunk, of which the first byte says nothing. */
  function Opened(input: seq<Byte>, probs: seq<nat>, at: nat): (k: Core)
    requires at + 5 <= |input|
  {
    Core(probs, Started(input, at + 1), at + 5, false, false)
  }

  /** The bytes of the low end read as the bits written: whatever is written can be read. */
  lemma {:induction false} WrittenReads(probs: seq<nat>, ps: seq<Piece>, input: seq<Byte>, at: nat)
    requires AllLikely(probs) && PiecesOk(ps)
    requires var e := WrittenAll(Opening(probs), ps);
      at + 5 + e.more <= |input| && input[at + 1..at + 1 + (4 + e.more)] == Digits(e.low, 4 + e.more)
    ensures var (k, e) := (Opened(input, probs, at), WrittenAll(Opening(probs), ps)); var k' := After(input, k, ps);
      Reads(input, k, ps) && !k'.escaped && !k'.bad && k'.pos == at + 5 + e.more && Sane(k')
  {
    var (k, e) := (Opened(input, probs, at), WrittenAll(Opening(probs), ps));
    LowFits(probs, ps);
    WideStays(Opening(probs), ps);
    StartedIs(input, at + 1);
    DigitsAhead(input, 0, at + 1, e.low, 4 + e.more);
    UpZero(4 + e.more);
    AheadAhead(input, 0, at + 1, 4, e.more);
    CodeBelow(input, k.coder.code, at + 5, e.more, e.low);
    FreshIs(input, probs, at);
    hide *;
    TellsFresh(input, k, ps, e);
  }

  lemma {:induction false} UpZero(m: nat)
    ensures Up(0, m) == 0
    decreases m
  {
    if m > 0 { UpZero(m - 1); }
  }

  lemma {:induction false} LowFits(probs: seq<nat>, ps: seq<Piece>)
    requires AllLikely(probs) && PiecesOk(ps)
    ensures var e := WrittenAll(Opening(probs), ps);
      e.low + e.range <= Up(U32 - 1, e.more) && Up(U32 - 1, e.more) <= Up(1, 4 + e.more)
  {
    Within(Opening(probs), ps);
    hide WrittenAll, AllLikely;
    var m := WrittenAll(Opening(probs), ps).more;
    UpMore(U32 - 1, U32, m);
    UpUp(1, 4, m);
    assert Up(1, 4) == U32 by {
      assert Up(256 * 256 * 256, 1) == U32;
      assert Up(256 * 256, 2) == U32;
      assert Up(256, 3) == U32;
    }
  }

  lemma {:induction false} StartedIs(input: seq<Byte>, p: nat)
    requires p + 4 <= |input|
    ensures Started(input, p).code == Ahead(input, 0, p, 4) && Started(input, p).range == U32 - 1
  {
    var a := input[p] as nat;
    var b := a * 256 + input[p + 1] as nat;
    var c := b * 256 + input[p + 2] as nat;
    OneAhead(input, c, p + 3);
    assert Ahead(input, b, p + 2, 2) == Ahead(input, c, p + 3, 1);
    assert Ahead(input, a, p + 1, 3) == Ahead(input, b, p + 2, 2);
    assert Ahead(input, 0, p, 4) == Ahead(input, a, p + 1, 3);
  }

  lemma {:induction false} CodeBelow(input: seq<Byte>, code: nat, p: nat, m: nat, low: nat)
    requires Ahead(input, code, p, m) == low < Up(U32 - 1, m)
    ensures code < U32 - 1
  {
    AheadBounds(input, code, p, m);
    if code >= U32 - 1 { UpMore(U32 - 1, code, m); }
  }

  lemma {:induction false} FreshIs(input: seq<Byte>, probs: seq<nat>, at: nat)
    requires at + 5 <= |input| && AllLikely(probs)
    ensures var k := Opened(input, probs, at);
      && From(k) == Opening(probs) && !k.escaped && !k.bad && k.pos == at + 5 && |k.probs| == SIZE
      && (k.coder.code < U32 - 1 ==> Sane(k))
  {
  }

  lemma {:induction false} TellsFresh(input: seq<Byte>, k: Core, ps: seq<Piece>, e: Ends)
    requires Sane(k) && PiecesOk(ps) && !k.escaped && !k.bad && e == WrittenAll(From(k), ps)
    requires k.pos + e.more <= |input| && Ahead(input, k.coder.code, k.pos, e.more) == e.low && e.range > 0
    ensures var k' := After(input, k, ps);
      Reads(input, k, ps) && !k'.escaped && !k'.bad && k'.pos == k.pos + e.more && Sane(k')
  {
    Tells(input, k, ps);
    hide Reads, After, WrittenAll, Ahead;
  }
}
