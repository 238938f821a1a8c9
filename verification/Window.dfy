/**
 * The circular window of src/tuxpac/unpack.c: everything unpacked goes through it, and
 * seen from outside it is the whole output so far, however long.
 */
module Window {
  import opened Base
  import opened Bits

  /** Every byte from there on is the one d back from it. */
  ghost predicate Echoes(r: seq<Byte>, from: nat, d: nat)
  {
    1 <= d <= from && forall k :: from <= k < |r| ==> r[k] == r[k - d]
  }

  /**
   * len more bytes, each the one d back from its own place: a copy may run into
   * bytes it has itself just made.
   */
  function Copied(h: seq<Byte>, d: nat, len: nat): (r: seq<Byte>)
    requires 1 <= d <= |h|
    ensures |r| == |h| + len && r[..|h|] == h
    ensures Echoes(r, |h|, d)
    decreases len
  {
    if len == 0 then h
    else
      var r := Copied(h, d, len - 1);
      r + [r[|r| - d]]
  }

  lemma {:induction false} CopiedNext(h: seq<Byte>, d: nat, len: nat)
    requires 1 <= d <= |h|
    ensures Copied(h, d, 0) == h
    ensures var r := Copied(h, d, len); Copied(h, d, len + 1) == r + [r[|r| - d]]
  {
  }

  /** Nothing else does what Copied does. */
  lemma {:induction false} CopiedOnly(h: seq<Byte>, d: nat, len: nat, r: seq<Byte>)
    requires 1 <= d <= |h| && |r| == |h| + len && r[..|h|] == h
    requires Echoes(r, |h|, d)
    ensures r == Copied(h, d, len)
    decreases len
  {
    if len > 0 {
      var m := |r| - 1;
      assert r[..m][..|h|] == r[..|h|];
      CopiedOnly(h, d, len - 1, r[..m]);
      assert r == r[..m] + [r[m]];
    } else {
      assert r == r[..|h|];
    }
  }

  /**
   * What was handed on and the first at bytes of the window are the history; the rest of the window
   * is what came before.
   */
  ghost predicate Shows(win: seq<Byte>, at: nat, handed: seq<Byte>, history: seq<Byte>)
  {
    && at < |win| && history == handed + win[..at]
    && (handed != [] ==> |handed| >= |win| && forall k :: at <= k < |win| ==> win[k] == history[|handed| - |win| + k])
  }

  lemma {:induction false} ShowsPut(win: seq<Byte>, at: nat, handed: seq<Byte>, history: seq<Byte>, b: Byte)
    requires Shows(win, at, handed, history)
    ensures var w := win[at := b];
      if at + 1 < |win| then Shows(w, at + 1, handed, history + [b]) else Shows(w, 0, handed + w, history + [b])
  {
    var w := win[at := b];
    assert w[..at + 1] == win[..at] + [b];
    if at + 1 == |win| {
      assert w == w[..at + 1];
      assert w[..0] == [];
      assert forall k :: 0 <= k < |w| ==> w[k] == (handed + w)[|handed| + k];
    }
  }

  lemma {:induction false} ShowsAt(win: seq<Byte>, at: nat, handed: seq<Byte>, history: seq<Byte>)
    requires Shows(win, at, handed, history)
    ensures at < |win| && history == handed + win[..at]
  {
  }

  lemma {:induction false} ShowsBack(win: seq<Byte>, at: nat, handed: seq<Byte>, history: seq<Byte>, d: nat)
    requires Shows(win, at, handed, history) && 1 <= d <= |win| && d <= |history|
    ensures history[|history| - d] == win[if at >= d then at - d else at + |win| - d]
  {
  }

  /** One of the first n calls of a sink is refused. */
  ghost predicate Refused(sink: nat -> bool, n: nat)
  {
    exists i :: 0 <= i < n && !sink(i)
  }

  lemma {:induction false} RefusedMore(sink: nat -> bool, n: nat)
    ensures Refused(sink, n + 1) <==> Refused(sink, n) || !sink(n)
  {
  }

  /** How many calls of a sink n bytes make, a window at a time. */
  function Calls(n: nat, size: nat): (c: nat)
    requires size > 0
  {
    (n + size - 1) / size
  }

  ghost predicate Windows(n: nat, size: nat, calls: nat)
  {
    n == size * calls
  }

  lemma {:induction false} WindowsMore(n: nat, size: nat, calls: nat)
    requires Windows(n, size, calls)
    ensures Windows(n + size, size, calls + 1)
  {
  }

  lemma {:induction false} CallsAre(n: nat, size: nat, calls: nat, more: nat)
    requires Windows(n, size, calls) && more < size
    ensures Calls(n + more, size) == calls + if more > 0 then 1 else 0
  {
    var c := calls + if more > 0 then 1 else 0;
    var rest := n + more + size - 1 - size * c;
    assert size * (calls + 1) == size * calls + size;
    assert 0 <= rest < size;
    DividedBy(size, c, rest);
  }

  lemma {:induction false} DividedBy(size: nat, c: nat, rest: nat)
    requires rest < size
    ensures (size * c + rest) / size == c
  {
    var n: nat := size * c + rest;
    var q: nat, m: nat := n / size, n % size;
    assert n == q * size + m;
    if q < c { Larger(size, q, c); }
    if c < q { Larger(size, c, q); }
  }

  lemma {:induction false} Larger(size: nat, a: nat, b: nat)
    requires a < b
    ensures size * a + size <= size * b && size * a == a * size && size * b == b * size
    decreases b
  {
    assert size * b == size * (b - 1) + size;
    if a + 1 < b { Larger(size, a, b - 1); }
  }

  class Output {
    const win: array<Byte>
    /** What the sink answers to each call. */
    const sink: nat -> bool
    var calls: nat
    var wpos: nat
    var total: nat
    var stopped: bool
    /** Everything given to the sink. */
    var handed: seq<Byte>
    /** Everything put. */
    ghost var history: seq<Byte>

    ghost predicate Valid()
      reads this, win
    {
      && 0 < win.Length < U32 && total <= |history| && Shows(win[..], wpos, handed, history)
      && Windows(|handed|, win.Length, calls) && (stopped <==> Refused(sink, calls))
    }

    constructor (size: nat, sink: nat -> bool)
      requires 0 < size < U32
      ensures this.sink == sink && Valid() && fresh(win) && win.Length == size && history == [] && total == 0
        && !stopped
    {
      win := new Byte[size];
      this.sink, calls := sink, 0;
      wpos, total, stopped, handed, history := 0, 0, false, [], [];
    }

    /** Bytes given to the sink, which may refuse them. */
    method Hand(n: nat)
      requires n <= win.Length && (stopped <==> Refused(sink, calls))
      modifies this`handed, this`stopped, this`calls
      ensures handed == old(handed) + win[..n] && calls == old(calls) + 1
      ensures (stopped <==> Refused(sink, calls)) && (old(stopped) ==> stopped)
    {
      RefusedMore(sink, calls);
      handed := handed + win[..n];
      stopped := stopped || !sink(calls);
      calls := calls + 1;
    }

    method Put(b: Byte)
      requires Valid()
      modifies this, win
      ensures Valid() && history == old(history) + [b] && total == old(total) + 1 && (old(stopped) ==> stopped)
    {
      hide Shows, Refused, Windows;
      WindowsMore(|handed|, win.Length, calls);
      ShowsPut(win[..], wpos, handed, history, b);
      ShowsAt(win[..], wpos, handed, history);
      ghost var w := win[..][wpos := b];
      win[wpos] := b;
      assert win[..] == w;
      history := history + [b];
      wpos := wpos + 1;
      total := total + 1;
      if wpos == win.Length {
        assert win[..win.Length] == w;
        Hand(win.Length);
        wpos := 0;
      }
    }

    /** The byte d back, however far that is behind the start of the window. */
    method Back(d: nat) returns (b: Byte)
      requires Valid() && 1 <= d <= win.Length && d <= |history|
      ensures b == history[|history| - d]
    {
      hide Shows;
      ShowsAt(win[..], wpos, handed, history);
      ShowsBack(win[..], wpos, handed, history, d);
      b := win[if wpos >= d then wpos - d else wpos + win.Length - d];
    }

    /** len bytes again from d back, unless that is before the last reset or more than a window away. */
    method Copy(d: nat, len: nat) returns (ok: bool)
      requires Valid()
      modifies this, win
      ensures Valid() && (ok <==> 1 <= d <= old(total) && d <= win.Length) && (old(stopped) ==> stopped)
      ensures ok ==> d <= |old(history)| && history == Copied(old(history), d, len) && total == old(total) + len
      ensures !ok ==> history == old(history) && total == old(total) && stopped == old(stopped)
    {
      hide Shows, Copied;
      if d == 0 || d > total || d > win.Length {
        return false;
      }
      CopiedNext(history, d, 0);
      for n := 0 to len
        invariant Valid() && (old(stopped) ==> stopped)
        invariant history == Copied(old(history), d, n) && total == old(total) + n
      {
        CopiedNext(old(history), d, n);
        var b := Back(d);
        Put(b);
      }
      ok := true;
    }

    /** The dictionary forgotten: no copy reaches behind this point. */
    method Reset()
      requires Valid()
      modifies this`total
      ensures Valid() && total == 0
    {
      total := 0;
    }

    /** What the window still holds handed on: with that the sink has everything. */
    method Close(ok: bool, bad: bool) returns (r: bool)
      requires Valid()
      modifies this`handed, this`stopped, this`calls
      ensures stopped <==> Refused(sink, Calls(|handed|, win.Length))
      ensures r ==> ok && !bad && !stopped && handed == history
      ensures !r ==> !ok || bad || stopped
      ensures old(stopped) ==> stopped
    {
      hide Refused, Windows;
      CallsAre(|handed|, win.Length, calls, 0);
      CallsAre(|handed|, win.Length, calls, wpos);
      if ok && !stopped && wpos > 0 {
        Hand(wpos);
      }
      r := ok && !stopped && !bad;
    }
  }
}
