/**
 * Sorted runs of free pages (src/kernel/mem.c), as values: what inserting, joining and
 * cutting runs does to the set of pages they stand for. Addresses are in pages.
 */
module PageRuns {

  datatype Run = Run(at: nat, count: nat) {
    function End(): (e: nat) { at + count }
    function Pages(): (s: set<nat>)
      ensures forall p :: p in s <==> at <= p < End()
    {
      SpanIs(at, count);
      Span(at, count)
    }
  }

  /** Pages at .. at + count. */
  function Span(at: nat, count: nat): (s: set<nat>)
  {
    if count == 0 then {} else Span(at, count - 1) + {at + count - 1}
  }

  lemma {:induction false} SpanIs(at: nat, count: nat)
    ensures |Span(at, count)| == count && forall p :: p in Span(at, count) <==> at <= p < at + count
  {
    if count > 0 { SpanIs(at, count - 1); }
  }

  /** Every page of every run. */
  function Pages(runs: seq<Run>): (s: set<nat>)
  {
    if runs == [] then {} else Pages(runs[..|runs| - 1]) + runs[|runs| - 1].Pages()
  }

  ghost predicate Proper(r: Run)
  {
    r.at > 0 && r.count > 0
  }

  /** In order, with at least a page between any two. */
  ghost predicate Sorted(runs: seq<Run>)
  {
    && (forall i :: 0 <= i < |runs| ==> Proper(runs[i]))
    && forall i, j :: 0 <= i < j < |runs| ==> runs[i].End() < runs[j].at
  }

  // ---- the set of pages

  lemma {:induction false} PagesJoin(a: seq<Run>, b: seq<Run>)
    ensures Pages(a + b) == Pages(a) + Pages(b)
    decreases |b|
  {
    if b == [] {
      assert a + b == a;
    } else {
      var m := |b| - 1;
      assert (a + b)[..|a + b| - 1] == a + b[..m];
      PagesJoin(a, b[..m]);
    }
  }

  lemma {:induction false} PagesOne(r: Run)
    ensures Pages([r]) == r.Pages()
  {
    assert [r][..0] == [];
    assert Pages([]) == {};
  }

  /** A run in the middle of others. */
  lemma {:induction false} PagesAmid(a: seq<Run>, r: Run, b: seq<Run>)
    ensures Pages(a + [r] + b) == Pages(a) + r.Pages() + Pages(b)
  {
    hide Pages;
    PagesJoin(a + [r], b);
    PagesJoin(a, [r]);
    PagesOne(r);
  }

  lemma {:induction false} PagesAround(runs: seq<Run>, i: nat)
    requires i < |runs|
    ensures Pages(runs) == Pages(runs[..i]) + runs[i].Pages() + Pages(runs[i + 1..])
  {
    hide Pages, Run.Pages;
    assert runs == runs[..i] + [runs[i]] + runs[i + 1..];
    PagesAmid(runs[..i], runs[i], runs[i + 1..]);
  }

  lemma {:induction false} PageOf(runs: seq<Run>, p: nat) returns (i: nat)
    requires p in Pages(runs)
    ensures i < |runs| && runs[i].at <= p < runs[i].End()
    decreases |runs|
  {
    i := |runs| - 1;
    if p !in runs[i].Pages() {
      i := PageOf(runs[..i], p);
    }
  }

  lemma {:induction false} PageIn(runs: seq<Run>, i: nat, p: nat)
    requires i < |runs| && runs[i].at <= p < runs[i].End()
    ensures p in Pages(runs)
  {
    PagesAround(runs, i);
  }

  lemma {:induction false} PageNone(runs: seq<Run>, p: nat)
    requires forall j :: 0 <= j < |runs| ==> !(runs[j].at <= p < runs[j].End())
    ensures p !in Pages(runs)
    decreases |runs|
  {
    if runs != [] { PageNone(runs[..|runs| - 1], p); }
  }

  lemma {:induction false} PageNotIn(runs: seq<Run>, i: nat, p: nat)
    requires i < |runs| && p !in Pages(runs)
    ensures !(runs[i].at <= p < runs[i].End())
  {
    hide Pages;
    if runs[i].at <= p < runs[i].End() { PageIn(runs, i, p); }
  }

  /** A page is in one run only. */
  lemma {:induction false} PageOnce(runs: seq<Run>, i: nat, p: nat)
    requires Sorted(runs) && i < |runs| && runs[i].at <= p < runs[i].End()
    ensures p !in Pages(runs[..i]) && p !in Pages(runs[i + 1..])
  {
    hide Pages;
    PageNone(runs[..i], p);
    PageNone(runs[i + 1..], p);
  }

  lemma {:induction false} PagesApart(runs: seq<Run>, i: nat)
    requires Sorted(runs) && i < |runs|
    ensures runs[i].Pages() !! Pages(runs[..i]) && runs[i].Pages() !! Pages(runs[i + 1..])
  {
    hide Pages;
    forall p | p in runs[i].Pages() ensures p !in Pages(runs[..i]) && p !in Pages(runs[i + 1..]) {
      PageOnce(runs, i, p);
    }
  }

  lemma {:induction false} CutOut(a: set<nat>, x: set<nat>, r: set<nat>, s: set<nat>, b: set<nat>)
    requires x == r + s && r !! s && x !! a && x !! b
    ensures a + r + b == a + x + b - s && s <= a + x + b
  {
  }

  lemma {:induction false} SortedWithout(runs: seq<Run>, i: nat)
    requires Sorted(runs) && i < |runs|
    ensures Sorted(Removed(runs, i))
  {
    var s := Removed(runs, i);
    assert forall j :: 0 <= j < |s| ==> s[j] == if j < i then runs[j] else runs[j + 1];
  }

  /** Run i gone: its pages, and no others. */
  lemma {:induction false} PagesWithout(runs: seq<Run>, i: nat)
    requires Sorted(runs) && i < |runs|
    ensures Sorted(Removed(runs, i)) && Pages(Removed(runs, i)) == Pages(runs) - runs[i].Pages()
      && runs[i].Pages() <= Pages(runs)
  {
    hide Pages, Run.Pages, Sorted;
    SortedWithout(runs, i);
    PagesAround(runs, i);
    PagesJoin(runs[..i], runs[i + 1..]);
    PagesApart(runs, i);
    CutOut(Pages(runs[..i]), runs[i].Pages(), {}, runs[i].Pages(), Pages(runs[i + 1..]));
  }

  function Removed(runs: seq<Run>, i: nat): (r: seq<Run>)
    requires i < |runs|
    ensures |r| == |runs| - 1
  {
    runs[..i] + runs[i + 1..]
  }

  function Inserted(runs: seq<Run>, i: nat, r: Run): (s: seq<Run>)
    requires i <= |runs|
    ensures |s| == |runs| + 1
  {
    runs[..i] + [r] + runs[i..]
  }

  lemma {:induction false} PagesInserted(runs: seq<Run>, i: nat, r: Run)
    requires i <= |runs|
    ensures Pages(Inserted(runs, i, r)) == Pages(runs) + r.Pages()
  {
    hide Pages;
    PagesAmid(runs[..i], r, runs[i..]);
    PagesJoin(runs[..i], runs[i..]);
    assert runs == runs[..i] + runs[i..];
  }

  lemma {:induction false} PagesReplaced(runs: seq<Run>, i: nat, r: Run)
    requires i < |runs|
    ensures Pages(runs[i := r]) == Pages(runs[..i]) + r.Pages() + Pages(runs[i + 1..])
  {
    hide Pages;
    PagesAround(runs[i := r], i);
    assert runs[i := r][..i] == runs[..i] && runs[i := r][i + 1..] == runs[i + 1..];
  }

  // ---- where a run goes

  /** i is where a run at at goes: those before it start below, the others not. */
  ghost predicate Goes(runs: seq<Run>, at: nat, i: nat)
  {
    i <= |runs| && (forall j :: 0 <= j < i ==> runs[j].at < at) && (forall j :: i <= j < |runs| ==> at <= runs[j].at)
  }

  ghost predicate Clear(runs: seq<Run>, r: Run)
  {
    Proper(r) && r.Pages() !! Pages(runs)
  }

  /** What is not free already lies between its neighbours. */
  lemma {:induction false} Between(runs: seq<Run>, r: Run, i: nat)
    requires Sorted(runs) && Clear(runs, r) && Goes(runs, r.at, i)
    ensures forall j :: 0 <= j < i ==> runs[j].End() <= r.at
    ensures forall j :: i <= j < |runs| ==> r.End() <= runs[j].at
  {
    hide Pages;
    assert r.at in r.Pages();
    forall j: nat | j < i ensures runs[j].End() <= r.at {
      PageNotIn(runs, j, r.at);
    }
    forall j: nat | i <= j < |runs| ensures r.End() <= runs[j].at {
      PageIn(runs, j, runs[j].at);
      assert runs[j].at !in r.Pages();
    }
  }

  /** The run before ends where this one starts; the one after starts where it ends. */
  predicate JoinsLow(runs: seq<Run>, r: Run, i: nat)
  {
    0 < i <= |runs| && runs[i - 1].End() == r.at
  }

  predicate JoinsHigh(runs: seq<Run>, r: Run, i: nat)
  {
    i < |runs| && r.End() == runs[i].at
  }

  /** A run that joins neither neighbour has a page between it and any other. */
  ghost predicate Alone(runs: seq<Run>, r: Run, i: nat)
  {
    i <= |runs| && (forall j :: 0 <= j < i ==> runs[j].End() < r.at)
      && (forall j :: i <= j < |runs| ==> r.End() < runs[j].at)
  }

  lemma {:induction false} StandsAlone(runs: seq<Run>, r: Run, i: nat)
    requires Sorted(runs) && Clear(runs, r) && Goes(runs, r.at, i) && !JoinsLow(runs, r, i) && !JoinsHigh(runs, r, i)
    ensures Alone(runs, r, i)
  {
    Between(runs, r, i);
    assert i > 0 ==> runs[i - 1].End() < r.at;
    assert i < |runs| ==> r.End() < runs[i].at;
  }

  /** Some run ends where this one starts, or starts where it ends. */
  ghost predicate Touches(runs: seq<Run>, r: Run)
  {
    exists j :: 0 <= j < |runs| && (runs[j].End() == r.at || r.End() == runs[j].at)
  }

  lemma {:induction false} AloneTouchesNone(runs: seq<Run>, r: Run, i: nat)
    requires Alone(runs, r, i) && Proper(r) && Sorted(runs)
    ensures !Touches(runs, r)
  {
    forall j | 0 <= j < |runs| ensures runs[j].End() != r.at && r.End() != runs[j].at {
      assert Proper(runs[j]);
    }
  }

  /** Without one of the others it still stands alone. */
  lemma {:induction false} AloneWithout(runs: seq<Run>, r: Run, i: nat, v: nat)
    requires Alone(runs, r, i) && v < |runs|
    ensures Alone(Removed(runs, v), r, if v < i then i - 1 else i)
  {
    var s := Removed(runs, v);
    assert forall j :: 0 <= j < |s| ==> s[j] == if j < v then runs[j] else runs[j + 1];
  }

  lemma {:induction false} SortedAmid(runs: seq<Run>, r: Run, i: nat)
    requires Sorted(runs) && Proper(r) && Alone(runs, r, i)
    ensures Sorted(Inserted(runs, i, r))
  {
    var s := Inserted(runs, i, r);
    assert forall j :: 0 <= j < |s| ==> s[j] == if j < i then runs[j] else if j == i then r else runs[j - 1];
  }

  /** Onto the end of run i - 1, and when that closes a gap the two become one. */
  function JoinedLow(runs: seq<Run>, r: Run, i: nat): (s: seq<Run>)
    requires JoinsLow(runs, r, i)
  {
    if JoinsHigh(runs, r, i) then
      Removed(runs[i - 1 := Run(runs[i - 1].at, runs[i - 1].count + r.count + runs[i].count)], i)
    else runs[i - 1 := Run(runs[i - 1].at, runs[i - 1].count + r.count)]
  }

  function JoinedHigh(runs: seq<Run>, r: Run, i: nat): (s: seq<Run>)
    requires JoinsHigh(runs, r, i)
  {
    runs[i := Run(r.at, runs[i].count + r.count)]
  }

  lemma {:induction false} LowJoined(runs: seq<Run>, r: Run, i: nat)
    requires Sorted(runs) && Clear(runs, r) && Goes(runs, r.at, i) && JoinsLow(runs, r, i)
    ensures Sorted(JoinedLow(runs, r, i)) && Pages(JoinedLow(runs, r, i)) == Pages(runs) + r.Pages()
  {
    Between(runs, r, i);
    LowPages(runs, r, i);
    hide Pages, Clear, Goes;
    SortedLow(runs, r, i);
  }

  lemma {:induction false} SortedLow(runs: seq<Run>, r: Run, i: nat)
    requires Sorted(runs) && Proper(r) && JoinsLow(runs, r, i) && forall j :: i <= j < |runs| ==> r.End() <= runs[j].at
    ensures Sorted(JoinedLow(runs, r, i))
  {
    if JoinsHigh(runs, r, i) { SortedClosed(runs, r, i); } else { SortedLonger(runs, r, i); }
  }

  lemma {:induction false} SortedClosed(runs: seq<Run>, r: Run, i: nat)
    requires Sorted(runs) && Proper(r) && JoinsLow(runs, r, i) && JoinsHigh(runs, r, i)
    ensures Sorted(JoinedLow(runs, r, i))
  {
    hide JoinedLow, JoinsLow, JoinsHigh;
    var s := JoinedLow(runs, r, i);
    ClosedAt(runs, r, i);
    forall j, k | 0 <= j < k < |s| ensures s[j].End() < s[k].at {
      assert runs[if j < i - 1 then j else j + 1].End() < runs[if k < i then k else k + 1].at;
    }
    forall j | 0 <= j < |s| ensures Proper(s[j]) {
      assert Proper(runs[if j < i then j else j + 1]);
    }
  }

  /** Where the gap before run i is closed, run i - 1 ends where run i did and the later ones move down. */
  lemma {:induction false} ClosedAt(runs: seq<Run>, r: Run, i: nat)
    requires JoinsLow(runs, r, i) && JoinsHigh(runs, r, i)
    ensures 0 < i < |runs| && |JoinedLow(runs, r, i)| == |runs| - 1
    ensures var s := JoinedLow(runs, r, i);
      forall j :: 0 <= j < |s| ==>
        && s[j].End() == runs[if j < i - 1 then j else j + 1].End()
        && s[j].at == runs[if j < i then j else j + 1].at
        && s[j].count >= runs[if j < i then j else j + 1].count
  {
  }

  lemma {:induction false} SortedLonger(runs: seq<Run>, r: Run, i: nat)
    requires Sorted(runs) && Proper(r) && JoinsLow(runs, r, i) && !JoinsHigh(runs, r, i)
    requires forall j :: i <= j < |runs| ==> r.End() <= runs[j].at
    ensures Sorted(JoinedLow(runs, r, i))
  {
    var s := JoinedLow(runs, r, i);
    assert i < |runs| ==> r.End() < runs[i].at;
    forall j, k | 0 <= j < k < |s| ensures s[j].End() < s[k].at {
      assert s[k].at == runs[k].at;
      assert runs[j].End() < runs[k].at;
      if j == i - 1 { assert s[j].End() == r.End(); }
    }
    forall j | 0 <= j < |s| ensures Proper(s[j]) {
      assert Proper(runs[j]);
    }
  }

  lemma {:induction false} Together(x: Run, r: Run, n: Run)
    requires x.End() == r.at && n == Run(x.at, x.count + r.count)
    ensures n.Pages() == x.Pages() + r.Pages()
  {
  }

  lemma {:induction false} LowPages(runs: seq<Run>, r: Run, i: nat)
    requires JoinsLow(runs, r, i)
    ensures Pages(JoinedLow(runs, r, i)) == Pages(runs) + r.Pages()
  {
    hide Pages, Run.Pages;
    var x := runs[i - 1];
    var xr := Run(x.at, x.count + r.count);
    Together(x, r, xr);
    PagesAround(runs, i - 1);
    assert runs[..i - 1 + 1] == runs[..i];
    var (a, b) := (Pages(runs[..i - 1]), Pages(runs[i..]));
    if JoinsHigh(runs, r, i) {
      var y := runs[i];
      var n := Run(x.at, x.count + r.count + y.count);
      Together(xr, y, n);
      assert JoinedLow(runs, r, i) == runs[..i - 1] + [n] + runs[i + 1..];
      PagesAmid(runs[..i - 1], n, runs[i + 1..]);
      assert runs[i..] == [y] + runs[i + 1..];
      PagesJoin([y], runs[i + 1..]);
      PagesOne(y);
      Regrouped(a, x.Pages(), r.Pages(), y.Pages(), Pages(runs[i + 1..]));
    } else {
      PagesReplaced(runs, i - 1, xr);
      Regrouped(a, x.Pages(), r.Pages(), {}, b);
    }
  }

  lemma {:induction false} Regrouped(a: set<nat>, x: set<nat>, r: set<nat>, y: set<nat>, b: set<nat>)
    ensures a + (x + r + y) + b == a + x + (y + b) + r
    ensures y == {} ==> a + (x + r) + b == a + x + b + r
  {
  }

  lemma {:induction false} HighJoined(runs: seq<Run>, r: Run, i: nat)
    requires Sorted(runs) && Clear(runs, r) && Goes(runs, r.at, i) && JoinsHigh(runs, r, i) && !JoinsLow(runs, r, i)
    ensures Sorted(JoinedHigh(runs, r, i)) && Pages(JoinedHigh(runs, r, i)) == Pages(runs) + r.Pages()
  {
    Between(runs, r, i);
    HighPages(runs, r, i);
    hide Pages, Clear;
    SortedHigh(runs, r, i);
  }

  lemma {:induction false} SortedHigh(runs: seq<Run>, r: Run, i: nat)
    requires Sorted(runs) && Proper(r) && JoinsHigh(runs, r, i) && !JoinsLow(runs, r, i) && forall j :: 0 <= j < i ==>
      runs[j].End() <= r.at
    ensures Sorted(JoinedHigh(runs, r, i))
  {
    var s := JoinedHigh(runs, r, i);
    assert i > 0 ==> runs[i - 1].End() < r.at;
    assert forall j :: 0 <= j < |s| ==> s[j].End() == runs[j].End() && (j != i ==> s[j] == runs[j]);
    assert s[i].at == r.at;
  }

  lemma {:induction false} HighPages(runs: seq<Run>, r: Run, i: nat)
    requires JoinsHigh(runs, r, i)
    ensures Pages(JoinedHigh(runs, r, i)) == Pages(runs) + r.Pages()
  {
    hide Pages, Run.Pages;
    var y := runs[i];
    var n := Run(r.at, y.count + r.count);
    Together(r, y, n);
    PagesAround(runs, i);
    PagesReplaced(runs, i, n);
    Regrouped(Pages(runs[..i]), y.Pages(), r.Pages(), {}, Pages(runs[i + 1..]));
  }

  // ---- cutting a run short

  /** Run i left with its first k pages, or gone if that is none. */
  function Trimmed(runs: seq<Run>, i: nat, k: nat): (s: seq<Run>)
    requires i < |runs| && k <= runs[i].count
    ensures |s| == if k == 0 then |runs| - 1 else |runs|
  {
    if k == 0 then Removed(runs, i) else runs[i := Run(runs[i].at, k)]
  }

  lemma {:induction false} TrimmedIs(runs: seq<Run>, i: nat, k: nat)
    requires Sorted(runs) && i < |runs| && k <= runs[i].count
    ensures Sorted(Trimmed(runs, i, k))
    ensures Pages(Trimmed(runs, i, k)) == Pages(runs) - Span(runs[i].at + k, runs[i].count - k)
    ensures Span(runs[i].at + k, runs[i].count - k) <= Pages(runs)
  {
    hide Pages, Sorted;
    var (x, rest) := (runs[i], Run(runs[i].at + k, runs[i].count - k));
    if k == 0 {
      PagesWithout(runs, i);
    } else {
      var r := Run(x.at, k);
      Together(r, rest, x);
      PagesReplaced(runs, i, r);
      PagesAround(runs, i);
      PagesApart(runs, i);
      assert r.Pages() !! rest.Pages();
      hide Run.Pages, Span;
      CutOut(Pages(runs[..i]), x.Pages(), r.Pages(), rest.Pages(), Pages(runs[i + 1..]));
      SortedTrimmed(runs, i, k);
    }
  }

  lemma {:induction false} SortedTrimmed(runs: seq<Run>, i: nat, k: nat)
    requires Sorted(runs) && i < |runs| && 0 < k <= runs[i].count
    ensures Sorted(runs[i := Run(runs[i].at, k)])
  {
    var s := runs[i := Run(runs[i].at, k)];
    assert forall j :: 0 <= j < |s| ==> s[j].at == runs[j].at && 0 < s[j].count <= runs[j].count;
    assert forall j :: 0 <= j < |runs| ==> Proper(runs[j]);
  }

  /** The page that a free page with no free page before it is in starts its run. */
  ghost predicate Starts(runs: seq<Run>, p: nat)
  {
    exists i :: 0 <= i < |runs| && runs[i].at == p
  }

  lemma {:induction false} FirstStarts(runs: seq<Run>, p: nat)
    requires p in Pages(runs) && (p == 0 || p - 1 !in Pages(runs))
    ensures Starts(runs, p)
  {
    hide Pages;
    var i := PageOf(runs, p);
    if p > 0 { PageNotIn(runs, i, p - 1); }
  }

  // ---- blocks

  ghost predicate Block(free: set<nat>, at: nat, count: nat)
  {
    forall p :: at <= p < at + count ==> p in free
  }

  /** Pages side by side are in one run, since runs never touch. */
  lemma {:induction false} BlockInRun(runs: seq<Run>, at: nat, count: nat) returns (i: nat)
    requires Sorted(runs) && count > 0 && Block(Pages(runs), at, count)
    ensures i < |runs| && runs[i].at <= at && at + count <= runs[i].End()
    decreases count
  {
    hide Pages;
    if count == 1 {
      i := PageOf(runs, at);
    } else {
      i := BlockInRun(runs, at, count - 1);
      var j := PageOf(runs, at + count - 1);
      NextSame(runs, i, j, at + count - 1);
    }
  }

  /** Neighbouring pages are in the same run. */
  lemma {:induction false} NextSame(runs: seq<Run>, i: nat, j: nat, p: nat)
    requires Sorted(runs) && i < |runs| && j < |runs| && runs[i].at < p <= runs[i].End()
      && runs[j].at <= p < runs[j].End()
    ensures i == j
  {
  }

  // ---- how many pages

  function Total(runs: seq<Run>): (n: nat)
  {
    if runs == [] then 0 else Total(runs[..|runs| - 1]) + runs[|runs| - 1].count
  }

  lemma {:induction false} TotalIs(runs: seq<Run>)
    requires Sorted(runs)
    ensures |Pages(runs)| == Total(runs)
    decreases |runs|
  {
    if runs != [] {
      var m := |runs| - 1;
      TotalIs(runs[..m]);
      RunSize(runs[m]);
      PagesApart(runs, m);
      hide Span, Run.Pages;
      SizeOf(Pages(runs[..m]), runs[m].Pages());
    }
  }

  lemma {:induction false} RunSize(r: Run)
    ensures |r.Pages()| == r.count
  {
    SpanIs(r.at, r.count);
  }

  lemma {:induction false} SizeOf(a: set<nat>, b: set<nat>)
    requires a !! b
    ensures |a + b| == |a| + |b|
  {
  }
}
