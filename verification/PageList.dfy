/**
 * The page allocator (src/kernel/mem.c) once memory is the kernel's own: a bounded list
 * of runs and a chain of single pages, which together are one set of free pages.
 */
module PageList {
  import opened PageRuns

  const RUNS: nat := 512
  /** The first page past the gigabyte that a program at a fixed address may hide. */
  const FLOOR: nat := 0x40000
  const FILL: nat := 16

  /** The pages of a chain that starts at first, each holding the number of the next in its own first word. */
  ghost predicate Chained(word: map<nat, nat>, first: nat, chain: seq<nat>)
    decreases |chain|
  {
    if chain == [] then first == 0
    else first == chain[0] && first != 0 && first in word && Chained(word, word[first], chain[1..])
  }

  lemma {:induction false} ChainedElsewhere(word: map<nat, nat>, first: nat, chain: seq<nat>, p: nat, w: nat)
    requires Chained(word, first, chain) && p !in chain
    ensures Chained(word[p := w], first, chain)
    decreases |chain|
  {
    if chain != [] {
      assert chain[0] in chain;
      ChainedElsewhere(word, word[first], chain[1..], p, w);
    }
  }

  ghost predicate Distinct(chain: seq<nat>)
  {
    forall i, j :: 0 <= i < j < |chain| ==> chain[i] != chain[j]
  }

  ghost function Members(chain: seq<nat>): (s: set<nat>)
  {
    set p | p in chain
  }

  /** A chain of single pages, all above the floor and none twice. */
  ghost predicate LooseOk(word: map<nat, nat>, loose: nat, count: nat, chain: seq<nat>)
  {
    && Chained(word, loose, chain) && count == |chain| && Distinct(chain) && forall p :: p in chain ==> FLOOR <= p
  }

  lemma {:induction false} LooseMore(word: map<nat, nat>, loose: nat, count: nat, chain: seq<nat>, p: nat)
    requires LooseOk(word, loose, count, chain) && p !in chain && FLOOR <= p
    ensures LooseOk(word[p := loose], p, count + 1, [p] + chain) && Members([p] + chain) == Members(chain) + {p}
  {
    ChainedElsewhere(word, loose, chain, p, loose);
    assert ([p] + chain)[1..] == chain;
  }

  lemma {:induction false} LooseLess(word: map<nat, nat>, loose: nat, count: nat, chain: seq<nat>)
    requires LooseOk(word, loose, count, chain) && loose != 0
    ensures count > 0 && chain != [] && loose == chain[0] && loose in word && FLOOR <= loose
    ensures LooseOk(word, word[loose], count - 1, chain[1..]) && Members(chain[1..]) == Members(chain) - {loose}
      && loose in Members(chain)
  {
    assert chain == [loose] + chain[1..];
    assert loose in chain;
    assert forall p :: p in chain[1..] ==> p in chain;
  }

  lemma {:induction false} LooseNone(word: map<nat, nat>, loose: nat, count: nat, chain: seq<nat>)
    requires LooseOk(word, loose, count, chain)
    ensures loose == 0 <==> chain == []
    ensures loose == 0 <==> count == 0
  {
  }

  lemma {:induction false} MembersSize(chain: seq<nat>)
    requires Distinct(chain)
    ensures |Members(chain)| == |chain|
    decreases |chain|
  {
    if chain != [] {
      MembersSize(chain[1..]);
      assert chain == [chain[0]] + chain[1..];
      assert Members(chain) == Members(chain[1..]) + {chain[0]};
      assert chain[0] !in chain[1..];
    } else {
      assert Members(chain) == {};
    }
  }

  /** The pages of a span that may go on the chain. */
  ghost function High(at: nat, count: nat): (s: set<nat>)
  {
    if count == 0 then {} else High(at, count - 1) + if at + count - 1 >= FLOOR then {at + count - 1} else {}
  }

  lemma {:induction false} HighIs(at: nat, count: nat)
    ensures forall p :: p in High(at, count) <==> at <= p < at + count && FLOOR <= p
  {
    if count > 0 { HighIs(at, count - 1); }
  }

  /** Nothing joins, the list is full, and neither this run nor any in it may go on the chain whole. */
  ghost predicate NoRoom(runs: seq<Run>, r: Run)
  {
    r.count > 0 && |runs| >= RUNS && !Touches(runs, r) && r.at < FLOOR && forall j :: 0 <= j < |runs| ==>
      runs[j].at < FLOOR
  }

  /** Nothing joins, the list is full, and no run in it that may go on the chain is smaller: this one goes there. */
  ghost predicate Shunted(runs: seq<Run>, r: Run)
  {
    && r.count > 0 && |runs| >= RUNS && !Touches(runs, r) && r.at >= FLOOR
    && forall j :: 0 <= j < |runs| && runs[j].at >= FLOOR ==> runs[j].count >= r.count
  }

  /**
   * Page taken out of the middle of run i of a full list: what is left of the run after it is
   * above the floor, and no run above the floor is smaller.
   */
  ghost predicate Strands(runs: seq<Run>, i: nat, page: nat)
  {
    && i < |runs| && |runs| >= RUNS && runs[i].at < page && FLOOR <= page + 1 < runs[i].End()
    && forall j :: 0 <= j < |runs| && runs[j].at >= FLOOR ==>
      runs[i].End() - page - 1 <= if j == i then page - runs[i].at else runs[j].count
  }

  lemma {:induction false} StrandsIs(runs: seq<Run>, i: nat, page: nat)
    requires Sorted(runs) && i < |runs| && runs[i].at <= page < runs[i].End() && |runs| <= RUNS
    ensures Strands(runs, i, page) <==>
      Shunted(Trimmed(runs, i, page - runs[i].at), Run(page + 1, runs[i].End() - page - 1))
  {
    var t, r := Trimmed(runs, i, page - runs[i].at), Run(page + 1, runs[i].End() - page - 1);
    if runs[i].at < page {
      assert t == runs[i := Run(runs[i].at, page - runs[i].at)];
      TailTouchesNone(runs, i, page);
      hide Touches, Sorted, Trimmed;
      assert |t| == |runs| && forall j :: 0 <= j < |t| ==>
        t[j].at == runs[j].at && t[j].count == if j == i then page - runs[i].at else runs[j].count;
    }
  }

  lemma {:induction false} TailTouchesNone(runs: seq<Run>, i: nat, page: nat)
    requires Sorted(runs) && i < |runs| && runs[i].at < page < runs[i].End()
    ensures page + 1 < runs[i].End() ==>
      !Touches(runs[i := Run(runs[i].at, page - runs[i].at)], Run(page + 1, runs[i].End() - page - 1))
  {
    var t := runs[i := Run(runs[i].at, page - runs[i].at)];
    forall j | 0 <= j < |t| && page + 1 < runs[i].End() ensures t[j].End() != page + 1 && runs[i].End() != t[j].at {
      assert j < i ==> runs[j].End() < runs[i].at;
      assert i < j ==> runs[i].End() < runs[j].at;
    }
  }

  /** What a full list gives up: a run above the floor before one below it, and the first smallest of those. */
  ghost predicate Victim(runs: seq<Run>, n: nat, v: nat)
  {
    && v < n <= |runs|
    && (forall j :: 0 <= j < n ==> !Before(runs[j], runs[v]))
    && forall j :: 0 <= j < v ==> Before(runs[v], runs[j])
  }

  /** The one is given up rather than the other. */
  ghost predicate Before(r: Run, s: Run)
  {
    (r.at >= FLOOR && s.at < FLOOR) || ((r.at >= FLOOR <==> s.at >= FLOOR) && r.count < s.count)
  }

  /** Nothing, or the pages below the floor of the run that a full list gives up. */
  ghost predicate Forfeits(runs: seq<Run>, lost: set<nat>)
  {
    lost == {} || exists v: nat :: Victim(runs, |runs|, v) && lost == Low(runs[v])
  }

  /** The same of a list from whose run i page has been taken. */
  ghost predicate ForfeitsAt(runs: seq<Run>, i: nat, page: nat, lost: set<nat>)
  {
    i < |runs| && runs[i].at <= page <= runs[i].End() && Forfeits(Trimmed(runs, i, page - runs[i].at), lost)
  }

  class Free {
    var runs: seq<Run>
    var loose: nat
    var looseCount: nat
    /** First words of pages. */
    var word: map<nat, nat>
    ghost var chain: seq<nat>

    ghost predicate Valid()
      reads this
    {
      && Sorted(runs) && |runs| <= RUNS && LooseOk(word, loose, looseCount, chain) && Pages(runs) !! Members(chain)
    }

    ghost function Pool(): set<nat>
      reads this
    {
      Pages(runs) + Members(chain)
    }

    constructor ()
      ensures Valid() && Pool() == {}
    {
      runs, loose, looseCount, word, chain := [], 0, 0, map[], [];
    }

    /** A span onto the chain, a page at a time; pages below the floor are lost. */
    method Loosen(at: nat, count: nat)
      requires LooseOk(word, loose, looseCount, chain) && Span(at, count) !! Members(chain)
      modifies this`word, this`loose, this`looseCount, this`chain
      ensures LooseOk(word, loose, looseCount, chain) && Members(chain) == old(Members(chain)) + High(at, count)
    {
      hide LooseOk, Members, High, Span;
      LoosenStart(at, Members(chain));
      for i := 0 to count
        invariant LooseOk(word, loose, looseCount, chain) && Members(chain) == old(Members(chain)) + High(at, i)
      {
        LoosenNext(at, count, i, old(Members(chain)), chain);
        if at + i >= FLOOR {
          LooseMore(word, loose, looseCount, chain, at + i);
          word := word[at + i := loose];
          loose := at + i;
          looseCount := looseCount + 1;
          chain := [at + i] + chain;
        }
      }
    }

    /** The run a full list gives up. */
    method Smallest() returns (v: nat)
      requires runs != []
      ensures Victim(runs, |runs|, v)
    {
      v := 0;
      for j := 1 to |runs|
        invariant Victim(runs, j, v)
      {
        var high, bestHigh := runs[j].at >= FLOOR, runs[v].at >= FLOOR;
        if (high && !bestHigh) || (high == bestHigh && runs[j].count < runs[v].count) {
          v := j;
        }
      }
    }

    /** Where a run starting at at goes. */
    method Where(at: nat) returns (i: nat)
      requires Sorted(runs)
      ensures Goes(runs, at, i)
    {
      i := 0;
      while i < |runs| && runs[i].at < at
        invariant i <= |runs| && forall j :: 0 <= j < i ==> runs[j].at < at
      {
        i := i + 1;
      }
      Ascending(runs);
    }

    /**
     * A span put back, joined to whatever it touches. Every page is free afterwards, but
     * where a full list of runs below the floor gives up its smallest.
     */
    method RunAdd(at: nat, count: nat) returns (ghost lost: set<nat>)
      requires Valid() && (count > 0 ==> at > 0) && Span(at, count) !! Pool()
      modifies this
      ensures Valid() && Pool() == old(Pool()) + Span(at, count) - lost
      ensures lost != {} <==> NoRoom(old(runs), Run(at, count))
      ensures |old(runs)| < RUNS ==>
        && chain == old(chain) && |runs| <= |old(runs)| + (if count == 0 then 0 else 1)
        && Pages(runs) == old(Pages(runs)) + Span(at, count)
      ensures Forfeits(old(runs), lost) && forall p :: p in lost ==> p < FLOOR && p in old(Pages(runs))
      ensures if Shunted(old(runs), Run(at, count)) then runs == old(runs) && Span(at, count) <= Members(chain)
              else Span(at, count) <= Pages(runs)
    {
      hide Pages, Run.Pages, Span, Members, LooseOk, Sorted, NoRoom, Shunted, Goes, Clear, Alone, Touches, JoinedLow,
        JoinedHigh, Inserted;
      lost := {};
      ForfeitsIs(runs, 0);
      hide Forfeits, Victim;
      var r := Run(at, count);
      AddFacts(this, r);
      if count == 0 {
        return;
      }
      var i := Where(at);
      if i > 0 && runs[i - 1].End() == at {
        LowAdded(this, r, i);
        runs := JoinedLow(runs, r, i);
        return;
      }
      if i < |runs| && at + count == runs[i].at {
        HighAdded(this, r, i);
        runs := JoinedHigh(runs, r, i);
        return;
      }
      AddsAlone(this, r, i);
      if |runs| == RUNS {
        lost := AddFull(r, i);
        return;
      }
      AloneAdded(this, r, i);
      runs := Inserted(runs, i, r);
    }

    /** The same with a full list: the run itself goes on the chain, or one from the list does to make room. */
    method AddFull(r: Run, i: nat) returns (ghost lost: set<nat>)
      requires Valid() && Proper(r) && r.Pages() !! Pool() && Alone(runs, r, i) && !Touches(runs, r) && |runs| == RUNS
      modifies this
      ensures Valid() && Pool() == old(Pool()) + r.Pages() - lost
      ensures lost != {} <==> NoRoom(old(runs), r)
      ensures Forfeits(old(runs), lost) && forall p :: p in lost ==> p < FLOOR && p in old(Pages(runs))
      ensures if Shunted(old(runs), r) then runs == old(runs) && r.Pages() <= Members(chain)
              else r.Pages() <= Pages(runs)
    {
      hide *;
      FullFacts(this, r);
      var v := Smallest();
      VictimLow(runs, v, r);
      VictimShunts(runs, v, r);
      ForfeitsIs(runs, v);
      if r.at >= FLOOR && (runs[v].at < FLOOR || runs[v].count >= r.count) {
        HighRoom(runs, r);
        Loosen(r.at, r.count);
        LoosenedRun(this, old(chain), r);
        lost := {};
        return;
      }
      VictimSwap(runs, v, r, i);
      lost := Low(runs[v]);
      ghost var w := runs[v];
      VictimApart(this, v);
      Loosen(runs[v].at, runs[v].count);
      runs := Inserted(Removed(runs, v), if v < i then i - 1 else i, r);
      GivenUp(this, old(runs), old(chain), w, r, lost);
    }

    /** The run that holds page, or one past the last. */
    method Holder(page: nat) returns (i: nat)
      ensures i <= |runs| && (i < |runs| ==> runs[i].at <= page < runs[i].End())
        && (i == |runs| ==> page !in Pages(runs))
    {
      hide Pages;
      for j := 0 to |runs|
        invariant forall k :: 0 <= k < j ==> !(runs[k].at <= page < runs[k].End())
      {
        if runs[j].at <= page < runs[j].End() {
          return j;
        }
      }
      i := |runs|;
      PageNone(runs, page);
    }

    /** Page out of whatever run holds it. */
    method RunTake(page: nat) returns (ok: bool, ghost i: nat, ghost lost: set<nat>)
      requires Valid()
      modifies this
      ensures Valid() && (ok <==> page in old(Pages(runs)))
      ensures Pool() == if ok then old(Pool()) - {page} - lost else old(Pool())
      ensures forall p :: p in lost ==> p < FLOOR && p in old(Pages(runs)) && p != page
      ensures |old(runs)| < RUNS || Starts(old(runs), page) ==>
        lost == {} && chain == old(chain) && |runs| <= |old(runs)| + (if Starts(old(runs), page) then 0 else 1)
      ensures lost != {} ==> |old(runs)| == RUNS && forall j :: 0 <= j < |old(runs)| ==> old(runs)[j].at < FLOOR
      ensures !ok ==> runs == old(runs) && chain == old(chain)
      ensures ok ==> i < |old(runs)| && old(runs)[i].at <= page < old(runs)[i].End()
      ensures ok ==> ForfeitsAt(old(runs), i, page, lost)
      ensures ok ==> var rest := Span(page + 1, old(runs)[i].End() - page - 1);
        if Strands(old(runs), i, page) then rest <= Members(chain) && lost == {} else rest <= Pages(runs)
    {
      hide *;
      lost := {};
      PoolIs(this);
      var h := Holder(page);
      i := h;
      if h == |runs| {
        return false, i, lost;
      }
      var k, after := page - runs[h].at, runs[h].End() - page - 1;
      ghost var runs0 := runs;
      EndIs(runs[h]);
      TakePages(runs, h, page, chain);
      TakeRoom(runs, h, page);
      StrandsIs(runs, h, page);
      runs := Trimmed(runs, h, k);
      TrimmedOk(this);
      ShuntedHigh(runs, Run(page + 1, after));
      lost := RunAdd(page + 1, after);
      TakenFacts(this, runs0, old(chain), h, page, lost);
      ForfeitsAtIs(runs0, h, page, lost);
      ok := true;
    }

    /** Sixteen single pages off the top end of the highest run that has them above the floor. */
    method Fill()
      requires Valid()
      modifies this
      ensures Valid() && Pool() == old(Pool())
    {
      hide *;
      PoolIs(this);
      for i := |runs| downto 0
        invariant runs == old(runs) && chain == old(chain) && Valid() && Pool() == old(Pool())
      {
        EndIs(runs[i]);
        PoolIs(this);
        if runs[i].count >= FILL && runs[i].End() > FLOOR + FILL {
          var k := runs[i].count - FILL;
          var at := runs[i].at + k;
          TrimPages(runs, i, k, chain);
          runs := Trimmed(runs, i, k);
          HighRoom(runs, Run(at, FILL));
          Loosen(at, FILL);
          Filled(this, old(runs), old(chain), at);
          return;
        }
      }
    }

    /** The first page of the chain. */
    method Pop() returns (at: nat)
      requires Valid() && loose != 0
      modifies this`loose, this`looseCount, this`chain
      ensures Valid() && at > 0 && at in old(Members(chain)) && Members(chain) == old(Members(chain)) - {at}
        && |chain| == |old(chain)| - 1
      ensures at == old(loose)
    {
      hide Sorted, Pages, LooseOk;
      LooseLess(word, loose, looseCount, chain);
      LooseSize(word, loose, looseCount, chain);
      at := loose;
      loose := word[at];
      looseCount := looseCount - 1;
      chain := chain[1..];
    }

    /** count pages off the top end of the highest run that has as many. */
    method TakeRun(count: nat) returns (at: nat)
      requires Valid()
      modifies this`runs
      ensures Valid() && |runs| <= |old(runs)|
      ensures at == 0 ==> runs == old(runs) && forall j :: 0 <= j < |runs| ==> runs[j].count < count
      ensures at != 0 ==> Span(at, count) <= old(Pages(runs)) && Pages(runs) == old(Pages(runs)) - Span(at, count)
      ensures at != 0 ==> exists i: nat :: TopOf(old(runs), i, at, count)
    {
      hide *;
      PoolIs(this);
      for i := |runs| downto 0
        invariant runs == old(runs)
        invariant forall j :: i <= j < |runs| ==> runs[j].count < count
      {
        if runs[i].count >= count {
          var k := runs[i].count - count;
          at := runs[i].at + k;
          TrimPages(runs, i, k, chain);
          TopIs(runs, i, at, count);
          runs := Trimmed(runs, i, k);
          TrimmedOk(this);
          return;
        }
      }
      at := 0;
    }

    /** The single pages back into runs, where neighbours join up again, while the list has room. */
    method Drain()
      requires Valid()
      modifies this
      ensures Valid() && Pool() == old(Pool())
      ensures chain != [] ==> |runs| >= RUNS - 1
    {
      hide *;
      PoolIs(this);
      while loose != 0 && |runs| < RUNS - 1
        invariant Valid() && Pool() == old(Pool())
        decreases |chain|
      {
        PoolIs(this);
        ghost var was := Members(chain);
        var at := Pop();
        PoolIs(this);
        Popped(Pages(runs), was, Members(chain), at);
        RoomFor();
        var _ := RunAdd(at, 1);
        PoolIs(this);
      }
      PoolIs(this);
      LooseNone(word, loose, looseCount, chain);
    }

    /**
     * count pages together, or 0. That there are none means that no so many pages side by
     * side were free, as long as draining the chain emptied it.
     */
    method Take(count: nat) returns (at: nat)
      requires Valid()
      modifies this
      ensures Valid()
      ensures at != 0 ==> Span(at, count) <= old(Pool()) && Pool() == old(Pool()) - Span(at, count)
      ensures at == 0 ==> Pool() == old(Pool()) && (chain != [] ==> |runs| >= RUNS - 1)
      ensures at == 0 ==> forall j :: 0 <= j < |runs| ==> runs[j].count < count
      ensures count == 1 && old(loose) != 0 ==> at == old(loose)
      ensures count != 1 && (exists j :: 0 <= j < |old(runs)| && old(runs)[j].count >= count) ==>
        exists i: nat :: TopOf(old(runs), i, at, count)
      ensures at == 0 && chain == [] && count > 0 ==> forall s :: !Block(old(Pool()), s, count)
    {
      hide *;
      if count == 1 && loose == 0 {
        Fill();
      }
      ghost var runs0, chain0 := runs, chain;
      PoolIs(this);
      if count == 1 && loose != 0 {
        at := Pop();
        PoolIs(this);
        PoppedOne(Pages(runs), Members(chain0), Members(chain), at);
        return;
      }
      at := TakeRun(count);
      PoolIs(this);
      LooseNone(word, loose, looseCount, chain);
      if at != 0 {
        RunTaken(Pages(runs0), Pages(runs), Members(chain), Span(at, count));
        return;
      }
      if looseCount == 0 {
        NoBlock(runs, chain, count);
        return;
      }
      Drain();
      ghost var runs1 := runs;
      PoolIs(this);
      at := TakeRun(count);
      PoolIs(this);
      if at != 0 {
        RunTaken(Pages(runs1), Pages(runs), Members(chain), Span(at, count));
      } else if chain == [] {
        NoBlock(runs, chain, count);
      }
    }

    /**
     * count pages together that end at or below limit, from the highest run that has them. What
     * is given is free no longer exactly when the pages are not Doubled.
     */
    method TakeBelow(count: nat, limit: nat) returns (at: nat, ghost lost: set<nat>)
      requires Valid()
      modifies this
      ensures Valid()
      ensures at == 0 ==> runs == old(runs) && chain == old(chain)
      ensures at == 0 && count > 0 ==> forall s: nat :: s + count <= limit ==> !Block(old(Pages(runs)), s, count)
      ensures at != 0 ==> Span(at, count) <= old(Pages(runs)) && at + count <= limit
      ensures at != 0 ==>
        Pool() == if Doubled(old(runs), count, limit) then old(Pool()) - {at} else old(Pool()) - Span(at, count) - lost
      ensures at != 0 ==> (Span(at, count) !! Pool() <==> !Doubled(old(runs), count, limit))
      ensures lost != {} ==> |old(runs)| == RUNS && forall j :: 0 <= j < |old(runs)| ==> old(runs)[j].at < FLOOR
      ensures lost != {} ==> exists i: nat :: Highest(old(runs), i, count, limit) && ForfeitsAt(old(runs), i, at, lost)
    {
      hide *;
      PoolIs(this);
      for i := |runs| downto 0
        invariant Valid() && runs == old(runs) && chain == old(chain)
        invariant forall j :: i <= j < |runs| ==> !Fits(runs[j], count, limit)
      {
        EndIs(runs[i]);
        var end := if runs[i].End() > limit then limit else runs[i].End();
        FitsIs(runs, i, count, limit);
        if end >= runs[i].at + count {
          at := end - count;
          BlockOf(runs, i, at, count);
          DoubledIs(runs, i, count, limit);
          PoolIs(this);
          lost := TakeEach(at, count, i);
          GivenTwice(this, old(Pool()), at, count, lost, Doubled(old(runs), count, limit));
          return;
        }
      }
      if count > 0 { NoneBelow(runs, count, limit); }
      at, lost := 0, {};
    }

    /**
     * These pages of run i, one by one. Whether each was there is not looked at: when the first has
     * sent the rest of its run to the chain, the others stay there.
     */
    method TakeEach(at: nat, count: nat, ghost i: nat) returns (ghost lost: set<nat>)
      requires Valid() && i < |runs| && runs[i].at <= at && at + count <= runs[i].End()
      modifies this
      ensures Valid()
      ensures if count > 1 && Strands(old(runs), i, at) then
                Pool() == old(Pool()) - {at} && Span(at + 1, count - 1) <= Pool() && lost == {}
              else Pool() == old(Pool()) - Span(at, count) - lost
      ensures lost != {} ==> |old(runs)| == RUNS && forall j :: 0 <= j < |old(runs)| ==> old(runs)[j].at < FLOOR
      ensures lost != {} ==> ForfeitsAt(old(runs), i, at, lost)
    {
      hide *;
      lost := {};
      EachNone(at, Pool());
      if count == 0 {
        return;
      }
      PoolIs(this);
      BlockOf(runs, i, at, count);
      FirstOf(runs, i, at, count);
      ghost var pool, h := Pool(), 0;
      ghost var stuck := Strands(runs, i, at);
      var _, h', lost' := RunTake(at);
      h, lost := h', lost';
      HolderOnce(old(runs), i, h, at);
      RestOf(old(runs), i, at, count);
      PoolIs(this);
      ghost var runs1, chain1, all := runs, chain, Pages(runs);
      GoneOf(this, pool, at, lost);
      EachStart(all, at + 1);
      for k := 1 to count
        invariant Valid()
        invariant stuck ==> runs == runs1 && chain == chain1
        invariant !stuck ==> chain == chain1 && Pages(runs) == all - Span(at + 1, k - 1)
      {
        PoolIs(this);
        if stuck {
          OnChain(this, at, count, k);
        } else {
          EachNext(runs, all, at + 1, count - 1, k - 1);
        }
        var _, _, none := RunTake(at + k);
        PoolIs(this);
        if !stuck { EachTaken(this, all, at + 1, k - 1); }
      }
      PoolIs(this);
      EachDone(this, pool, all, at, count, lost, stuck);
    }

    /** A span given back. */
    method PagesFree(at: nat, count: nat) returns (ghost lost: set<nat>)
      requires Valid() && (count > 0 ==> at > 0) && Span(at, count) !! Pool()
      modifies this
      ensures Valid() && Pool() == old(Pool()) + Span(at, count) - lost
      ensures lost != {} <==> NoRoom(old(runs), Run(at, count))
      ensures Forfeits(old(runs), lost) && forall p :: p in lost ==> p < FLOOR && p in old(Pages(runs))
    {
      hide *;
      if count == 1 && at >= FLOOR {
        HighRoom(runs, Run(at, 1));
        ForfeitsIs(runs, 0);
        PoolIs(this);
        SpanOfRun(Run(at, 1));
        SpanApart(this, at, count);
        Loosen(at, 1);
        FreedOne(this, old(chain), at);
        return {};
      }
      lost := RunAdd(at, count);
    }

    /** How many pages are free. */
    method FreePages() returns (n: nat)
      requires Valid()
      ensures n == |Pool()|
    {
      hide Sorted, Pages, Members, LooseOk;
      n := 0;
      WholeRuns(runs);
      for i := 0 to |runs|
        invariant n == Total(runs[..i])
      {
        TotalNext(runs, i);
        n := n + runs[i].count;
      }
      n := n + looseCount;
      TotalIs(runs);
      LooseSize(word, loose, looseCount, chain);
      MembersSize(chain);
      SizeOf(Pages(runs), Members(chain));
    }
  }

  /** The top end of the highest run that has so many pages. */
  ghost predicate TopOf(runs: seq<Run>, i: nat, at: nat, count: nat)
  {
    i < |runs| && count <= runs[i].count && at + count == runs[i].End() && forall j :: i < j < |runs| ==>
      runs[j].count < count
  }

  lemma {:induction false} TopIs(runs: seq<Run>, i: nat, at: nat, count: nat)
    requires i < |runs| && count <= runs[i].count && at == runs[i].at + (runs[i].count - count)
    requires forall j :: i + 1 <= j < |runs| ==> runs[j].count < count
    ensures TopOf(runs, i, at, count)
  {
  }

  ghost predicate Fits(r: Run, count: nat, limit: nat)
  {
    r.at + count <= limit && r.at + count <= r.End()
  }

  lemma {:induction false} FitsIs(runs: seq<Run>, i: nat, count: nat, limit: nat)
    requires Sorted(runs) && i < |runs|
    ensures var end := if runs[i].End() > limit then limit else runs[i].End(); Fits(runs[i], count, limit) <==>
      end >= runs[i].at + count
    ensures runs[i].at > 0
  {
    assert Proper(runs[i]);
  }

  /** Run i is the highest with count pages together that end at or below limit. */
  ghost predicate Highest(runs: seq<Run>, i: nat, count: nat, limit: nat)
  {
    i < |runs| && Fits(runs[i], count, limit) && forall j :: i < j < |runs| ==> !Fits(runs[j], count, limit)
  }

  ghost function Top(r: Run, count: nat, limit: nat): nat
    requires Fits(r, count, limit)
  {
    (if r.End() > limit then limit else r.End()) - count
  }

  /** Taking count pages below limit sends all but the first of them to the chain of free pages. */
  ghost predicate Doubled(runs: seq<Run>, count: nat, limit: nat)
  {
    count > 1 && exists i: nat :: Highest(runs, i, count, limit) && Strands(runs, i, Top(runs[i], count, limit))
  }

  /** n runs of four pages above the floor, four pages apart. */
  function Comb(n: nat): (runs: seq<Run>)
    ensures |runs| == n && forall j :: 0 <= j < n ==> runs[j] == Run(FLOOR + 8 * j, 4)
  {
    seq(n, j requires 0 <= j < n => Run(FLOOR + 8 * j, 4))
  }

  /** Two pages below 4 GiB from a full list of such runs: the second is given and stays free. */
  lemma {:induction false} FullListDoubles()
    ensures Sorted(Comb(RUNS)) && Doubled(Comb(RUNS), 2, 0x100000)
  {
    var runs, i := Comb(RUNS), RUNS - 1;
    hide Comb;
    assert runs[i] == Run(FLOOR + 8 * i, 4);
    assert Highest(runs, i, 2, 0x100000);
    assert Strands(runs, i, Top(runs[i], 2, 0x100000));
  }

  lemma {:induction false} DoubledIs(runs: seq<Run>, i: nat, count: nat, limit: nat)
    requires i < |runs| && Fits(runs[i], count, limit) && forall j :: i < j < |runs| ==> !Fits(runs[j], count, limit)
    ensures Highest(runs, i, count, limit)
    ensures Doubled(runs, count, limit) <==> count > 1 && Strands(runs, i, Top(runs[i], count, limit))
    ensures Top(runs[i], count, limit) == (if runs[i].End() > limit then limit else runs[i].End()) - count
  {
    hide Strands;
    hide Fits;
    assert Highest(runs, i, count, limit);
    assert forall k: nat :: Highest(runs, k, count, limit) ==> k == i;
  }

  lemma {:induction false} NoneBelow(runs: seq<Run>, count: nat, limit: nat)
    requires Sorted(runs) && count > 0 && forall j :: 0 <= j < |runs| ==> !Fits(runs[j], count, limit)
    ensures forall s: nat :: s + count <= limit ==> !Block(Pages(runs), s, count)
  {
    hide Pages, Block;
    forall s: nat | s + count <= limit ensures !Block(Pages(runs), s, count) {
      if Block(Pages(runs), s, count) {
        var i := BlockInRun(runs, s, count);
      }
    }
  }

  /** Without single pages, what no run has nobody has. */
  lemma {:induction false} NoBlock(runs: seq<Run>, chain: seq<nat>, count: nat)
    requires Sorted(runs) && chain == [] && forall j :: 0 <= j < |runs| ==> runs[j].count < count
    ensures count > 0 ==> forall s: nat :: !Block(Pages(runs) + Members(chain), s, count)
  {
    hide Pages, Block;
    assert Pages(runs) + Members(chain) == Pages(runs);
    if count > 0 {
      forall s: nat ensures !Block(Pages(runs), s, count) {
        if Block(Pages(runs), s, count) {
          var i := BlockInRun(runs, s, count);
        }
      }
    }
  }

  lemma {:induction false} BlockOf(runs: seq<Run>, i: nat, at: nat, count: nat)
    requires i < |runs| && runs[i].at <= at && at + count <= runs[i].End()
    ensures Span(at, count) <= Pages(runs)
  {
    PagesAround(runs, i);
    SpanIs(at, count);
  }

  lemma {:induction false} TrimPages(runs: seq<Run>, i: nat, k: nat, chain: seq<nat>)
    requires Sorted(runs) && i < |runs| && k <= runs[i].count && Pages(runs) !! Members(chain)
    ensures var t, cut := Trimmed(runs, i, k), Span(runs[i].at + k, runs[i].count - k);
      && |t| <= |runs| && Sorted(t) && Pages(t) == Pages(runs) - cut && cut <= Pages(runs) && Pages(t) !! Members(chain)
      && cut !! Members(chain) && runs[i].at > 0
  {
    assert Proper(runs[i]);
    TrimmedIs(runs, i, k);
    hide Pages, Span, Sorted, Members, Trimmed;
  }

  lemma {:induction false} Filled(f: Free, runs: seq<Run>, chain: seq<nat>, at: nat)
    requires Sorted(f.runs) && |f.runs| <= RUNS && LooseOk(f.word, f.loose, f.looseCount, f.chain)
      && Pages(runs) !! Members(chain)
    requires Members(f.chain) == Members(chain) + High(at, FILL) && High(at, FILL) == Run(at, FILL).Pages()
    requires Pages(f.runs) == Pages(runs) - Span(at, FILL) && Span(at, FILL) <= Pages(runs)
    ensures f.Valid() && f.Pool() == Pages(runs) + Members(chain)
  {
    SpanOfRun(Run(at, FILL));
    hide Pages, Run.Pages, Members, High, LooseOk, Sorted, Span;
  }

  lemma {:induction false} SpanOfRun(r: Run)
    ensures r.Pages() == Span(r.at, r.count)
  {
  }

  lemma {:induction false} LooseSize(word: map<nat, nat>, loose: nat, count: nat, chain: seq<nat>)
    requires LooseOk(word, loose, count, chain)
    ensures count == |chain| && Distinct(chain)
  {
  }

  lemma {:induction false} Popped(pages: set<nat>, was: set<nat>, now: set<nat>, at: nat)
    requires now == was - {at} && at in was && pages !! was
    ensures Span(at, 1) !! pages + now && pages + Span(at, 1) + now == pages + was
  {
    SpanIs(at, 1);
    assert Span(at, 1) == {at};
  }

  lemma {:induction false} RoomFor()
    ensures RUNS == 512
  {
  }

  lemma {:induction false} PoppedOne(pages: set<nat>, was: set<nat>, now: set<nat>, at: nat)
    requires now == was - {at} && at in was && pages !! was
    ensures Span(at, 1) <= pages + was && pages + now == pages + was - Span(at, 1)
  {
    SpanIs(at, 1);
    assert Span(at, 1) == {at};
  }

  lemma {:induction false} RunTaken(was: set<nat>, now: set<nat>, loose: set<nat>, cut: set<nat>)
    requires now == was - cut && cut <= was && was !! loose
    ensures cut <= was + loose && now + loose == was + loose - cut
  {
  }

  lemma {:induction false} EachStart(all: set<nat>, at: nat)
    ensures all == all - Span(at, 0)
  {
  }

  lemma {:induction false} EachNone(at: nat, pool: set<nat>)
    ensures pool == pool - Span(at, 0) - {}
  {
  }

  /** The next page is there and starts its run, since the one before it is gone. */
  lemma {:induction false} EachNext(runs: seq<Run>, all: set<nat>, at: nat, count: nat, k: nat)
    requires Pages(runs) == all - Span(at, k) && Span(at, count) <= all && k < count && at > 0 && at - 1 !in all
    ensures at + k in Pages(runs) && Starts(runs, at + k) && at + k in all
  {
    SpanIs(at, k);
    SpanIs(at, count);
    assert at + k in Span(at, count);
    FirstStarts(runs, at + k);
  }

  lemma {:induction false} FirstOf(runs: seq<Run>, i: nat, at: nat, count: nat)
    requires i < |runs| && runs[i].at <= at && at + count <= runs[i].End() && count > 0
      && Span(at, count) <= Pages(runs)
    ensures at in Pages(runs)
  {
    hide Pages;
    SpanIs(at, count);
    assert at in Span(at, count);
  }

  lemma {:induction false} HolderOnce(runs: seq<Run>, i: nat, h: nat, page: nat)
    requires Sorted(runs) && i < |runs| && h < |runs|
    requires runs[i].at <= page < runs[i].End() && runs[h].at <= page < runs[h].End()
    ensures i == h
  {
  }

  lemma {:induction false} RestOf(runs: seq<Run>, i: nat, at: nat, count: nat)
    requires i < |runs| && runs[i].at <= at && 0 < count && at + count <= runs[i].End()
    ensures Span(at + 1, count - 1) <= Span(at + 1, runs[i].End() - at - 1)
  {
    var n := runs[i].End() - at - 1;
    SpanIs(at + 1, count - 1);
    SpanIs(at + 1, n);
  }

  lemma {:induction false} GoneOf(f: Free, pool: set<nat>, at: nat, lost: set<nat>)
    requires f.Pool() == pool - {at} - lost
    ensures at !in Pages(f.runs) && at !in Members(f.chain)
  {
    hide Pages, Members;
    assert at !in f.Pool();
  }

  /** A page on the chain is in no run. */
  lemma {:induction false} OnChain(f: Free, at: nat, count: nat, k: nat)
    requires 0 < k < count && Span(at + 1, count - 1) <= Members(f.chain) && Pages(f.runs) !! Members(f.chain)
    ensures at + k !in Pages(f.runs)
  {
    hide Pages, Members;
    SpanIs(at + 1, count - 1);
    assert at + k in Span(at + 1, count - 1);
  }

  lemma {:induction false} EachDone(f: Free, pool: set<nat>, all: set<nat>, at: nat, count: nat, lost: set<nat>,
      stuck: bool)
    requires count > 0 && all + Members(f.chain) == pool - {at} - lost && all !! Members(f.chain)
    requires Span(at + 1, count - 1) <= if stuck then Members(f.chain) else all
    requires f.Pool() == Pages(f.runs) + Members(f.chain) && stuck ==> lost == {}
    requires Pages(f.runs) == if stuck then all else all - Span(at + 1, count - 1)
    ensures stuck ==> f.Pool() == pool - {at} && Span(at + 1, count - 1) <= f.Pool()
    ensures !stuck || count == 1 ==> f.Pool() == pool - Span(at, count) - lost
  {
    hide Pages, Members, Span;
    var rest := Span(at + 1, count - 1);
    SpanCut(at, count - 1);
    if count == 1 { NoSpan(at + 1); }
    if !stuck { LeftOver(all, Members(f.chain), pool, {at}, lost, rest); }
  }

  lemma {:induction false} NoSpan(at: nat)
    ensures Span(at, 0) == {}
  {
  }

  lemma {:induction false} LeftOver(all: set<nat>, loose: set<nat>, pool: set<nat>, first: set<nat>, lost: set<nat>,
      rest: set<nat>)
    requires all + loose == pool - first - lost && all !! loose && rest <= all
    ensures all - rest + loose == pool - (first + rest) - lost
  {
    assert all - rest + loose == (all + loose) - rest;
  }

  /** What is given is still free but for its first page, or none of it is. */
  lemma {:induction false} GivenTwice(f: Free, pool: set<nat>, at: nat, count: nat, lost: set<nat>, twice: bool)
    requires if twice then count > 1 && f.Pool() == pool - {at} && Span(at + 1, count - 1) <= f.Pool()
             else f.Pool() == pool - Span(at, count) - lost
    ensures Span(at, count) !! f.Pool() <==> !twice
  {
    var p := f.Pool();
    SpanIs(at, count);
    if twice {
      SpanIs(at + 1, count - 1);
      assert at + 1 in Span(at + 1, count - 1);
      assert at + 1 in Span(at, count);
    }
  }

  lemma {:induction false} EachTaken(f: Free, all: set<nat>, at: nat, k: nat)
    requires f.Valid() && Pages(f.runs) + Members(f.chain) == all - Span(at, k) + Members(f.chain) - {at + k} - {}
    requires all !! Members(f.chain) && at + k in all
    ensures Pages(f.runs) == all - Span(at, k + 1)
  {
    assert Span(at, k + 1) == Span(at, k) + {at + k};
    hide Sorted, LooseOk, Pages, Members, Span;
    SameRest(Pages(f.runs), all - Span(at, k), Members(f.chain), at + k);
  }

  lemma {:induction false} SameRest(pages: set<nat>, rest: set<nat>, loose: set<nat>, p: nat)
    requires pages + loose == rest + loose - {p} && pages !! loose && rest !! loose && p !in loose
    ensures pages == rest - {p}
  {
    forall q ensures q in pages <==> q in rest - {p} {
      assert q in pages + loose <==> q in rest + loose - {p};
    }
  }

  lemma {:induction false} SpanApart(f: Free, at: nat, count: nat)
    requires Span(at, count) !! f.Pool()
    ensures Span(at, count) !! Members(f.chain) && Span(at, count) !! Pages(f.runs)
  {
    hide Pages, Members, Span;
  }

  lemma {:induction false} FreedOne(f: Free, chain: seq<nat>, at: nat)
    requires Sorted(f.runs) && |f.runs| <= RUNS && LooseOk(f.word, f.loose, f.looseCount, f.chain)
    requires Members(f.chain) == Members(chain) + Span(at, 1) && Pages(f.runs) !! Members(chain)
      && Span(at, 1) !! Pages(f.runs)
    ensures f.Valid() && f.Pool() == Pages(f.runs) + Members(chain) + Span(at, 1) - {}
  {
    hide Sorted, LooseOk, Pages, Members, Span;
  }

  lemma {:induction false} WholeRuns(runs: seq<Run>)
    ensures Total(runs[..0]) == 0 && runs[..|runs|] == runs
  {
  }

  lemma {:induction false} TotalNext(runs: seq<Run>, i: nat)
    requires i < |runs|
    ensures Total(runs[..i + 1]) == Total(runs[..i]) + runs[i].count
  {
    assert runs[..i + 1][..i] == runs[..i];
  }

  lemma {:induction false} LoosenStart(at: nat, was: set<nat>)
    ensures was == was + High(at, 0)
  {
  }

  lemma {:induction false} LoosenNext(at: nat, count: nat, i: nat, was: set<nat>, chain: seq<nat>)
    requires Span(at, count) !! was && Members(chain) == was + High(at, i) && i < count
    ensures at + i !in chain
    ensures High(at, i + 1) == High(at, i) + if at + i >= FLOOR then {at + i} else {}
  {
    HighIs(at, i);
    SpanIs(at, count);
    assert at + i in Span(at, count);
    assert at + i !in Members(chain);
  }

  lemma {:induction false} PoolIs(f: Free)
    ensures f.Pool() == Pages(f.runs) + Members(f.chain)
    ensures f.Valid() <==>
      && Sorted(f.runs) && |f.runs| <= RUNS && LooseOk(f.word, f.loose, f.looseCount, f.chain)
      && Pages(f.runs) !! Members(f.chain)
  {
    hide Sorted, LooseOk, Pages, Members;
  }

  lemma {:induction false} EndIs(r: Run)
    ensures r.End() == r.at + r.count
  {
  }

  lemma {:induction false} TrimmedOk(f: Free)
    requires Sorted(f.runs) && |f.runs| <= RUNS && LooseOk(f.word, f.loose, f.looseCount, f.chain)
      && Pages(f.runs) !! Members(f.chain)
    ensures f.Valid() && f.Pool() == Pages(f.runs) + Members(f.chain)
  {
    hide Sorted, LooseOk, Pages, Members;
  }

  /** A run's pages below the floor. */
  ghost function Low(r: Run): (s: set<nat>)
  {
    r.Pages() - High(r.at, r.count)
  }

  lemma {:induction false} FullFacts(f: Free, r: Run)
    requires f.Valid() && r.Pages() !! f.Pool() && |f.runs| == RUNS
    ensures f.runs != [] && Sorted(f.runs) && r.Pages() == Span(r.at, r.count)
    ensures Span(r.at, r.count) !! Members(f.chain) && r.Pages() !! Pages(f.runs)
    ensures LooseOk(f.word, f.loose, f.looseCount, f.chain) && Pages(f.runs) !! Members(f.chain)
    ensures f.Pool() == Pages(f.runs) + Members(f.chain)
  {
    hide Sorted, LooseOk, Pages, Members, Span;
  }

  lemma {:induction false} HighRoom(runs: seq<Run>, r: Run)
    requires r.at >= FLOOR
    ensures !NoRoom(runs, r) && High(r.at, r.count) == r.Pages()
  {
    HighIs(r.at, r.count);
  }

  lemma {:induction false} LoosenedRun(f: Free, chain: seq<nat>, r: Run)
    requires Sorted(f.runs) && |f.runs| == RUNS && LooseOk(f.word, f.loose, f.looseCount, f.chain)
      && Members(f.chain) == Members(chain) + r.Pages()
    requires Pages(f.runs) !! Members(chain) && r.Pages() !! Pages(f.runs)
    ensures f.Valid() && f.Pool() == Pages(f.runs) + Members(chain) + r.Pages() - {}
  {
    hide Sorted, LooseOk, Pages, Members, Run.Pages;
  }

  lemma {:induction false} VictimApart(f: Free, v: nat)
    requires v < |f.runs| && f.runs[v].Pages() <= Pages(f.runs) && Pages(f.runs) !! Members(f.chain)
    ensures Span(f.runs[v].at, f.runs[v].count) !! Members(f.chain)
  {
    hide Pages, Members, Span;
  }

  lemma {:induction false} VictimLow(runs: seq<Run>, v: nat, r: Run)
    requires Victim(runs, |runs|, v) && Sorted(runs) && Proper(r) && !Touches(runs, r) && |runs| == RUNS
    ensures v < |runs|
    ensures !(r.at >= FLOOR && runs[v].at < FLOOR) ==> (Low(runs[v]) != {} <==> NoRoom(runs, r))
    ensures forall p :: p in Low(runs[v]) ==> p < FLOOR && p in Pages(runs)
  {
    assert Proper(runs[v]);
    PagesAround(runs, v);
    hide Sorted, Pages;
    HighIs(runs[v].at, runs[v].count);
    hide High, Touches;
    assert runs[v].at < FLOOR ==> runs[v].at in Low(runs[v]);
  }

  lemma {:induction false} ForfeitsIs(runs: seq<Run>, v: nat)
    ensures Forfeits(runs, {})
    ensures Victim(runs, |runs|, v) ==> v < |runs| && Forfeits(runs, Low(runs[v]))
  {
    hide Low, Before;
    if Victim(runs, |runs|, v) { assert Victim(runs, |runs|, v) && Low(runs[v]) == Low(runs[v]); }
  }

  lemma {:induction false} ForfeitsAtIs(runs: seq<Run>, i: nat, page: nat, lost: set<nat>)
    requires i < |runs| && runs[i].at <= page < runs[i].End()
    ensures ForfeitsAt(runs, i, page, lost) <==> Forfeits(Trimmed(runs, i, page - runs[i].at), lost)
  {
    hide Forfeits, Trimmed;
  }

  lemma {:induction false} ShuntedHigh(runs: seq<Run>, r: Run)
    ensures Shunted(runs, r) ==> !NoRoom(runs, r)
  {
  }

  lemma {:induction false} VictimShunts(runs: seq<Run>, v: nat, r: Run)
    requires Victim(runs, |runs|, v) && Proper(r) && !Touches(runs, r) && |runs| == RUNS
    ensures Shunted(runs, r) <==> r.at >= FLOOR && (runs[v].at < FLOOR || runs[v].count >= r.count)
  {
    hide Touches;
  }

  lemma {:induction false} VictimSwap(runs: seq<Run>, v: nat, r: Run, i: nat)
    requires Sorted(runs) && v < |runs| && Proper(r) && Alone(runs, r, i)
    ensures var k := if v < i then i - 1 else i;
      && k <= |Removed(runs, v)| && Sorted(Inserted(Removed(runs, v), k, r))
      && Pages(Inserted(Removed(runs, v), k, r)) == Pages(runs) - runs[v].Pages() + r.Pages()
    ensures runs[v].Pages() <= Pages(runs) && Proper(runs[v])
  {
    hide Pages, Run.Pages;
    var k := if v < i then i - 1 else i;
    PagesWithout(runs, v);
    AloneWithout(runs, r, i, v);
    SortedAmid(Removed(runs, v), r, k);
    PagesInserted(Removed(runs, v), k, r);
  }

  lemma {:induction false} GivenUp(f: Free, runs: seq<Run>, chain: seq<nat>, w: Run, r: Run, lost: set<nat>)
    requires Sorted(f.runs) && |f.runs| == RUNS && LooseOk(f.word, f.loose, f.looseCount, f.chain)
    requires Members(f.chain) == Members(chain) + High(w.at, w.count)
      && Pages(f.runs) == Pages(runs) - w.Pages() + r.Pages()
    requires r.Pages() !! Pages(runs) && r.Pages() !! Members(chain) && Pages(runs) !! Members(chain)
      && w.Pages() <= Pages(runs) && lost == Low(w)
    ensures f.Valid() && f.Pool() == Pages(runs) + Members(chain) + r.Pages() - lost
  {
    HighIn(w);
    hide Pages, Run.Pages, Members, High, LooseOk, Sorted;
    SetsMoved(Pages(runs), w.Pages(), r.Pages(), Members(chain), High(w.at, w.count));
  }

  lemma {:induction false} HighIn(w: Run)
    ensures High(w.at, w.count) <= w.Pages()
  {
    HighIs(w.at, w.count);
  }

  lemma {:induction false} SetsMoved(pages: set<nat>, w: set<nat>, r: set<nat>, loose: set<nat>, high: set<nat>)
    requires r !! pages && r !! loose && pages !! loose && w <= pages && high <= w
    ensures pages - w + r !! loose + high
    ensures pages - w + r + (loose + high) == pages + loose + r - (w - high)
  {
  }

  /** A page out of run i: what is left of the run before it, and what is put back after it. */
  lemma {:induction false} TakePages(runs: seq<Run>, i: nat, page: nat, chain: seq<nat>)
    requires Sorted(runs) && i < |runs| && runs[i].at <= page < runs[i].End() && Pages(runs) !! Members(chain)
    ensures var after := runs[i].End() - page - 1; var t := Trimmed(runs, i, page - runs[i].at);
      && Sorted(t) && Pages(t) !! Members(chain) && Span(page + 1, after) !! Pages(t) + Members(chain)
      && Pages(t) + Span(page + 1, after) == Pages(runs) - {page} && page in Pages(runs)
  {
    hide Pages, Span, Trimmed, Sorted, Members;
    var k, after := page - runs[i].at, runs[i].End() - page - 1;
    assert runs[i].at + k == page && runs[i].count - k == after + 1;
    TrimmedIs(runs, i, k);
    var t := Trimmed(runs, i, k);
    SpanCut(page, after);
    SetsTaken(Pages(runs), Pages(t), page, Span(page + 1, after), Span(page, after + 1), Members(chain));
  }

  lemma {:induction false} SpanCut(page: nat, after: nat)
    ensures Span(page, after + 1) == {page} + Span(page + 1, after) && page !in Span(page + 1, after)
  {
    SpanIs(page, after + 1);
    SpanIs(page + 1, after);
  }

  lemma {:induction false} SetsTaken(all: set<nat>, kept: set<nat>, page: nat, rest: set<nat>, cut: set<nat>,
      loose: set<nat>)
    requires kept == all - cut && cut <= all && cut == {page} + rest && page !in rest && all !! loose
    ensures kept !! loose && rest !! kept + loose && kept + rest == all - {page} && page in all
  {
  }

  lemma {:induction false} TakeRoom(runs: seq<Run>, i: nat, page: nat)
    requires Sorted(runs) && |runs| <= RUNS && i < |runs| && runs[i].at <= page < runs[i].End()
    ensures var t := Trimmed(runs, i, page - runs[i].at);
      && |t| <= |runs| && (Starts(runs, page) ==> |t| < |runs|)
  {
    if Starts(runs, page) { StartsIts(runs, i, page); }
  }

  lemma {:induction false} StartsIts(runs: seq<Run>, i: nat, page: nat)
    requires Sorted(runs) && i < |runs| && runs[i].at <= page < runs[i].End() && Starts(runs, page)
    ensures runs[i].at == page
  {
    var j :| 0 <= j < |runs| && runs[j].at == page;
    assert Proper(runs[j]);
  }

  lemma {:induction false} TakenFacts(f: Free, runs: seq<Run>, chain: seq<nat>, i: nat, page: nat, lost: set<nat>)
    requires f.Valid() && Sorted(runs) && |runs| <= RUNS && i < |runs| && runs[i].at <= page < runs[i].End()
      && Pages(runs) !! Members(chain)
    requires var after := runs[i].End() - page - 1; var t := Trimmed(runs, i, page - runs[i].at);
      && Pages(t) + Span(page + 1, after) == Pages(runs) - {page} && page in Pages(runs)
      && f.Pool() == Pages(t) + Members(chain) + Span(page + 1, after) - lost
      && (lost != {} <==> NoRoom(t, Run(page + 1, after)))
      && (forall p :: p in lost ==> p < FLOOR && p in Pages(t))
    ensures f.Pool() == Pages(runs) + Members(chain) - {page} - lost
    ensures forall p :: p in lost ==> p < FLOOR && p in Pages(runs) && p != page
    ensures lost != {} ==> |runs| == RUNS && forall j :: 0 <= j < |runs| ==> runs[j].at < FLOOR
    ensures |runs| < RUNS || Starts(runs, page) ==> lost == {}
  {
    hide Pages, Members, Span, Trimmed, NoRoom, Starts, Sorted, Free.Valid, Free.Pool;
    TakenRoom(runs, i, page);
    var after := runs[i].End() - page - 1;
    var t := Trimmed(runs, i, page - runs[i].at);
    SetsLost(Pages(runs), Pages(t), Span(page + 1, after), page, Members(chain), lost);
  }

  lemma {:induction false} SetsLost(all: set<nat>, kept: set<nat>, rest: set<nat>, page: nat, loose: set<nat>,
      lost: set<nat>)
    requires kept + rest == all - {page} && page in all && all !! loose
    ensures kept + loose + rest - lost == all + loose - {page} - lost
    ensures forall p :: p in kept ==> p in all && p != page
  {
    var x := all - {page};
    assert kept + loose + rest == x + loose;
    assert all + loose - {page} == x + loose;
    assert kept <= x;
  }

  lemma {:induction false} TakenRoom(runs: seq<Run>, i: nat, page: nat)
    requires Sorted(runs) && |runs| <= RUNS && i < |runs| && runs[i].at <= page < runs[i].End()
    ensures var after := runs[i].End() - page - 1; var t := Trimmed(runs, i, page - runs[i].at);
      NoRoom(t, Run(page + 1, after)) ==>
        |runs| == RUNS && !Starts(runs, page) && forall j :: 0 <= j < |runs| ==> runs[j].at < FLOOR
  {
    var k, after := page - runs[i].at, runs[i].End() - page - 1;
    var t := Trimmed(runs, i, k);
    TakeRoom(runs, i, page);
    if k > 0 { assert forall j :: 0 <= j < |runs| ==> t[j].at == runs[j].at; }
  }

  lemma {:induction false} Ascending(runs: seq<Run>)
    requires Sorted(runs)
    ensures forall i, j :: 0 <= i <= j < |runs| ==> runs[i].at <= runs[j].at
  {
  }

  // ---- adding a run

  lemma {:induction false} AddFacts(f: Free, r: Run)
    requires f.Valid() && Span(r.at, r.count) !! f.Pool()
    ensures Sorted(f.runs) && r.Pages() == Span(r.at, r.count) && r.End() == r.at + r.count
    ensures r.count == 0 ==> !NoRoom(f.runs, r) && !Shunted(f.runs, r) && Span(r.at, r.count) == {}
    ensures |f.runs| < RUNS ==> !NoRoom(f.runs, r) && !Shunted(f.runs, r)
    ensures |f.runs| <= RUNS
    ensures r.count > 0 && r.at > 0 ==> Proper(r) && Clear(f.runs, r)
  {
    hide Pages, Sorted, LooseOk;
  }

  lemma {:induction false} LowAdded(f: Free, r: Run, i: nat)
    requires f.Valid() && r.Pages() !! f.Pool() && Clear(f.runs, r) && Goes(f.runs, r.at, i) && 0 < i <= |f.runs|
      && f.runs[i - 1].End() == r.at
    ensures JoinsLow(f.runs, r, i) && Added(f, r, JoinedLow(f.runs, r, i)) && !NoRoom(f.runs, r) && !Shunted(f.runs, r)
  {
    LowJoined(f.runs, r, i);
    hide Pages, Run.Pages, LooseOk, Sorted, Goes, Clear;
  }

  lemma {:induction false} HighAdded(f: Free, r: Run, i: nat)
    requires f.Valid() && r.Pages() !! f.Pool() && Clear(f.runs, r) && Goes(f.runs, r.at, i) && i < |f.runs|
      && r.End() == f.runs[i].at && !JoinsLow(f.runs, r, i)
    ensures JoinsHigh(f.runs, r, i) && Added(f, r, JoinedHigh(f.runs, r, i)) && !NoRoom(f.runs, r)
      && !Shunted(f.runs, r)
  {
    HighJoined(f.runs, r, i);
    hide Pages, Run.Pages, LooseOk, Sorted, Goes, Clear;
  }

  /** These runs have this one's pages too. */
  ghost predicate Added(f: Free, r: Run, runs: seq<Run>)
    reads f
  {
    && Sorted(runs) && Pages(runs) == Pages(f.runs) + r.Pages() && Pages(runs) !! Members(f.chain)
    && |runs| <= |f.runs| + 1 && (|f.runs| == RUNS ==> |runs| <= RUNS)
  }

  lemma {:induction false} AddsAlone(f: Free, r: Run, i: nat)
    requires f.Valid() && Clear(f.runs, r) && Goes(f.runs, r.at, i) && !JoinsLow(f.runs, r, i)
      && !JoinsHigh(f.runs, r, i)
    ensures Alone(f.runs, r, i) && !Touches(f.runs, r) && Proper(r)
  {
    StandsAlone(f.runs, r, i);
    AloneTouchesNone(f.runs, r, i);
  }

  lemma {:induction false} AloneAdded(f: Free, r: Run, i: nat)
    requires f.Valid() && Proper(r) && r.Pages() !! f.Pool() && Alone(f.runs, r, i) && |f.runs| < RUNS
    ensures i <= |f.runs| && Added(f, r, Inserted(f.runs, i, r)) && |Inserted(f.runs, i, r)| <= RUNS
  {
    SortedAmid(f.runs, r, i);
    PagesInserted(f.runs, i, r);
    hide Pages, Run.Pages, LooseOk, Sorted;
  }
}
