/**
 * Where file data lies (src/kernel/fs.c): contiguous runs of sectors, the search
 * for the first gap that fits, and the run handed to a file that needs one.
 */
module Extents {
  import opened Base

  const SECTOR: nat := 512
  const DATA_LBA: nat := 2              // past the boot sector and the header
  /** In an entry's size: it is a link. */
  const LINK: nat := 0x8000_0000

  function SectorsFor(size: nat): (n: nat)
  {
    (size + SECTOR - 1) / SECTOR
  }

  /** A sum as 32 bits hold it. */
  function Sum(a: nat, b: nat): (r: nat)
  {
    (a + b) % U32
  }

  /** The sectors of a 32-bit size, rounded up in 32 bits. */
  function Sectors32(size: nat): (n: nat)
  {
    Sum(size, SECTOR - 1) / SECTOR
  }

  /** Sectors start .. end of the disk. */
  datatype Run = Run(start: nat, end: nat)

  predicate Overlap(r: Run, start: nat, count: nat)
  {
    r.start < start + count && start < r.end
  }

  predicate Clear(runs: seq<Run>, start: nat, count: nat)
  {
    forall i :: 0 <= i < |runs| ==> !Overlap(runs[i], start, count)
  }

  /** That is that they have a sector in common. */
  lemma {:induction false} OverlapIs(r: Run, start: nat, count: nat)
    ensures Overlap(r, start, count) && r.start < r.end && count > 0 <==>
      exists q :: In(r, q) && In(Run(start, start + count), q)
  {
    if Overlap(r, start, count) && r.start < r.end && count > 0 {
      var q := if r.start < start then start else r.start;
      assert In(r, q) && In(Run(start, start + count), q);
    }
  }

  predicate In(r: Run, q: int)
  {
    r.start <= q < r.end
  }

  /** Sectors of 512 bytes, as many as it takes and no more. */
  lemma {:induction false} SectorsForIs(size: nat, n: nat)
    ensures SectorsFor(size) == n <==> size <= 512 * n < size + 512
  {
  }

  /** The first place, from DATA_LBA on, where count sectors meet no run. */
  ghost predicate FirstFit(runs: seq<Run>, count: nat, start: nat)
  {
    && DATA_LBA <= start && Clear(runs, start, count)
    && forall s :: DATA_LBA <= s < start ==> !Clear(runs, s, count)
  }

  lemma {:induction false} FirstFitOnce(runs: seq<Run>, count: nat, a: nat, b: nat)
    requires FirstFit(runs, count, a) && FirstFit(runs, count, b)
    ensures a == b
  {
  }

  /** Beyond every run. */
  function Past(runs: seq<Run>): (m: nat)
    ensures m >= DATA_LBA && forall i :: 0 <= i < |runs| ==> runs[i].end <= m
  {
    if runs == [] then DATA_LBA
    else
      var m := Past(runs[..|runs| - 1]);
      if runs[|runs| - 1].end > m then runs[|runs| - 1].end else m
  }

  /** Hopping past every run the candidate overlaps, over and over until none does. */
  method HopGaps(runs: seq<Run>, count: nat) returns (start: nat)
    ensures Past(runs) + count < U32 ==> FirstFit(runs, count, start)
  {
    start := DATA_LBA;
    var moved := true;
    ghost var exact := Past(runs) + count < U32;
    while moved
      invariant DATA_LBA <= start <= Past(runs)
      invariant exact ==> forall s :: DATA_LBA <= s < start ==> !Clear(runs, s, count)
      invariant exact && !moved ==> Clear(runs, start, count)
      decreases Past(runs) - start, moved
    {
      moved := false;
      ghost var was := start;
      for i := 0 to |runs|
        invariant was <= start <= Past(runs) && DATA_LBA <= start && (moved <==> was < start)
        invariant exact ==> forall s :: DATA_LBA <= s < start ==> !Clear(runs, s, count)
        invariant exact && !moved ==> forall j :: 0 <= j < i ==> !Overlap(runs[j], start, count)
      {
        if runs[i].start < Sum(start, count) && start < runs[i].end {
          if exact {
            forall s | start <= s < runs[i].end ensures !Clear(runs, s, count) {
              assert Overlap(runs[i], s, count);
            }
          }
          start := runs[i].end;
          moved := true;
        }
      }
    }
  }

  /** A gap never starts inside the run given up for it: what is in the way at that run's start would be there too. */
  lemma {:induction false} GapAvoidsOwn(runs: seq<Run>, count: nat, start: nat, own: nat, have: nat)
    requires FirstFit(runs, count, start) && have < count && DATA_LBA <= own && Clear(runs, own, have)
    requires forall i :: 0 <= i < |runs| ==> runs[i].start <= runs[i].end
    ensures start <= own || own + have <= start
  {
    if own < start {
      assert !Clear(runs, own, count);
      var i :| 0 <= i < |runs| && Overlap(runs[i], own, count);
      assert !Overlap(runs[i], own, have) && !Overlap(runs[i], start, count);
    }
  }

  /** Everything on the disk but one file's run: the table, the index and the other files. */
  datatype Layout = Layout(tableLba: nat, tableSectors: nat, indexLba: nat, indexSectors: nat,
                           dataEnd: nat, diskSectors: nat)

  /** A live entry's data: a folder or an empty file has none, whatever its start says. */
  datatype Extent = Extent(live: bool, link: bool, start: nat, size: nat)
  {
    predicate HasData() { live && size > 0 }
    function End(): nat { start + SectorsFor(size) }
  }

  /** An entry written with this 32-bit size, whose top bit says that it is a link. */
  function Entry(start: nat, raw: nat): (f: Extent)
  {
    Extent(true, raw >= LINK, start, raw % LINK)
  }

  /** The top bit of a 32-bit size field says link, and the others are the size. */
  lemma {:induction false} EntryBits(start: nat, raw: nat)
    requires raw < U32
    ensures var f := Entry(start, raw);
      f.live && f.start == start && (f.link <==> raw / 0x8000_0000 == 1) && f.size == raw % 0x8000_0000
  {
  }

  function RunsFrom(files: seq<Extent>, own: Option<nat>, n: nat): (runs: seq<Run>)
    requires n <= |files|
  {
    if n == 0 then []
    else
      var rest := RunsFrom(files, own, n - 1);
      if files[n - 1].HasData() && own != Some(n - 1) then rest + [Run(files[n - 1].start, files[n - 1].End())]
        else rest
  }

  /** The runs a search for room is made against: the table, the index and every other file. */
  function Others(l: Layout, files: seq<Extent>, own: Option<nat>): (runs: seq<Run>)
  {
    [Run(l.tableLba, l.tableLba + l.tableSectors), Run(l.indexLba, l.indexLba + l.indexSectors)]
    + RunsFrom(files, own, |files|)
  }

  /** Sectors start .. start + count hold nothing but what is own's. */
  ghost predicate ClearOf(l: Layout, files: seq<Extent>, own: Option<nat>, start: nat, count: nat)
  {
    && !Overlap(Run(l.tableLba, l.tableLba + l.tableSectors), start, count)
    && !Overlap(Run(l.indexLba, l.indexLba + l.indexSectors), start, count)
    && forall j: nat :: j < |files| && files[j].HasData() && own != Some(j) ==>
         !Overlap(Run(files[j].start, files[j].End()), start, count)
  }

  lemma {:induction false} RunsClear(files: seq<Extent>, own: Option<nat>, n: nat, start: nat, count: nat)
    requires n <= |files|
    ensures Clear(RunsFrom(files, own, n), start, count) <==>
      forall j: nat :: j < n && files[j].HasData() && own != Some(j) ==>
        !Overlap(Run(files[j].start, files[j].End()), start, count)
  {
    if n > 0 {
      RunsClear(files, own, n - 1, start, count);
      var rest, all := RunsFrom(files, own, n - 1), RunsFrom(files, own, n);
      assert forall i :: 0 <= i < |rest| ==> all[i] == rest[i];
      if |all| > |rest| { assert all[|rest|] == Run(files[n - 1].start, files[n - 1].End()); }
    }
  }

  lemma {:induction false} OthersClear(l: Layout, files: seq<Extent>, own: Option<nat>, start: nat, count: nat)
    ensures Clear(Others(l, files, own), start, count) <==> ClearOf(l, files, own, start, count)
  {
    var runs, all := RunsFrom(files, own, |files|), Others(l, files, own);
    RunsClear(files, own, |files|, start, count);
    assert all[0] == Run(l.tableLba, l.tableLba + l.tableSectors)
      && all[1] == Run(l.indexLba, l.indexLba + l.indexSectors);
    assert forall i :: 0 <= i < |runs| ==> all[i + 2] == runs[i];
    hide Overlap, RunsFrom;
    if Clear(all, start, count) {
      forall i | 0 <= i < |runs| ensures !Overlap(runs[i], start, count) { assert !Overlap(all[i + 2], start, count); }
    }
    if ClearOf(l, files, own, start, count) {
      forall i | 0 <= i < |all| ensures !Overlap(all[i], start, count) {
        if i >= 2 { assert all[i] == runs[i - 2]; }
      }
    }
  }

  /** No two things share a sector, and everything is on the disk. */
  ghost predicate Apart(l: Layout, files: seq<Extent>)
  {
    && l.tableSectors > 0 && l.indexSectors > 0
    && DATA_LBA <= l.tableLba && l.tableLba + l.tableSectors <= l.diskSectors
    && DATA_LBA <= l.indexLba && l.indexLba + l.indexSectors <= l.diskSectors
    && !Overlap(Run(l.tableLba, l.tableLba + l.tableSectors), l.indexLba, l.indexSectors)
    && forall i: nat :: i < |files| && files[i].HasData() ==>
         && DATA_LBA <= files[i].start && files[i].End() <= l.diskSectors
         && ClearOf(l, files, Some(i), files[i].start, SectorsFor(files[i].size))
  }

  /** Nothing lies at or past dataEnd. */
  ghost predicate Below(l: Layout, files: seq<Extent>)
  {
    && l.tableLba + l.tableSectors <= l.dataEnd && l.indexLba + l.indexSectors <= l.dataEnd <= l.diskSectors
    && forall i: nat :: i < |files| && files[i].HasData() ==> files[i].End() <= l.dataEnd
  }

  /** Sectors start .. start + count are on the disk and nobody's but own's. */
  ghost predicate Given(l: Layout, files: seq<Extent>, own: Option<nat>, count: nat, start: nat)
  {
    DATA_LBA <= start && start + count <= l.diskSectors && ClearOf(l, files, own, start, count)
  }

  lemma {:induction false} RunsFormed(files: seq<Extent>, own: Option<nat>, n: nat)
    requires n <= |files|
    ensures forall i :: 0 <= i < |RunsFrom(files, own, n)| ==>
      RunsFrom(files, own, n)[i].start <= RunsFrom(files, own, n)[i].end
  {
    if n > 0 { RunsFormed(files, own, n - 1); }
  }

  lemma {:induction false} OthersFormed(l: Layout, files: seq<Extent>, own: Option<nat>)
    ensures forall i :: 0 <= i < |Others(l, files, own)| ==>
      Others(l, files, own)[i].start <= Others(l, files, own)[i].end
  {
    RunsFormed(files, own, |files|);
  }

  // ---- the run a file is given

  /** It has as many sectors already. */
  predicate InPlace(files: seq<Extent>, own: Option<nat>, count: nat)
  {
    own.Some? && own.value < |files| && count <= SectorsFor(files[own.value].size)
  }

  /** It is the last on the disk. */
  predicate Last(l: Layout, files: seq<Extent>, own: Option<nat>)
  {
    own.Some? && own.value < |files| && files[own.value].End() == l.dataEnd
  }

  /** It is the last, and the disk goes on far enough. */
  predicate Extends(l: Layout, files: seq<Extent>, own: Option<nat>, count: nat)
  {
    Last(l, files, own) && files[own.value].start + count <= l.diskSectors
  }

  /** The first gap, or 0 when it is not on the disk. */
  ghost predicate GapFound(l: Layout, files: seq<Extent>, own: Option<nat>, count: nat, start: nat)
  {
    if start == 0 then forall s: nat :: !Given(l, files, own, count, s)
    else Given(l, files, own, count, start) && forall s: nat :: DATA_LBA <= s < start ==>
      !ClearOf(l, files, own, s, count)
  }

  /** The run given, and where the header then says that data ends. */
  ghost predicate Chosen(l: Layout, files: seq<Extent>, own: Option<nat>, count: nat, start: nat, dataEnd: nat)
  {
    if InPlace(files, own, count) then start == files[own.value].start && dataEnd == l.dataEnd
    else if Extends(l, files, own, count) then start == files[own.value].start && dataEnd == start + count
    else if l.dataEnd + count <= l.diskSectors then start == l.dataEnd && dataEnd == start + count
    else dataEnd == l.dataEnd && GapFound(l, files, own, count, start)
  }

  /** No sum made on the way wraps at 2^32. */
  predicate Sums(l: Layout, files: seq<Extent>, own: Option<nat>, count: nat)
  {
    InPlace(files, own, count) || Extends(l, files, own, count) || l.dataEnd + count < U32
  }

  /**
   * A run of count sectors for file own, counting its present sectors as free; 0 if there
   * is none. When a sum wraps the run given is not on the disk.
   */
  method Allocate(l: Layout, files: seq<Extent>, own: Option<nat>, count: nat) returns (start: nat, dataEnd: nat)
    requires Apart(l, files) && DATA_LBA <= l.dataEnd <= l.diskSectors < U32 && count < U32
    requires own.Some? ==> own.value < |files| && files[own.value].live && files[own.value].start < U32
    ensures Sums(l, files, own, count) && (Below(l, files) || l.diskSectors + count < U32) ==>
      Chosen(l, files, own, count, start, dataEnd)
    ensures !Sums(l, files, own, count) ==>
      start + count >= U32 && (start == l.dataEnd || (own.Some? && start == files[own.value].start))
  {
    hide Apart, Below, SectorsFor, GapFound;
    dataEnd := l.dataEnd;
    if own.Some? {
      var f := files[own.value];
      var have := SectorsFor(f.size);
      if count <= have {
        return f.start, dataEnd;
      }
      OwnEnds(l, files, own);
      if f.start + have == l.dataEnd && Sum(f.start, count) <= l.diskSectors {
        return f.start, Sum(f.start, count);
      }
    }
    if Sum(l.dataEnd, count) <= l.diskSectors {
      return l.dataEnd, Sum(l.dataEnd, count);
    }
    NothingPast(l, files, own);
    start := Gap(l, files, own, count);
  }

  lemma {:induction false} OwnEnds(l: Layout, files: seq<Extent>, own: Option<nat>)
    requires Apart(l, files) && own.Some? && own.value < |files| && files[own.value].live
    ensures files[own.value].HasData() ==> files[own.value].End() <= l.diskSectors
  {
  }

  /** Every run ends by the data end where that is kept, and on the disk in any case. */
  lemma {:induction false} NothingPast(l: Layout, files: seq<Extent>, own: Option<nat>)
    requires Apart(l, files) && DATA_LBA <= l.dataEnd <= l.diskSectors
    ensures Past(Others(l, files, own)) <= l.diskSectors && (Below(l, files) ==>
      Past(Others(l, files, own)) <= l.dataEnd)
  {
    PastLimit(l, files, own, l.diskSectors);
    if Below(l, files) { PastLimit(l, files, own, l.dataEnd); }
  }

  lemma {:induction false} PastBound(runs: seq<Run>, m: nat)
    requires DATA_LBA <= m && forall i :: 0 <= i < |runs| ==> runs[i].end <= m
    ensures Past(runs) <= m
  {
    if runs != [] { PastBound(runs[..|runs| - 1], m); }
  }

  lemma {:induction false} RunsEnd(files: seq<Extent>, own: Option<nat>, n: nat, m: nat)
    requires n <= |files| && forall i: nat :: i < |files| && files[i].HasData() ==> files[i].End() <= m
    ensures forall i :: 0 <= i < |RunsFrom(files, own, n)| ==> RunsFrom(files, own, n)[i].end <= m
  {
    if n > 0 { RunsEnd(files, own, n - 1, m); }
  }

  lemma {:induction false} PastLimit(l: Layout, files: seq<Extent>, own: Option<nat>, m: nat)
    requires DATA_LBA <= m && l.tableLba + l.tableSectors <= m && l.indexLba + l.indexSectors <= m
    requires forall i: nat :: i < |files| && files[i].HasData() ==> files[i].End() <= m
    ensures Past(Others(l, files, own)) <= m
  {
    RunsEnd(files, own, |files|, m);
    PastBound(Others(l, files, own), m);
  }

  /** The first gap that fits, wherever it is; 0 if none fits on the disk. */
  method Gap(l: Layout, files: seq<Extent>, own: Option<nat>, count: nat) returns (start: nat)
    ensures Past(Others(l, files, own)) + count < U32 ==> GapFound(l, files, own, count, start)
  {
    hide Overlap, Clear, ClearOf, Others, SectorsFor, Past;
    start := HopGaps(Others(l, files, own), count);
    forall s: nat ensures Clear(Others(l, files, own), s, count) <==> ClearOf(l, files, own, s, count) {
      OthersClear(l, files, own, s, count);
    }
    PastFirst(Others(l, files, own), count, start);
    if Sum(start, count) > l.diskSectors {
      start := 0;
    }
  }

  /** A first fit is not past everything. */
  lemma {:induction false} PastFirst(runs: seq<Run>, count: nat, start: nat)
    requires Past(runs) + count < U32 ==> FirstFit(runs, count, start)
    ensures Past(runs) + count < U32 ==>
      start <= Past(runs) && start + count < U32 && Sum(start, count) == start + count
  {
    if Past(runs) + count < U32 {
      assert Clear(runs, Past(runs), count);
    }
  }

  /** What is chosen is nobody else's, or there is nothing to choose. */
  lemma {:induction false} ChosenGiven(l: Layout, files: seq<Extent>, own: Option<nat>, count: nat, start: nat,
      dataEnd: nat)
    requires Apart(l, files) && Below(l, files) && DATA_LBA <= l.dataEnd && count > 0
    requires own.Some? ==> own.value < |files| && files[own.value].live
    requires Chosen(l, files, own, count, start, dataEnd)
    ensures l.dataEnd <= dataEnd <= l.diskSectors
    ensures start != 0 ==> start >= 2 && Given(l, files, own, count, start)
    ensures start == 0 ==> dataEnd == l.dataEnd && forall s: nat :: !Given(l, files, own, count, s)
  {
    if InPlace(files, own, count) { OwnIsGiven(l, files, own, count); }
  }

  lemma {:induction false} OwnIsGiven(l: Layout, files: seq<Extent>, own: Option<nat>, count: nat)
    requires Apart(l, files) && InPlace(files, own, count) && files[own.value].live && count > 0
    ensures Given(l, files, own, count, files[own.value].start)
  {
    var f := files[own.value];
    assert f.HasData() && ClearOf(l, files, own, f.start, SectorsFor(f.size));
  }

  /** A file that has to move is moved to a place from which it can be carried forwards. */
  lemma {:induction false} ChosenAside(l: Layout, files: seq<Extent>, own: nat, count: nat, start: nat, dataEnd: nat)
    requires Apart(l, files) && Below(l, files) && own < |files| && files[own].HasData()
    requires count > SectorsFor(files[own].size) && start != 0 && Chosen(l, files, Some(own), count, start, dataEnd)
    ensures start <= files[own].start || files[own].End() <= start
  {
    var f := files[own];
    hide SectorsFor;
    if !Extends(l, files, Some(own), count) && l.dataEnd + count > l.diskSectors {
      GapAside(l, files, own, count, start);
    }
  }

  lemma {:induction false} GapAside(l: Layout, files: seq<Extent>, own: nat, count: nat, start: nat)
    requires Apart(l, files) && own < |files| && files[own].HasData() && count > SectorsFor(files[own].size)
    requires start != 0 && GapFound(l, files, Some(own), count, start)
    ensures start <= files[own].start || files[own].End() <= start
  {
    hide Clear, ClearOf, Others, SectorsFor, Apart;
    var f, runs := files[own], Others(l, files, Some(own));
    OwnApart(l, files, own);
    forall s: nat ensures Clear(runs, s, count) <==> ClearOf(l, files, Some(own), s, count) {
      OthersClear(l, files, Some(own), s, count);
    }
    OthersFormed(l, files, Some(own));
    OthersClear(l, files, Some(own), f.start, SectorsFor(f.size));
    GapAvoidsOwn(runs, count, start, f.start, SectorsFor(f.size));
  }

  lemma {:induction false} OwnApart(l: Layout, files: seq<Extent>, own: nat)
    requires Apart(l, files) && own < |files| && files[own].HasData()
    ensures DATA_LBA <= files[own].start && ClearOf(l, files, Some(own), files[own].start, SectorsFor(files[own].size))
  {
  }

  // ---- everything still apart, and below the data end

  /** File own put where it was given room: nothing else moved, and still nothing shares a sector. */
  lemma {:induction false} ApartMoved(l: Layout, files: seq<Extent>, own: nat, f: Extent, dataEnd: nat)
    requires Apart(l, files) && own < |files|
    requires f.HasData() ==> Given(l, files, Some(own), SectorsFor(f.size), f.start)
    ensures Apart(l.(dataEnd := dataEnd), files[own := f])
  {
    hide SectorsFor;
  }

  /** The same for a table, or an index, put where it was given room. */
  lemma {:induction false} ApartTableMoved(l: Layout, files: seq<Extent>, start: nat, count: nat, dataEnd: nat)
    requires Apart(l, files) && count > 0 && Given(l, files, None, count, start)
    ensures Apart(l.(tableLba := start, tableSectors := count, dataEnd := dataEnd), files)
    ensures Apart(l.(indexLba := start, indexSectors := count, dataEnd := dataEnd), files)
  {
    hide SectorsFor;
  }

  /** Some run that fits ends by the data end. */
  ghost predicate FitsBelow(l: Layout, files: seq<Extent>, own: Option<nat>, count: nat)
  {
    exists s: nat :: DATA_LBA <= s && s + count <= l.dataEnd && ClearOf(l, files, own, s, count)
  }

  /** What a caller knows beforehand of whether the header's data end will be kept. */
  ghost predicate Roomy(l: Layout, files: seq<Extent>, own: Option<nat>, count: nat)
  {
    || InPlace(files, own, count) || Extends(l, files, own, count) || l.dataEnd + count <= l.diskSectors
    || FitsBelow(l, files, own, count) || forall s: nat :: !Given(l, files, own, count, s)
  }

  /** The run chosen ends by the data end exactly when there was room as above. */
  lemma {:induction false} ChosenBelow(l: Layout, files: seq<Extent>, own: Option<nat>, count: nat, start: nat,
      dataEnd: nat)
    requires Apart(l, files) && Below(l, files) && count > 0 && Chosen(l, files, own, count, start, dataEnd)
    requires own.Some? ==> own.value < |files| && files[own.value].live
    ensures (start != 0 ==> start + count <= dataEnd) <==> Roomy(l, files, own, count)
  {
    hide ClearOf, SectorsFor, Apart;
    if InPlace(files, own, count) {
      OwnBelow(l, files, own, count);
    } else if !Extends(l, files, own, count) && l.dataEnd + count > l.diskSectors && start != 0 {
      if start + count <= l.dataEnd { assert FitsBelow(l, files, own, count); }
      assert Given(l, files, own, count, start);
    }
  }

  lemma {:induction false} OwnBelow(l: Layout, files: seq<Extent>, own: Option<nat>, count: nat)
    requires Below(l, files) && InPlace(files, own, count) && files[own.value].live && count > 0
    ensures files[own.value].start + count <= l.dataEnd
  {
    assert files[own.value].HasData();
  }

  /** So the header keeps its promise that nothing lies past the data end exactly then. */
  lemma {:induction false} BelowMoved(l: Layout, files: seq<Extent>, own: nat, isNew: bool, f: Extent, dataEnd: nat)
    requires Apart(l, files) && Below(l, files) && own < |files| && files[own].live == !isNew
    requires f.HasData() && f.start != 0
    requires Chosen(l, files, if isNew then None else Some(own), SectorsFor(f.size), f.start, dataEnd)
    requires l.dataEnd <= dataEnd <= l.diskSectors
    ensures Below(l.(dataEnd := dataEnd), files[own := f]) <==>
      Roomy(l, files, if isNew then None else Some(own), SectorsFor(f.size))
  {
    ChosenBelow(l, files, if isNew then None else Some(own), SectorsFor(f.size), f.start, dataEnd);
    hide Roomy, Chosen, Apart, SectorsFor;
    var files' := files[own := f];
    assert files'[own] == f;
  }

  /** The same for a table or an index that grows. */
  lemma {:induction false} BelowTableMoved(l: Layout, files: seq<Extent>, start: nat, count: nat, dataEnd: nat)
    requires Apart(l, files) && Below(l, files) && count > 0 && start != 0
    requires Chosen(l, files, None, count, start, dataEnd) && l.dataEnd <= dataEnd <= l.diskSectors
    ensures Below(l.(tableLba := start, tableSectors := count, dataEnd := dataEnd), files) <==>
      Roomy(l, files, None, count)
    ensures Below(l.(indexLba := start, indexSectors := count, dataEnd := dataEnd), files) <==>
      Roomy(l, files, None, count)
  {
    ChosenBelow(l, files, None, count, start, dataEnd);
    hide Roomy, Chosen, Apart, SectorsFor;
  }

  /** A disk of 100 sectors: the table, the index, a file up to sector 70, and one that ended at 90 and was removed. */
  function Gapped(): (v: (Layout, seq<Extent>))
  {
    (Layout(2, 1, 3, 1, 90, 100), [Extent(true, false, 4, 66 * SECTOR), Extent(false, false, 0, 0)])
  }

  /**
   * There a new file of 25 sectors is given those from 70, past the data end; and then
   * one of 5 sectors is given those from 90, inside it.
   */
  lemma {:induction false} GapPastDataEnd()
    ensures var (l, files) := Gapped();
      var files' := files[1 := Extent(true, false, 70, 25 * SECTOR)];
      && Apart(l, files) && Below(l, files) && !Roomy(l, files, None, 25) && Chosen(l, files, None, 25, 70, 90)
      && Apart(l, files') && !Below(l, files') && Chosen(l, files', None, 5, 90, 95) && !ClearOf(l, files', None, 90, 5)
  {
    var (l, files) := Gapped();
    assert files[0].End() == 70;
    forall s: nat | DATA_LBA <= s < 70 ensures !ClearOf(l, files, None, s, 25) {
      assert files[0].HasData();
      assert Overlap(Run(files[0].start, files[0].End()), s, 25) || s + 25 <= 4;
    }
    assert ClearOf(l, files, None, 70, 25);
    assert Given(l, files, None, 25, 70);
    var files' := files[1 := Extent(true, false, 70, 25 * SECTOR)];
    assert files'[1].End() == 95 && files'[1].HasData();
  }

  /** Where the data end and the count come to 2^32 or more, the wrapped sum passes for one that is on the disk. */
  lemma {:induction false} SumsWrap(l: Layout, files: seq<Extent>, count: nat)
    requires l.dataEnd <= l.diskSectors < U32 && count < U32 && l.dataEnd + count >= U32
    ensures Sum(l.dataEnd, count) <= l.diskSectors && !Sums(l, files, None, count)
  {
  }
}
