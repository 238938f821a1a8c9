/**
 * Runs of the shared-page table (src/kernel/share.c): once sectors are written, no page
 * that was read from them is found again until it is added again.
 */
module ShareRuns {
  import opened Base
  import opened Share

  /** What the table's methods do to the pages it tracks. */
  datatype Move =
    | Add(frame: nat, start: nat, index: nat)
    | Adopt(frame: nat)
    | Take(frame: nat)
    | Hold(frame: nat)
    | Drop(frame: nat)
    | Write(lba: nat, count: nat)

  /** One call; those that need memory may also do nothing. */
  ghost predicate Next(m: Model, v: Move, m': Model)
  {
    m' == m ||
    match v
    case Add(f, start, index) => f !in m && m' == m[f := Tracked(1, Some((start, index)))]
    case Adopt(f) => f !in m && m' == m[f := Tracked(1, None)]
    case Take(f) => f in m && m[f].refs == 1 && m' == m - {f}
    case Hold(f) => f in m && m' == Recount(m, f, m[f].refs + 1)
    case Drop(f) => m' == Dropped(m, f)
    case Write(lba, count) => m' == Stale(m, lba, count)
  }

  /** No page is tracked as this file page: a find of it fails. */
  ghost predicate Hidden(m: Model, start: nat, index: nat)
  {
    forall f :: f in m ==> m[f].key != Some((start, index))
  }

  /** A write hides every file page it meets. */
  lemma {:induction false} WriteHides(m: Model, lba: nat, count: nat, start: nat, index: nat)
    requires Overlaps(start, index, lba, count)
    ensures Hidden(Stale(m, lba, count), start, index)
  {
    hide Overlaps;
  }

  /** And nothing but adding that page shows it again. */
  lemma {:induction false} NextHides(m: Model, v: Move, m': Model, start: nat, index: nat)
    requires Hidden(m, start, index) && Next(m, v, m') && !(v.Add? && v.start == start && v.index == index)
    ensures Hidden(m', start, index)
  {
    hide Overlaps;
  }

  /** Over any run in which it is not added. */
  lemma {:induction false} RunHides(seen: seq<Model>, moves: seq<Move>, start: nat, index: nat)
    requires |seen| == |moves| + 1 && Hidden(seen[0], start, index)
    requires forall i :: 0 <= i < |moves| ==> Next(seen[i], moves[i], seen[i + 1])
    requires forall i :: 0 <= i < |moves| ==> !(moves[i].Add? && moves[i].start == start && moves[i].index == index)
    ensures Hidden(seen[|moves|], start, index)
    decreases |moves|
  {
    hide Next, Hidden;
    if |moves| > 0 {
      var m := |moves| - 1;
      RunHides(seen[..m + 1], moves[..m], start, index);
      NextHides(seen[m], moves[m], seen[m + 1], start, index);
    }
  }

  ghost predicate Among(q: nat, at: nat, count: nat)
  {
    at <= q < at + count
  }

  /** The written sectors and the page's eight have one in common. */
  ghost predicate Meets(first: nat, lba: nat, count: nat)
  {
    exists q: nat :: Among(q, lba, count) && Among(q, first, SECTORS)
  }

  /** The same by the ends. */
  predicate Touching(first: nat, lba: nat, count: nat)
  {
    first < lba + count && lba < first + SECTORS
  }

  lemma {:induction false} MeetsIs(first: nat, lba: nat, count: nat)
    requires count > 0
    ensures Meets(first, lba, count) <==> Touching(first, lba, count)
  {
    var q := if first < lba then lba else first;
    if first < lba + count && lba < first + SECTORS {
      assert Among(q, lba, count) && Among(q, first, SECTORS);
    }
  }

  /** One of the two ends, past the last 32-bit number, comes out too low. */
  predicate Wraps(first: nat, lba: nat, count: nat)
  {
    (lba + count >= U32 && first >= lba + count - U32) || (first + SECTORS >= U32 && lba >= first + SECTORS - U32)
  }

  /** The test finds exactly the pages that the sectors meet, but for those where an end wraps. */
  lemma {:induction false} OverlapsExactly(start: nat, index: nat, lba: nat, count: nat)
    requires start + index * SECTORS < U32 && lba < U32 && 0 < count <= U32
    ensures var first := start + index * SECTORS; Overlaps(start, index, lba, count) <==>
      Meets(first, lba, count) && !Wraps(first, lba, count)
  {
    var first := start + index * SECTORS;
    MeetsIs(first, lba, count);
    Narrow(first);
    Narrow(lba + count);
    Narrow(first + SECTORS);
    hide Meets;
    Ends(first, lba, count, (lba + count) % U32, (first + SECTORS) % U32);
  }

  lemma {:induction false} Narrow(x: nat)
    requires x < 2 * U32
    ensures x % U32 == if x < U32 then x else x - U32
  {
  }

  lemma {:induction false} Ends(first: nat, lba: nat, count: nat, e1: nat, e2: nat)
    requires first < U32 && lba < U32 && 0 < count <= U32
    requires e1 == if lba + count < U32 then lba + count else lba + count - U32
    requires e2 == if first + SECTORS < U32 then first + SECTORS else first + SECTORS - U32
    ensures first < e1 && lba < e2 <==> first < lba + count && lba < first + SECTORS && !Wraps(first, lba, count)
  {
  }

  /** Such a page: that of a file of the last seven sectors a disk can have, all of them written. */
  lemma {:induction false} OverlapsMisses()
    ensures var last := U32 - 8; Meets(last, last, 7) && !Overlaps(last, 0, last, 7)
  {
    MeetsIs(U32 - 8, U32 - 8, 7);
  }
}
