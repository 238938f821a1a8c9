/**
 * Files as bytes (src/kernel/fs.c): a write anywhere in or past a file, which may
 * move the file to a bigger run, seen as an edit of one byte sequence.
 */
module FsData {
  import opened Base
  import opened Extents

  type Sector = seq<nat>
  type Disk = seq<Sector>

  const MOVE_RUN: nat := 128

  function Zeroes(): (z: Sector)
    ensures |z| == SECTOR && forall j :: 0 <= j < SECTOR ==> z[j] == 0
  {
    seq(SECTOR, _ => 0)
  }

  ghost predicate Whole(d: Disk)
  {
    forall q :: 0 <= q < |d| ==> |d[q]| == SECTOR
  }

  /** Byte k of the run that starts at sector start. */
  function Byte(d: Disk, start: nat, k: nat): (b: nat)
  {
    var q := start + k / SECTOR;
    if q < |d| && |d[q]| == SECTOR then d[q][k % SECTOR] else 0
  }

  function Bytes(d: Disk, start: nat, size: nat): (r: seq<nat>)
    ensures |r| == size && forall k :: 0 <= k < size ==> r[k] == Byte(d, start, k)
  {
    seq(size, k requires 0 <= k < size => Byte(d, start, k))
  }

  /** old with zeroes up to offset, data there, and the rest kept. */
  function Spliced(old_: seq<nat>, offset: nat, data: seq<nat>): (r: seq<nat>)
  {
    var end := offset + |data|;
    seq(if end < |old_| then |old_| else end,
        k requires 0 <= k => if offset <= k < end then data[k - offset] else if k < |old_| then old_[k] else 0)
  }

  /** The bytes of the last sector past the size are zeroes. */
  ghost predicate TailZero(d: Disk, start: nat, size: nat)
  {
    forall k :: size <= k < SectorsFor(size) * SECTOR ==> Byte(d, start, k) == 0
  }

  /** Sectors outside from .. to as they were. */
  ghost predicate Elsewhere(d: Disk, d': Disk, from: nat, to: nat)
  {
    |d'| == |d| && forall q :: 0 <= q < |d| && !(from <= q < to) ==> d'[q] == d[q]
  }

  // ---- the disk, a call at a time

  /** Sectors lba .. lba + |sectors| written; those past the end go to whatever comes after this filesystem. */
  function Put(d: Disk, lba: nat, sectors: seq<Sector>): (d': Disk)
    ensures Elsewhere(d, d', lba, lba + |sectors|)
    ensures forall q :: lba <= q < lba + |sectors| && q < |d| ==> d'[q] == sectors[q - lba]
  {
    seq(|d|, q requires 0 <= q < |d| => if lba <= q < lba + |sectors| then sectors[q - lba] else d[q])
  }

  function SectorAt(d: Disk, q: nat): (s: Sector)
  {
    if q < |d| then d[q] else Zeroes()
  }

  /** What sector q of a file moved to room holds: an old sector, or zeroes past them. */
  function Carried(d: Disk, start: nat, room: nat, have: nat, q: nat): (s: Sector)
  {
    if room <= q < room + have then SectorAt(d, start + (q - room)) else Zeroes()
  }

  /** A file's have sectors from start are at room, zeroes after them up to gap sectors, and nothing else is changed. */
  ghost predicate Shifted(d: Disk, d': Disk, start: nat, room: nat, have: nat, gap: nat)
  {
    && Whole(d') && Elsewhere(d, d', room, room + gap)
    && forall q :: room <= q < room + gap && q < |d'| ==> d'[q] == Carried(d, start, room, have, q)
  }

  /**
   * A file's have sectors from start to room, and zeroes after them up to gap
   * sectors: a run at a time, each read before it is written.
   */
  method Carry(d: Disk, start: nat, room: nat, have: nat, gap: nat) returns (d': Disk)
    requires Whole(d) && have <= gap && (have > 0 ==> start + have <= |d|)
    requires have > 0 ==> room <= start || start + have <= room
    ensures Shifted(d, d', start, room, have, gap)
  {
    hide Zeroes;
    d' := d;
    var i := if room != start then 0 else have;
    while i < gap
      invariant 0 <= i <= gap && Shifted(d, d', start, room, have, i)
    {
      var n := if gap - i < MOVE_RUN then gap - i else MOVE_RUN;
      var run := Chunk(d', start, have, i, n);
      CarryStep(d, d', start, room, have, i, n);
      d' := Put(d', room + i, run);
      i := i + n;
    }
  }

  lemma {:induction false} CarryStep(d: Disk, d': Disk, start: nat, room: nat, have: nat, i: nat, n: nat)
    requires Whole(d) && Shifted(d, d', start, room, have, i) && (have > 0 ==> start + have <= |d|)
    requires have > 0 ==> room <= start || start + have <= room
    requires room == start ==> have <= i
    ensures Shifted(d, Put(d', room + i, Chunk(d', start, have, i, n)), start, room, have, i + n)
  {
    hide Zeroes;
    var run := Chunk(d', start, have, i, n);
    var d'' := Put(d', room + i, run);
    hide Put;
    forall q | room + i <= q < room + i + n && q < |d| ensures d''[q] == Carried(d, start, room, have, q) {
      assert d''[q] == run[q - room - i];
      if q < room + have { assert d'[start + (q - room)] == d[start + (q - room)]; }
    }
  }

  /** n sectors from start + i, zeroes where the file has none. */
  function Chunk(d: Disk, start: nat, have: nat, i: nat, n: nat): (run: seq<Sector>)
    ensures |run| == n && forall t :: 0 <= t < n ==> run[t] == if i + t < have then SectorAt(d, start + i + t)
      else Zeroes()
  {
    seq(n, t requires 0 <= t < n => if i + t < have then SectorAt(d, start + i + t) else Zeroes())
  }

  // ---- the data itself

  /** Sector a of a run once data is written at offset: what it had is kept only in its first have sectors. */
  function Target(d: Disk, start: nat, have: nat, offset: nat, data: seq<nat>, a: nat): (s: Sector)
    ensures |s| == SECTOR
    ensures forall j :: 0 <= j < SECTOR ==> s[j] == TargetByte(d, start, have, offset, data, a, j)
  {
    seq(SECTOR, j requires 0 <= j < SECTOR => TargetByte(d, start, have, offset, data, a, j))
  }

  function TargetByte(d: Disk, start: nat, have: nat, offset: nat, data: seq<nat>, a: nat, j: nat): (b: nat)
    requires j < SECTOR
  {
    var k := a * SECTOR + j;
    if offset <= k < offset + |data| then data[k - offset]
    else if a < have && start + a < |d| && |d[start + a]| == SECTOR then d[start + a][j]
    else 0
  }

  /** Data from one place on, cut into sectors. */
  function Cut(data: seq<nat>, from: nat, n: nat): (r: seq<Sector>)
    requires from + n * SECTOR <= |data|
    ensures |r| == n
  {
    seq(n, i requires 0 <= i < n => data[from + i * SECTOR..from + (i + 1) * SECTOR])
  }

  lemma {:induction false} CutIsTarget(d: Disk, start: nat, have: nat, offset: nat, data: seq<nat>, done: nat, at: nat,
      n: nat, i: nat)
    requires offset + done == at * SECTOR && done + n * SECTOR <= |data| && i < n
    ensures Cut(data, done, n)[i] == Target(d, start, have, offset, data, at + i)
  {
    var c, t := Cut(data, done, n)[i], Target(d, start, have, offset, data, at + i);
    assert |c| == SECTOR;
    forall j | 0 <= j < SECTOR ensures c[j] == t[j] {
      assert c[j] == data[done + i * SECTOR + j];
      assert t[j] == TargetByte(d, start, have, offset, data, at + i, j);
    }
  }

  /** A sector only partly covered: what it had, or zeroes, with n bytes of data over it. */
  function Patched(base: Sector, into: nat, piece: seq<nat>): (s: Sector)
    requires |base| == SECTOR && into + |piece| <= SECTOR
    ensures |s| == SECTOR
    ensures forall j :: 0 <= j < SECTOR ==> s[j] == if into <= j < into + |piece| then piece[j - into] else base[j]
  {
    base[..into] + piece + base[into + |piece|..]
  }

  lemma {:induction false} PatchIsTarget(d: Disk, start: nat, have: nat, offset: nat, data: seq<nat>, done: nat,
      at: nat, into: nat, n: nat, base: Sector)
    requires offset + done == at * SECTOR + into && into < SECTOR && 0 < n && done + n <= |data| && into + n <= SECTOR
    requires done == 0 || into == 0
    requires done + n == |data| || into + n == SECTOR
    requires |base| == SECTOR
    requires Whole(d) && base == if at < have then SectorAt(d, start + at) else Zeroes()
    ensures Patched(base, into, data[done..done + n]) == Target(d, start, have, offset, data, at)
  {
    var p, t := Patched(base, into, data[done..done + n]), Target(d, start, have, offset, data, at);
    forall j | 0 <= j < SECTOR ensures p[j] == t[j] {
      assert t[j] == TargetByte(d, start, have, offset, data, at, j);
    }
  }

  /** Sectors up to u of the run as they will be, and the rest of the disk as it was. */
  ghost predicate Progress(d: Disk, d': Disk, start: nat, have: nat, offset: nat, data: seq<nat>, u: nat)
  {
    && Whole(d') && Elsewhere(d, d', start + offset / SECTOR, start + u)
    && forall q :: start + offset / SECTOR <= q < start + u && q < |d'| ==>
       d'[q] == Target(d, start, have, offset, data, q - start)
  }

  lemma {:induction false} ProgressPut(d: Disk, d': Disk, start: nat, have: nat, offset: nat, data: seq<nat>, u: nat,
      run: seq<Sector>)
    requires Progress(d, d', start, have, offset, data, u) && offset / SECTOR <= u
    requires forall i :: 0 <= i < |run| ==> run[i] == Target(d, start, have, offset, data, u + i)
    ensures |d'| == |d| && Progress(d, Put(d', start + u, run), start, have, offset, data, u + |run|)
  {
    hide Target;
    var d'' := Put(d', start + u, run);
    hide Put;
    forall q | start + offset / SECTOR <= q < start + u + |run| && q < |d''|
      ensures d''[q] == Target(d, start, have, offset, data, q - start) {
      if q >= start + u { assert d''[q] == run[q - start - u]; }
    }
  }

  /** The data written over a run: whole sectors in one call, the first and last by themselves. */
  method WriteData(d: Disk, start: nat, have: nat, offset: nat, data: seq<nat>) returns (d': Disk)
    requires Whole(d)
    ensures Progress(d, d', start, have, offset, data, Reached(offset, |data|))
  {
    d' := d;
    var done := 0;
    hide Target, Cut, Patched, Zeroes, Put, Progress, Elsewhere, Reached, SectorsFor;
    ProgressNone(d, start, have, offset, data);
    while done < |data|
      invariant done <= |data|
      invariant done == 0 || done == |data| || (offset + done) % SECTOR == 0
      invariant Progress(d, d', start, have, offset, data, Reached(offset, done))
    {
      var at, into := (offset + done) / SECTOR, (offset + done) % SECTOR;
      var whole := if into == 0 then (|data| - done) / SECTOR else 0;
      Reaching(offset, done, |data|);
      if whole > 0 {
        WholeStep(d, d', start, have, offset, data, done, whole);
        d' := Put(d', start + at, Cut(data, done, whole));
        done := done + whole * SECTOR;
      } else {
        var n;
        d', n := WritePart(d, d', start, have, offset, data, done);
        done := done + n;
      }
    }
  }

  /** A sector only partly covered, with what it had or zeroes around the data. */
  method WritePart(ghost d: Disk, d': Disk, start: nat, have: nat, offset: nat, data: seq<nat>, done: nat)
      returns (d'': Disk, n: nat)
    requires Whole(d) && done < |data|
    requires done == 0 || (offset + done) % SECTOR == 0
    requires (offset + done) % SECTOR == 0 ==> |data| - done < SECTOR
    requires Progress(d, d', start, have, offset, data, Reached(offset, done))
    ensures 0 < n <= |data| - done && (done + n == |data| || (offset + done + n) % SECTOR == 0)
    ensures Progress(d, d'', start, have, offset, data, Reached(offset, done + n))
  {
    hide Target, Patched, Zeroes, Put, Progress, Elsewhere, Reached, SectorsFor, SectorAt;
    Reaching(offset, done, |data|);
    var at, into := (offset + done) / SECTOR, (offset + done) % SECTOR;
    var room := SECTOR - into;
    n := if |data| - done < room then |data| - done else room;
    ProgressAt(d, d', start, have, offset, data, at);
    var base := if at < have then SectorAt(d', start + at) else Zeroes();
    PartStep(d, d', start, have, offset, data, done, n, base);
    d'' := Put(d', start + at, [Patched(base, into, data[done..done + n])]);
  }

  /** Whole sectors in one call. */
  lemma {:induction false} WholeStep(d: Disk, d': Disk, start: nat, have: nat, offset: nat, data: seq<nat>, done: nat,
      whole: nat)
    requires Whole(d) && done < |data|
    requires (offset + done) % SECTOR == 0 && 0 < whole == (|data| - done) / SECTOR
    requires Progress(d, d', start, have, offset, data, Reached(offset, done))
    ensures var at := (offset + done) / SECTOR;
            && |d'| == |d| && (offset + done + whole * SECTOR) % SECTOR == 0
            && Progress(d, Put(d', start + at, Cut(data, done, whole)), start, have, offset, data,
               Reached(offset, done + whole * SECTOR))
  {
    hide Target, Cut, Put, Progress, Elsewhere, Reached, SectorsFor;
    var at := (offset + done) / SECTOR;
    Reaching(offset, done, |data|);
    var run := Cut(data, done, whole);
    forall i | 0 <= i < whole ensures run[i] == Target(d, start, have, offset, data, at + i) {
      CutIsTarget(d, start, have, offset, data, done, at, whole, i);
    }
    ProgressPut(d, d', start, have, offset, data, at, run);
    ReachedWhole(offset, done + whole * SECTOR, at + whole);
  }

  /** One sector, the first or the last, covered in part. */
  lemma {:induction false} PartStep(d: Disk, d': Disk, start: nat, have: nat, offset: nat, data: seq<nat>, done: nat,
      n: nat, base: Sector)
    requires Whole(d) && done < |data|
    requires done == 0 || (offset + done) % SECTOR == 0
    requires var into := (offset + done) % SECTOR;
             0 < n <= SECTOR - into && done + n <= |data| && (done + n == |data| || into + n == SECTOR)
    requires Progress(d, d', start, have, offset, data, Reached(offset, done))
    requires |base| == SECTOR && base == if (offset + done) / SECTOR < have
      then SectorAt(d, start + (offset + done) / SECTOR) else Zeroes()
    ensures var at, into := (offset + done) / SECTOR, (offset + done) % SECTOR;
            && |d'| == |d| && (done + n == |data| || (offset + done + n) % SECTOR == 0)
            && Progress(d, Put(d', start + at, [Patched(base, into, data[done..done + n])]), start, have, offset, data,
               Reached(offset, done + n))
  {
    hide Target, Patched, Zeroes, Put, Progress, Elsewhere, Reached, SectorsFor, SectorAt, Whole;
    Reaching(offset, done, |data|);
    PartPut(d, d', start, have, offset, data, done, (offset + done) / SECTOR, (offset + done) % SECTOR, n, base);
  }

  lemma {:induction false} PartPut(d: Disk, d': Disk, start: nat, have: nat, offset: nat, data: seq<nat>, done: nat,
      at: nat, into: nat, n: nat, base: Sector)
    requires Whole(d) && offset / SECTOR <= at && offset + done == at * SECTOR + into && (done == 0 || into == 0)
    requires 0 < n && into + n <= SECTOR && done + n <= |data| && (done + n == |data| || into + n == SECTOR)
    requires Progress(d, d', start, have, offset, data, at)
    requires |base| == SECTOR && base == if at < have then SectorAt(d, start + at) else Zeroes()
    ensures |d'| == |d| && (done + n == |data| || (offset + done + n) % SECTOR == 0)
    ensures Progress(d, Put(d', start + at, [Patched(base, into, data[done..done + n])]), start, have, offset, data,
      Reached(offset, done + n))
  {
    hide Target, Patched, Zeroes, Put, Progress, Elsewhere, Reached, SectorAt, Whole;
    var end: nat := done + n;
    ReachedPart(offset, end, at, into + n);
    assert offset + done + n == offset + end;
    PatchIsTarget(d, start, have, offset, data, done, at, into, n, base);
    OnePut(d, d', start, have, offset, data, at, Patched(base, into, data[done..done + n]));
  }

  lemma {:induction false} OnePut(d: Disk, d': Disk, start: nat, have: nat, offset: nat, data: seq<nat>, u: nat,
      s: Sector)
    requires Progress(d, d', start, have, offset, data, u) && offset / SECTOR <= u
    requires s == Target(d, start, have, offset, data, u)
    ensures |d'| == |d| && Progress(d, Put(d', start + u, [s]), start, have, offset, data, u + 1)
  {
    hide Target, Put, Progress;
    ProgressPut(d, d', start, have, offset, data, u, [s]);
  }

  lemma {:induction false} ProgressNone(d: Disk, start: nat, have: nat, offset: nat, data: seq<nat>)
    requires Whole(d)
    ensures Progress(d, d, start, have, offset, data, Reached(offset, 0))
  {
    hide Target;
  }

  /** The next sector is still as it was. */
  lemma {:induction false} ProgressAt(d: Disk, d': Disk, start: nat, have: nat, offset: nat, data: seq<nat>, u: nat)
    requires Whole(d) && Progress(d, d', start, have, offset, data, u)
    ensures |d'| == |d| && SectorAt(d', start + u) == SectorAt(d, start + u) && |SectorAt(d, start + u)| == SECTOR
  {
    hide Target;
  }

  /** One past the last sector that the first done bytes at offset reach into. */
  function Reached(offset: nat, done: nat): (a: nat)
  {
    if done == 0 then offset / SECTOR else SectorsFor(offset + done)
  }

  lemma {:induction false} Reaching(offset: nat, done: nat, size: nat)
    requires done < size && (done == 0 || (offset + done) % SECTOR == 0)
    ensures Reached(offset, done) == (offset + done) / SECTOR < SectorsFor(offset + size)
    ensures (size - done) / SECTOR > 0 && (offset + done) % SECTOR == 0 ==>
      (offset + done) / SECTOR + (size - done) / SECTOR <= SectorsFor(offset + size)
  {
  }

  lemma {:induction false} ReachedWhole(offset: nat, done: nat, a: nat)
    requires done > 0 && offset + done == a * SECTOR
    ensures Reached(offset, done) == a && (offset + done) % SECTOR == 0
  {
  }

  lemma {:induction false} ReachedPart(offset: nat, done: nat, at: nat, n: nat)
    requires 0 < n <= SECTOR && done > 0 && offset + done == at * SECTOR + n
    ensures Reached(offset, done) == at + 1 && (n == SECTOR ==> (offset + done) % SECTOR == 0)
  {
  }

  // ---- a file as one sequence of bytes

  /** What byte k of the file is once moved and written: spliced, and zero past its end. */
  lemma {:induction false} FinalByte(d0: Disk, d1: Disk, d2: Disk, start: nat, room: nat, size: nat, offset: nat,
      data: seq<nat>, k: nat)
    requires Whole(d0) && Whole(d1) && |d1| == |d0| && |data| > 0
    requires var have := SectorsFor(size); var end := if offset + |data| < size then size else offset + |data|;
             && (size > 0 ==> start + have <= |d0| && TailZero(d0, start, size))
             && room + SectorsFor(end) <= |d0| && k < SectorsFor(end) * SECTOR
             && (forall q :: room <= q < room + have ==> d1[q] == d0[start + (q - room)])
             && (forall q :: room + have <= q < room + offset / SECTOR ==> d1[q] == Zeroes())
             && Progress(d1, d2, room, have, offset, data, SectorsFor(offset + |data|))
    ensures Byte(d2, room, k) ==
      (var s := Spliced(Bytes(d0, start, size), offset, data); if k < |s| then s[k] else 0)
  {
    var have := SectorsFor(size);
    var a, j := k / SECTOR, k % SECTOR;
    assert k == a * SECTOR + j;
    var q := room + a;
    assert Byte(d2, room, k) == d2[q][j];
    if offset / SECTOR <= a < SectorsFor(offset + |data|) {
      assert d2[q] == Target(d1, room, have, offset, data, a);
      assert d2[q][j] == TargetByte(d1, room, have, offset, data, a, j);
      if a < have { OldByte(d0, d1, start, room, size, k); }
    } else {
      assert d2[q] == d1[q];
      if a < have { OldByte(d0, d1, start, room, size, k); }
    }
  }

  /** A byte of a sector the file had: its own, or a zero past its end. */
  lemma {:induction false} OldByte(d0: Disk, d1: Disk, start: nat, room: nat, size: nat, k: nat)
    requires Whole(d0) && Whole(d1) && |d1| == |d0| && k / SECTOR < SectorsFor(size)
    requires start + SectorsFor(size) <= |d0| && room + SectorsFor(size) <= |d0| && TailZero(d0, start, size)
    requires forall q :: room <= q < room + SectorsFor(size) ==> d1[q] == d0[start + (q - room)]
    ensures d1[room + k / SECTOR][k % SECTOR] == if k < size then Bytes(d0, start, size)[k] else 0
  {
    var a := k / SECTOR;
    assert d1[room + a] == d0[start + a];
    assert Byte(d0, start, k) == d0[start + a][k % SECTOR];
  }

  /** A file's bytes are where its extent says, whatever is written elsewhere. */
  lemma {:induction false} Untouched(d: Disk, d': Disk, from: nat, to: nat, start: nat, size: nat)
    requires Elsewhere(d, d', from, to) && start + SectorsFor(size) <= |d|
    requires size > 0 ==> start + SectorsFor(size) <= from || to <= start
    ensures Bytes(d', start, size) == Bytes(d, start, size)
    ensures TailZero(d, start, size) ==> TailZero(d', start, size)
  {
    forall k | 0 <= k < SectorsFor(size) * SECTOR ensures Byte(d', start, k) == Byte(d, start, k) {
      assert start + k / SECTOR < |d|;
    }
  }

  lemma {:induction false} ElsewhereThen(d: Disk, d1: Disk, d2: Disk, from: nat, mid: nat, to: nat, from': nat,
      to': nat)
    requires Elsewhere(d, d1, from, mid) && Elsewhere(d1, d2, from', to') && from <= from' && to' <= to && mid <= to
    ensures Elsewhere(d, d2, from, to)
  {
  }

  // ---- what a write promises

  /** Everything where its entry says, zero past its end, and no field wider than it is. */
  ghost predicate Sound(d: Disk, l: Layout, files: seq<Extent>)
  {
    && Whole(d) && |d| == l.diskSectors < U32 && DATA_LBA <= l.dataEnd <= l.diskSectors && Apart(l, files)
    && (forall i: nat :: i < |files| && files[i].HasData() ==> TailZero(d, files[i].start, files[i].size))
    && forall i: nat :: i < |files| ==> files[i].start < U32 && files[i].size < LINK
  }

  /** The bytes of file i. */
  ghost function ContentOf(d: Disk, files: seq<Extent>, i: nat): seq<nat>
  {
    if i < |files| && files[i].live then Bytes(d, files[i].start, files[i].size) else []
  }

  /** Entry e now has these bytes, as a file or a link, and every other one what it had. */
  ghost predicate Edited(d0: Disk, files0: seq<Extent>, e: nat, now: seq<nat>, link: bool, d: Disk, l: Layout,
      files: seq<Extent>)
  {
    && Sound(d, l, files) && |files| == |files0| && e < |files| && files[e].live && files[e].link == link
    && (forall i: nat :: i < |files| && i != e ==>
      files[i] == files0[i] && ContentOf(d, files, i) == ContentOf(d0, files0, i))
    && ContentOf(d, files, e) == now && FixedKept(d0, l, d)
  }

  /** The boot sector, the header, the table and the index are as they were. */
  ghost predicate FixedKept(d0: Disk, l: Layout, d: Disk)
  {
    |d| == |d0| && forall q :: 0 <= q < |d0| && Fixed(l, q) ==> d[q] == d0[q]
  }

  predicate Fixed(l: Layout, q: int)
  {
    || 0 <= q < 2 || l.tableLba <= q < l.tableLba + l.tableSectors
    || l.indexLba <= q < l.indexLba + l.indexSectors
  }

  /** The size an entry of this size is given by n bytes at offset: their end is a 32-bit sum. */
  function EndOf(size: nat, offset: nat, n: nat): (end: nat)
  {
    var end := Sum(offset, n);
    if end < size then size else end
  }

  /** How many sectors it should then have. */
  function Need(size: nat, offset: nat, n: nat): (count: nat)
  {
    SectorsFor(if offset + n < size then size else offset + n)
  }

  /** The write ends below 2^31, and no sector number on the way is past 32 bits. */
  predicate Ordinary(l: Layout, files: seq<Extent>, e: nat, offset: nat, n: nat)
  {
    e < |files| && offset + n < LINK && Sums(l, files, Some(e), Need(files[e].size, offset, n))
  }

  /** Up to where the file is put together before the data is written. */
  function GapTo(have: nat, need: nat, offset: nat): (gap: nat)
    ensures gap >= have
  {
    if need > have && offset / SECTOR > have then offset / SECTOR else have
  }

  /** What is done to the disk: the file put together at room, and the data written over it. */
  ghost predicate Wrote(d0: Disk, f: Extent, offset: nat, data: seq<nat>, room: nat, d1: Disk, d2: Disk)
  {
    var have, need := SectorsFor(f.size), Sectors32(EndOf(f.size, offset, |data|));
    && Shifted(d0, d1, f.start, room, have, GapTo(have, need, offset))
    && Progress(d1, d2, room, have, offset, data, Reached(offset, |data|))
  }

  lemma {:induction false} OrdinaryEnd(size: nat, offset: nat, n: nat)
    requires offset + n < LINK && size < LINK
    ensures EndOf(size, offset, n) == (if offset + n < size then size else offset + n) < LINK
    ensures Sectors32(EndOf(size, offset, n)) == Need(size, offset, n) < U32
  {
  }

  lemma {:induction false} EndFits(size: nat, offset: nat, n: nat)
    requires size < LINK
    ensures EndOf(size, offset, n) < U32 && Sectors32(EndOf(size, offset, n)) < U32
  {
  }

  /** A file's own sectors, and zeroes, where they are needed for an ordinary write. */
  ghost predicate Ready(d0: Disk, d1: Disk, f: Extent, room: nat, offset: nat, need: nat)
  {
    && Whole(d1) && |d1| == |d0| && room + need <= |d0| && Elsewhere(d0, d1, room, room + need)
    && (f.size > 0 ==> f.start + SectorsFor(f.size) <= |d0|)
    && (forall q :: room <= q < room + SectorsFor(f.size) && q < |d1| ==> d1[q] == d0[f.start + (q - room)])
    && (forall q :: room + SectorsFor(f.size) <= q < room + offset / SECTOR && q < |d1| ==> d1[q] == Zeroes())
  }

  lemma {:induction false} ShiftedIsReady(d0: Disk, d1: Disk, f: Extent, room: nat, offset: nat, n: nat)
    requires n > 0 && (f.size > 0 ==> f.start + SectorsFor(f.size) <= |d0|)
    requires var have, need := SectorsFor(f.size), Need(f.size, offset, n);
      room + need <= |d0| && Shifted(d0, d1, f.start, room, have, GapTo(have, need, offset))
    ensures Ready(d0, d1, f, room, offset, Need(f.size, offset, n))
  {
    hide Zeroes;
    var have, need := SectorsFor(f.size), Need(f.size, offset, n);
    NeedIs(f.size, offset, n);
    var gap := GapTo(have, need, offset);
    hide SectorsFor, Need;
    forall q | room <= q < room + have && q < |d1| ensures d1[q] == d0[f.start + (q - room)] {
      assert d1[q] == Carried(d0, f.start, room, have, q);
    }
    forall q | room + have <= q < room + offset / SECTOR && q < |d1| ensures d1[q] == Zeroes() {
      assert d1[q] == Carried(d0, f.start, room, have, q);
    }
  }

  lemma {:induction false} NeedIs(size: nat, offset: nat, n: nat)
    requires n > 0
    ensures offset / SECTOR < Need(size, offset, n) && SectorsFor(size) <= Need(size, offset, n)
    ensures SectorsFor(offset + n) <= Need(size, offset, n) && (size == 0 <==> SectorsFor(size) == 0)
      && Need(size, offset, n) > 0
  {
  }

  datatype Status = Done | NoSpace

  class Volume {
    var disk: Disk
    var layout: Layout
    var files: seq<Extent>

    ghost predicate Valid()
      reads this
    {
      Sound(disk, layout, files)
    }

    /** need sectors for file e, with what it had already there: where it is, or where it was carried to. */
    method MakeRoom(e: nat, offset: nat, need: nat) returns (full: bool, room: nat, dataEnd: nat, d: Disk)
      requires Valid() && Below(layout, files) && e < |files| && files[e].live && need < U32
      ensures Sums(layout, files, Some(e), need) ==> Chosen(layout, files, Some(e), need, room, dataEnd)
      ensures !Sums(layout, files, Some(e), need) ==> room + need >= U32
      ensures full <==> need > SectorsFor(files[e].size) && room == 0
      ensures !full ==>
        Shifted(disk, d, files[e].start, room, SectorsFor(files[e].size),
          GapTo(SectorsFor(files[e].size), need, offset))
    {
      hide Below, Apart, TailZero, SectorsFor, Chosen, Carried, Zeroes;
      var start, have := files[e].start, SectorsFor(files[e].size);
      d := disk;
      OwnSectors(disk, layout, files, e);
      if need <= have {
        StaysPut(disk, files, layout, e, need);
        return false, start, layout.dataEnd, d;
      }
      room, dataEnd := Allocate(layout, files, Some(e), need);
      if room == 0 {
        return true, room, dataEnd, d;
      }
      var gap := if offset / SECTOR > have then offset / SECTOR else have;
      CanCarry(layout, files, e, need, room, dataEnd);
      if (room != start && have > 0) || gap > have {
        d := Carry(d, start, room, have, gap);
      } else {
        NotCarried(disk, start, room, have);
      }
      full := false;
    }

    /**
     * data written into file e at offset, which may be past its end: moved first where it
     * does not fit. That edits the file, and nothing else, if and only if the write is ordinary.
     */
    method WriteAt(e: nat, offset: nat, data: seq<nat>) returns (status: Status, ghost room: nat, ghost d1: Disk)
      requires Valid() && Below(layout, files) && e < |files| && files[e].live && !files[e].link && offset < U32
      modifies this
      ensures data == [] ==> status == Done
      ensures data == [] || status == NoSpace ==> disk == old(disk) && layout == old(layout) && files == old(files)
      ensures data != [] && status == Done ==>
        && Wrote(old(disk), old(files)[e], offset, data, room, d1, disk)
        && files == old(files)[e := Entry(room, EndOf(old(files)[e].size, offset, |data|))]
        && layout == old(layout).(dataEnd := layout.dataEnd)
        && var need := Sectors32(EndOf(old(files)[e].size, offset, |data|));
           (Sums(old(layout), old(files), Some(e), need) ==>
              Chosen(old(layout), old(files), Some(e), need, room, layout.dataEnd))
      ensures data != [] && status == Done ==>
        (Edited(old(disk), old(files), e, Spliced(old(ContentOf(disk, files, e)), offset, data), false, disk, layout,
          files) <==>
         Ordinary(old(layout), old(files), e, offset, |data|))
      ensures data != [] && Ordinary(old(layout), old(files), e, offset, |data|) ==>
        var need := Need(old(files)[e].size, offset, |data|);
        && (status == NoSpace <==> forall s: nat :: !Given(old(layout), old(files), Some(e), need, s))
        && (Below(layout, files) <==> Roomy(old(layout), old(files), Some(e), need))
    {
      hide *;
      ValidIs(this);
      room, d1 := 0, disk;
      if data == [] {
        return Done, room, d1;
      }
      var end := EndOf(files[e].size, offset, |data|);
      SoundSizes(disk, layout, files, e);
      EndFits(files[e].size, offset, |data|);
      var have, need := SectorsFor(files[e].size), Sectors32(end);
      var full, at, dataEnd, d := MakeRoom(e, offset, need);
      room, d1 := at, d;
      if Ordinary(layout, files, e, offset, |data|) {
        OrdinaryRoom(disk, layout, files, e, offset, |data|, at, dataEnd, full);
      }
      if full {
        return NoSpace, room, d1;
      }
      ShiftedWhole(disk, d, files[e].start, at, have, GapTo(have, need, offset));
      var d2 := WriteData(d, at, have, offset, data);
      WroteIs(disk, files[e], offset, data, at, d, d2);
      if Ordinary(layout, files, e, offset, |data|) {
        WriteEdits(disk, layout, files, e, offset, data, at, dataEnd, d, d2);
      } else {
        WriteDoesNot(disk, layout, files, e, offset, data, at, dataEnd, d2);
      }
      disk := d2;
      files := files[e := Entry(at, end)];
      layout := layout.(dataEnd := dataEnd);
      status := Done;
    }

    /**
     * A file or link written whole, over the one there or as a new entry, the last sector
     * padded with zeroes. That gives it these bytes if and only if there are fewer than 2^31.
     */
    method Store(e: nat, data: seq<nat>, link: bool) returns (status: Status, ghost start: nat)
      requires Valid() && Below(layout, files) && e < |files|
      modifies this
      ensures status == NoSpace ==> disk == old(disk) && layout == old(layout) && files == old(files)
      ensures status == Done ==>
        && files == old(files)[e := Entry(start, RawSize(|data|, link))]
        && layout == old(layout).(dataEnd := layout.dataEnd)
        && (Sums(old(layout), old(files), Own(old(files), e), Counted(|data|)) ==>
              Chosen(old(layout), old(files), Own(old(files), e), Counted(|data|), start, layout.dataEnd))
        && (if data == [] then disk == old(disk)
            else var some := PartOf(data, Counted(|data|));
                 Progress(old(disk), disk, start, 0, 0, some, Reached(0, |some|)))
      ensures status == Done ==>
        (Edited(old(disk), old(files), e, data, link, disk, layout, files) <==>
          Plain(old(layout), old(files), e, |data|))
      ensures data != [] && Plain(old(layout), old(files), e, |data|) ==>
        && (status == NoSpace <==>
           forall s: nat :: !Given(old(layout), old(files), Own(old(files), e), SectorsFor(|data|), s))
        && (Below(layout, files) <==> Roomy(old(layout), old(files), Own(old(files), e), SectorsFor(|data|)))
    {
      hide *;
      ValidIs(this);
      var count := Counted(|data|);
      StoreFits(disk, layout, files, e, |data|);
      var at, dataEnd := Allocate(layout, files, Own(files, e), count);
      start := at;
      PlainRoom(disk, layout, files, e, |data|, at, dataEnd);
      if at == 0 {
        return NoSpace, start;
      }
      var d := disk;
      if data != [] {
        d := WriteData(d, at, 0, 0, PartOf(data, count));
      }
      StoreEnds(disk, layout, files, e, data, link, at, dataEnd, d);
      disk := d;
      files := files[e := Entry(at, RawSize(|data|, link))];
      layout := layout.(dataEnd := dataEnd);
      status := Done;
    }
  }

  lemma {:induction false} ValidIs(v: Volume)
    ensures v.Valid() <==> Sound(v.disk, v.layout, v.files)
  {
  }

  // ---- room

  lemma {:induction false} SoundSizes(d: Disk, l: Layout, files: seq<Extent>, e: nat)
    requires Sound(d, l, files) && e < |files|
    ensures files[e].start < U32 && files[e].size < LINK && Whole(d)
  {
  }

  lemma {:induction false} OwnSectors(d: Disk, l: Layout, files: seq<Extent>, e: nat)
    requires Sound(d, l, files) && e < |files| && files[e].live
    ensures (SectorsFor(files[e].size) > 0 <==> files[e].HasData()) && files[e].start < U32 && Whole(d)
    ensures files[e].HasData() ==> files[e].start + SectorsFor(files[e].size) <= |d|
    ensures Apart(l, files) && DATA_LBA <= l.dataEnd <= l.diskSectors < U32
  {
  }

  lemma {:induction false} StaysPut(d: Disk, files: seq<Extent>, l: Layout, e: nat, need: nat)
    requires e < |files| && Whole(d) && need <= SectorsFor(files[e].size)
    requires SectorsFor(files[e].size) > 0 ==> files[e].start + SectorsFor(files[e].size) <= |d|
    ensures Chosen(l, files, Some(e), need, files[e].start, l.dataEnd) && Sums(l, files, Some(e), need)
    ensures Shifted(d, d, files[e].start, files[e].start, SectorsFor(files[e].size), SectorsFor(files[e].size))
  {
    hide SectorsFor, Zeroes;
  }

  lemma {:induction false} NotCarried(d: Disk, start: nat, room: nat, have: nat)
    requires Whole(d) && (have > 0 ==> start + have <= |d| && room == start)
    ensures Shifted(d, d, start, room, have, have)
  {
    hide Zeroes;
  }

  lemma {:induction false} CanCarry(l: Layout, files: seq<Extent>, e: nat, need: nat, room: nat, dataEnd: nat)
    requires Apart(l, files) && Below(l, files) && e < |files| && files[e].live && need > SectorsFor(files[e].size)
      && room != 0
    requires if Sums(l, files, Some(e), need) then Chosen(l, files, Some(e), need, room, dataEnd)
             else room == l.dataEnd || room == files[e].start
    ensures SectorsFor(files[e].size) > 0 ==>
      room <= files[e].start || files[e].start + SectorsFor(files[e].size) <= room
  {
    if files[e].HasData() {
      if Sums(l, files, Some(e), need) { ChosenAside(l, files, e, need, room, dataEnd); }
      assert files[e].End() <= l.dataEnd;
    }
  }

  lemma {:induction false} ShiftedWhole(d: Disk, d': Disk, start: nat, room: nat, have: nat, gap: nat)
    requires Shifted(d, d', start, room, have, gap)
    ensures Whole(d')
  {
  }

  lemma {:induction false} WroteIs(d0: Disk, f: Extent, offset: nat, data: seq<nat>, room: nat, d1: Disk, d2: Disk)
    requires var have, need := SectorsFor(f.size), Sectors32(EndOf(f.size, offset, |data|));
      Shifted(d0, d1, f.start, room, have, GapTo(have, need, offset))
        && Progress(d1, d2, room, have, offset, data, Reached(offset, |data|))
    ensures Wrote(d0, f, offset, data, room, d1, d2)
  {
    hide SectorsFor, Sectors32, Shifted, Progress;
  }

  /** An ordinary write has room exactly if there is any, and what was said of the data end. */
  lemma {:induction false} OrdinaryRoom(d: Disk, l: Layout, files: seq<Extent>, e: nat, offset: nat, n: nat, room: nat,
      dataEnd: nat, full: bool)
    requires Sound(d, l, files) && Below(l, files) && e < |files| && files[e].live && n > 0
      && Ordinary(l, files, e, offset, n)
    requires var need := Sectors32(EndOf(files[e].size, offset, n));
      && (Sums(l, files, Some(e), need) ==> Chosen(l, files, Some(e), need, room, dataEnd))
      && (full <==> need > SectorsFor(files[e].size) && room == 0)
    ensures var need := Need(files[e].size, offset, n);
      && need == Sectors32(EndOf(files[e].size, offset, n)) && need > 0
      && Chosen(l, files, Some(e), need, room, dataEnd) && l.dataEnd <= dataEnd <= l.diskSectors
      && (full <==> forall s: nat :: !Given(l, files, Some(e), need, s)) && (full <==> room == 0)
      && (room != 0 ==> Given(l, files, Some(e), need, room))
      && (full ==> Roomy(l, files, Some(e), need))
  {
    OrdinaryEnd(files[e].size, offset, n);
    NeedIs(files[e].size, offset, n);
    var need := Need(files[e].size, offset, n);
    hide SectorsFor, Need, Apart, Below, TailZero;
    ChosenGiven(l, files, Some(e), need, room, dataEnd);
    if need <= SectorsFor(files[e].size) { InPlaceOnDisk(d, l, files, e, need); }
    hide Chosen;
    if full { assert forall s: nat :: !Given(l, files, Some(e), need, s); }
  }

  lemma {:induction false} InPlaceOnDisk(d: Disk, l: Layout, files: seq<Extent>, e: nat, need: nat)
    requires Sound(d, l, files) && e < |files| && files[e].live && 0 < need <= SectorsFor(files[e].size)
    ensures files[e].start >= DATA_LBA
  {
    assert files[e].HasData();
  }

  // ---- an ordinary write

  lemma {:induction false} SplicedSize(was: seq<nat>, offset: nat, data: seq<nat>)
    ensures |Spliced(was, offset, data)| == if offset + |data| < |was| then |was| else offset + |data|
  {
  }

  lemma {:induction false} SizeFits(size: nat)
    ensures size <= SectorsFor(size) * SECTOR
  {
  }

  lemma {:induction false} WholeAfter(d: Disk, d': Disk, start: nat, have: nat, offset: nat, data: seq<nat>, u: nat)
    requires Progress(d, d', start, have, offset, data, u)
    ensures Whole(d')
  {
  }

  lemma {:induction false} ReadyByte(d0: Disk, d1: Disk, d2: Disk, f: Extent, room: nat, offset: nat, data: seq<nat>,
      end: nat, k: nat)
    requires Whole(d0) && |data| > 0 && (f.size > 0 ==> TailZero(d0, f.start, f.size))
    requires end == if offset + |data| < f.size then f.size else offset + |data|
    requires Ready(d0, d1, f, room, offset, SectorsFor(end)) && k < SectorsFor(end) * SECTOR
    requires Progress(d1, d2, room, SectorsFor(f.size), offset, data, Reached(offset, |data|))
    ensures Byte(d2, room, k) ==
      (var s := Spliced(Bytes(d0, f.start, f.size), offset, data); if k < |s| then s[k] else 0)
  {
    hide Progress, Elsewhere, TailZero, Byte, Spliced;
    SectorsGrow(f.size, end);
    SectorsGrow(offset + |data|, end);
    FinalByte(d0, d1, d2, f.start, room, f.size, offset, data, k);
  }

  lemma {:induction false} SectorsGrow(n: nat, m: nat)
    requires n <= m
    ensures SectorsFor(n) <= SectorsFor(m)
    ensures n > 0 ==> (n - 1) / SECTOR < SectorsFor(m)
  {
  }

  /** The file's new bytes, and the zeroes after them. */
  lemma {:induction false} ContentIs(d0: Disk, d1: Disk, d2: Disk, f: Extent, room: nat, offset: nat, data: seq<nat>,
      end: nat)
    requires Whole(d0) && |data| > 0 && (f.size > 0 ==> TailZero(d0, f.start, f.size))
    requires end == if offset + |data| < f.size then f.size else offset + |data|
    requires Ready(d0, d1, f, room, offset, SectorsFor(end))
    requires Progress(d1, d2, room, SectorsFor(f.size), offset, data, Reached(offset, |data|))
    ensures Bytes(d2, room, end) == Spliced(Bytes(d0, f.start, f.size), offset, data) && TailZero(d2, room, end)
      && Whole(d2)
  {
    hide Progress, Elsewhere, Ready, Byte, Spliced, SectorsFor;
    SplicedSize(Bytes(d0, f.start, f.size), offset, data);
    var s := Spliced(Bytes(d0, f.start, f.size), offset, data);
    forall k: nat | k < SectorsFor(end) * SECTOR ensures Byte(d2, room, k) == if k < |s| then s[k] else 0 {
      ReadyByte(d0, d1, d2, f, room, offset, data, end, k);
    }
    SizeFits(end);
    WholeAfter(d1, d2, room, SectorsFor(f.size), offset, data, Reached(offset, |data|));
  }

  /** No other file's bytes are where the write was. */
  lemma {:induction false} OthersKept(d0: Disk, l: Layout, files: seq<Extent>, e: nat, room: nat, count: nat, d: Disk)
    requires Sound(d0, l, files) && e < |files| && count > 0 && Given(l, files, Some(e), count, room)
    requires Elsewhere(d0, d, room, room + count)
    ensures |d| == |d0|
    ensures forall i: nat :: i < |files| && i != e ==> ContentOf(d, files, i) == ContentOf(d0, files, i)
    ensures forall i: nat :: i < |files| && i != e && files[i].HasData() ==> TailZero(d, files[i].start, files[i].size)
  {
    hide Byte;
    forall i: nat | i < |files| && i != e && files[i].live
      ensures ContentOf(d, files, i) == ContentOf(d0, files, i)
      ensures files[i].HasData() ==> TailZero(d, files[i].start, files[i].size)
    {
      if files[i].HasData() {
        Untouched(d0, d, room, room + count, files[i].start, files[i].size);
      }
    }
  }

  /** One entry written anew over sectors it was given. */
  lemma {:induction false} OneEdited(d0: Disk, l: Layout, files: seq<Extent>, e: nat, f: Extent, dataEnd: nat,
      now: seq<nat>, d: Disk)
    requires Sound(d0, l, files) && e < |files| && f.live && f.HasData() && f.start < U32 && f.size < LINK
    requires l.dataEnd <= dataEnd <= l.diskSectors && Given(l, files, Some(e), SectorsFor(f.size), f.start)
    requires Whole(d) && Elsewhere(d0, d, f.start, f.start + SectorsFor(f.size))
    requires Bytes(d, f.start, f.size) == now && TailZero(d, f.start, f.size)
    ensures Edited(d0, files, e, now, f.link, d, l.(dataEnd := dataEnd), files[e := f])
  {
    ApartMoved(l, files, e, f, dataEnd);
    SectorsPositive(f.size);
    OthersKept(d0, l, files, e, f.start, SectorsFor(f.size), d);
    FixedStays(d0, l, files, e, f.start, SectorsFor(f.size), dataEnd, d);
    hide Apart, TailZero, SectorsFor, Given, Elsewhere, FixedKept;
    var files' := files[e := f];
    assert files'[e] == f;
    assert forall i: nat :: i < |files| && i != e ==> files'[i] == files[i];
  }

  lemma {:induction false} FixedStays(d0: Disk, l: Layout, files: seq<Extent>, e: nat, start: nat, count: nat,
      dataEnd: nat, d: Disk)
    requires Given(l, files, Some(e), count, start) && count > 0 && Elsewhere(d0, d, start, start + count)
    ensures FixedKept(d0, l.(dataEnd := dataEnd), d)
  {
    assert !Overlap(Run(l.tableLba, l.tableLba + l.tableSectors), start, count);
    assert !Overlap(Run(l.indexLba, l.indexLba + l.indexSectors), start, count);
  }

  lemma {:induction false} SectorsPositive(size: nat)
    requires size > 0
    ensures SectorsFor(size) > 0
  {
  }

  lemma {:induction false} WriteElsewhere(d0: Disk, d1: Disk, d2: Disk, f: Extent, room: nat, offset: nat,
      data: seq<nat>, need: nat)
    requires |data| > 0 && need == Need(f.size, offset, |data|) && Ready(d0, d1, f, room, offset, need)
    requires Progress(d1, d2, room, SectorsFor(f.size), offset, data, Reached(offset, |data|))
    ensures Elsewhere(d0, d2, room, room + need)
  {
    NeedIs(f.size, offset, |data|);
    ElsewhereThen(d0, d1, d2, room, room + need, room + need, room + offset / SECTOR,
      room + SectorsFor(offset + |data|));
  }

  /** An ordinary write edits the file and nothing else, and keeps the data end exactly when there was room. */
  lemma {:induction false} WriteEdits(d0: Disk, l: Layout, files: seq<Extent>, e: nat, offset: nat, data: seq<nat>,
      room: nat, dataEnd: nat, d1: Disk, d2: Disk)
    requires Sound(d0, l, files) && Below(l, files) && e < |files| && files[e].live && !files[e].link && |data| > 0
    requires Ordinary(l, files, e, offset, |data|) && l.dataEnd <= dataEnd <= l.diskSectors && room != 0
    requires var need := Need(files[e].size, offset, |data|);
      Chosen(l, files, Some(e), need, room, dataEnd) && Given(l, files, Some(e), need, room)
    requires Wrote(d0, files[e], offset, data, room, d1, d2)
    ensures var f := Entry(room, EndOf(files[e].size, offset, |data|));
      && Edited(d0, files, e, Spliced(ContentOf(d0, files, e), offset, data), false, d2, l.(dataEnd := dataEnd),
         files[e := f])
      && (Below(l.(dataEnd := dataEnd), files[e := f]) <==>
         Roomy(l, files, Some(e), Need(files[e].size, offset, |data|)))
  {
    hide *;
    var f0 := files[e];
    SoundSizes(d0, l, files, e);
    OrdinaryIs(l, files, e, offset, |data|);
    OrdinaryEnd(f0.size, offset, |data|);
    var end := EndOf(f0.size, offset, |data|);
    var f := Entry(room, end);
    EntryIs(room, end);
    NeedOf(f0.size, offset, |data|);
    WroteParts(d0, f0, offset, data, room, d1, d2);
    FileParts(d0, l, files, e, Need(f0.size, offset, |data|), room);
    ShiftedIsReady(d0, d1, f0, room, offset, |data|);
    ContentIs(d0, d1, d2, f0, room, offset, data, end);
    WriteElsewhere(d0, d1, d2, f0, room, offset, data, SectorsFor(end));
    ContentNow(d0, files, e);
    OneEdited(d0, l, files, e, f, dataEnd, Spliced(Bytes(d0, f0.start, f0.size), offset, data), d2);
    BelowMoved(l, files, e, false, f, dataEnd);
  }

  lemma {:induction false} OrdinaryIs(l: Layout, files: seq<Extent>, e: nat, offset: nat, n: nat)
    requires e < |files|
    ensures Ordinary(l, files, e, offset, n) <==>
      offset + n < LINK && Sums(l, files, Some(e), Need(files[e].size, offset, n))
  {
  }

  lemma {:induction false} EntryIs(start: nat, raw: nat)
    ensures Entry(start, raw).live && Entry(start, raw).start == start && Entry(start, raw).size < LINK
    ensures raw < LINK ==> Entry(start, raw) == Extent(true, false, start, raw)
    ensures raw >= LINK ==> Entry(start, raw).link
    ensures forall f: Extent {:trigger f.HasData()} :: f.HasData() <==> f.live && f.size > 0
  {
  }

  lemma {:induction false} NeedOf(size: nat, offset: nat, n: nat)
    requires n > 0 && offset + n < LINK && size < LINK
    ensures Need(size, offset, n) == SectorsFor(EndOf(size, offset, n)) && EndOf(size, offset, n) > 0
  {
    OrdinaryEnd(size, offset, n);
  }

  lemma {:induction false} WroteParts(d0: Disk, f: Extent, offset: nat, data: seq<nat>, room: nat, d1: Disk, d2: Disk)
    requires Wrote(d0, f, offset, data, room, d1, d2)
    ensures var have, need := SectorsFor(f.size), Sectors32(EndOf(f.size, offset, |data|));
      Shifted(d0, d1, f.start, room, have, GapTo(have, need, offset))
        && Progress(d1, d2, room, have, offset, data, Reached(offset, |data|))
  {
    hide SectorsFor, Sectors32, Shifted, Progress;
  }

  lemma {:induction false} FileParts(d0: Disk, l: Layout, files: seq<Extent>, e: nat, need: nat, room: nat)
    requires Sound(d0, l, files) && e < |files| && files[e].live && Given(l, files, Some(e), need, room)
    ensures Whole(d0) && room + need <= |d0| && room < U32 && Apart(l, files)
    ensures files[e].size > 0 ==>
      files[e].start + SectorsFor(files[e].size) <= |d0| && TailZero(d0, files[e].start, files[e].size)
  {
    hide TailZero, ClearOf, SectorsFor;
    assert files[e].size > 0 ==> files[e].HasData();
  }

  lemma {:induction false} ContentNow(d: Disk, files: seq<Extent>, e: nat)
    requires e < |files| && files[e].live
    ensures ContentOf(d, files, e) == Bytes(d, files[e].start, files[e].size)
  {
  }

  // ---- any other

  /** A write that is not ordinary leaves an entry that is a link, or too short, or not on the disk. */
  lemma {:induction false} WriteDoesNot(d0: Disk, l: Layout, files: seq<Extent>, e: nat, offset: nat, data: seq<nat>,
      room: nat, dataEnd: nat, d2: Disk)
    requires Sound(d0, l, files) && e < |files| && files[e].live && |data| > 0 && !Ordinary(l, files, e, offset, |data|)
    requires var need := Sectors32(EndOf(files[e].size, offset, |data|)); !Sums(l, files, Some(e), need) ==>
      room + need >= U32
    ensures var f := Entry(room, EndOf(files[e].size, offset, |data|));
      !Edited(d0, files, e, Spliced(ContentOf(d0, files, e), offset, data), false, d2, l.(dataEnd := dataEnd),
        files[e := f])
  {
    hide Apart, TailZero, Sums, Byte, Spliced, Bytes;
    var f := Entry(room, EndOf(files[e].size, offset, |data|));
    var files' := files[e := f];
    assert files'[e] == f;
    SplicedSize(ContentOf(d0, files, e), offset, data);
    SoundSizes(d0, l, files, e);
    if offset + |data| < LINK {
      OrdinaryEnd(files[e].size, offset, |data|);
      NeedOf(files[e].size, offset, |data|);
      hide SectorsFor, Sectors32, Need, EndOf;
      NotOnDisk(d2, l.(dataEnd := dataEnd), files', e);
    }
  }

  lemma {:induction false} NotOnDisk(d: Disk, l: Layout, files: seq<Extent>, e: nat)
    requires e < |files| && files[e].HasData() && files[e].End() >= U32
    ensures !Sound(d, l, files)
  {
  }

  /** A disk with nothing free but sectors 4 to 6: an empty file, and one in the last sector. */
  function Crowded(): (v: (Layout, seq<Extent>))
  {
    (Layout(2, 1, 3, 1, 8, 8), [Extent(true, false, 9, 0), Extent(true, false, 7, SECTOR)])
  }

  /**
   * There 600 bytes written into the empty file just below 4 GiB end, in 32 bits, at byte
   * 344: one sector is given, at 4, and everything after it is zeroed, the other file with it.
   */
  lemma {:induction false} FarWriteWipes(d0: Disk, d1: Disk, d2: Disk, data: seq<nat>)
    requires Whole(d0) && |d0| == 8 && |data| == 600
    ensures var (l, files) := Crowded(); var offset := 0xFFFF_FF00;
      && Apart(l, files) && Below(l, files) && EndOf(0, offset, 600) == 344 && !Ordinary(l, files, 0, offset, 600)
      && Chosen(l, files, Some(0), 1, 4, 8) && Sectors32(344) == 1
      && (Wrote(d0, files[0], offset, data, 4, d1, d2) ==> |d2| == 8 && d2[7] == Zeroes())
  {
    var (l, files) := Crowded();
    assert files[1].HasData() && files[1].End() == 8 && !files[0].HasData();
    assert ClearOf(l, files, Some(0), 4, 1);
    assert Given(l, files, Some(0), 1, 4);
    hide Zeroes, Target;
    if Wrote(d0, files[0], 0xFFFF_FF00, data, 4, d1, d2) {
      assert d1[7] == Carried(d0, 9, 4, 0, 7);
    }
  }

  // ---- a whole file

  /** The file being replaced, if there is one. */
  function Own(files: seq<Extent>, e: nat): (own: Option<nat>)
  {
    if e < |files| && files[e].live then Some(e) else None
  }

  /** The sectors counted for so many bytes, cut to 32 bits. */
  function Counted(n: nat): (count: nat)
  {
    Sectors32(n % U32)
  }

  /** The size field of so many bytes. */
  function RawSize(n: nat, link: bool): (raw: nat)
  {
    if link then LINK + n % LINK else n % U32
  }

  /** Fewer than 2^31 bytes, and no sector number on the way is past 32 bits. */
  predicate Plain(l: Layout, files: seq<Extent>, e: nat, n: nat)
  {
    n < LINK && Sums(l, files, Own(files, e), SectorsFor(n))
  }

  lemma {:induction false} PlainIs(n: nat, link: bool, start: nat)
    requires n < LINK
    ensures Counted(n) == SectorsFor(n) && n % U32 == n && Entry(start, RawSize(n, link))
      == Extent(true, link, start, n)
    ensures n > 0 <==> SectorsFor(n) > 0
    ensures n / SECTOR < SectorsFor(n) || n / SECTOR * SECTOR == n
  {
  }

  /** What goes to the disk: all of it, but for a part of a sector that no sector was counted for. */
  function PartOf(data: seq<nat>, count: nat): (part: seq<nat>)
  {
    if |data| / SECTOR < count then data else data[..|data| / SECTOR * SECTOR]
  }

  lemma {:induction false} StoreFits(d: Disk, l: Layout, files: seq<Extent>, e: nat, n: nat)
    requires Sound(d, l, files) && e < |files|
    ensures Counted(n) < U32 && Apart(l, files) && DATA_LBA <= l.dataEnd <= l.diskSectors < U32
    ensures Own(files, e).Some? ==> Own(files, e) == Some(e) && files[e].live && files[e].start < U32
    ensures Whole(d)
  {
  }

  lemma {:induction false} PlainRoom(d: Disk, l: Layout, files: seq<Extent>, e: nat, n: nat, start: nat, dataEnd: nat)
    requires Sound(d, l, files) && Below(l, files) && e < |files|
    requires Sums(l, files, Own(files, e), Counted(n)) ==> Chosen(l, files, Own(files, e), Counted(n), start, dataEnd)
    ensures Plain(l, files, e, n) ==> PlainGiven(l, files, e, n, start, dataEnd)
    ensures n > 0 && Plain(l, files, e, n) ==>
      && (start == 0 <==> forall s: nat :: !Given(l, files, Own(files, e), SectorsFor(n), s))
      && (start == 0 ==> Roomy(l, files, Own(files, e), SectorsFor(n)))
  {
    hide SectorsFor, Counted, Apart, Below, TailZero, PlainGiven;
    if Plain(l, files, e, n) {
      PlainIs(n, false, start);
      PlainRuns(d, l, files, e, n, start, dataEnd);
    }
  }

  /** Sectors for so many bytes were chosen, and are nobody else's. */
  ghost predicate PlainGiven(l: Layout, files: seq<Extent>, e: nat, n: nat, start: nat, dataEnd: nat)
  {
    && Chosen(l, files, Own(files, e), SectorsFor(n), start, dataEnd) && Counted(n) == SectorsFor(n)
    && l.dataEnd <= dataEnd <= l.diskSectors && start < U32
    && (n > 0 && start != 0 ==> Given(l, files, Some(e), SectorsFor(n), start))
  }

  lemma {:induction false} PlainRuns(d: Disk, l: Layout, files: seq<Extent>, e: nat, n: nat, start: nat, dataEnd: nat)
    requires Sound(d, l, files) && Below(l, files) && e < |files| && Plain(l, files, e, n)
    requires Sums(l, files, Own(files, e), Counted(n)) ==> Chosen(l, files, Own(files, e), Counted(n), start, dataEnd)
    ensures PlainGiven(l, files, e, n, start, dataEnd)
    ensures n > 0 ==>
      && (start == 0 <==> forall s: nat :: !Given(l, files, Own(files, e), SectorsFor(n), s))
      && (start == 0 ==> Roomy(l, files, Own(files, e), SectorsFor(n)))
  {
    PlainIs(n, false, start);
    if n > 0 {
      hide SectorsFor, Counted, Apart, Below, TailZero;
      ChosenGiven(l, files, Own(files, e), SectorsFor(n), start, dataEnd);
      if start != 0 { GivenFresh(l, files, e, SectorsFor(n), start); }
    } else {
      NoneNeeded(d, l, files, e, start, dataEnd);
    }
  }

  lemma {:induction false} NoneNeeded(d: Disk, l: Layout, files: seq<Extent>, e: nat, start: nat, dataEnd: nat)
    requires Sound(d, l, files) && e < |files| && Chosen(l, files, Own(files, e), 0, start, dataEnd)
    ensures dataEnd == l.dataEnd && start < U32
  {
    hide Apart, TailZero, SectorsFor, GapFound;
  }

  lemma {:induction false} GivenFresh(l: Layout, files: seq<Extent>, e: nat, count: nat, start: nat)
    requires Given(l, files, Own(files, e), count, start)
    ensures Given(l, files, Some(e), count, start)
  {
  }

  /** How a store ends, whatever it stored. */
  lemma {:induction false} StoreEnds(d0: Disk, l: Layout, files: seq<Extent>, e: nat, data: seq<nat>, link: bool,
      start: nat, dataEnd: nat, d: Disk)
    requires Sound(d0, l, files) && Below(l, files) && e < |files| && start != 0
    requires Plain(l, files, e, |data|) ==> PlainGiven(l, files, e, |data|, start, dataEnd)
    requires !Sums(l, files, Own(files, e), Counted(|data|)) ==> start + Counted(|data|) >= U32
    requires if data == [] then d == d0
      else var part := PartOf(data, Counted(|data|)); Progress(d0, d, start, 0, 0, part, Reached(0, |part|))
    ensures var f := Entry(start, RawSize(|data|, link));
      && (Edited(d0, files, e, data, link, d, l.(dataEnd := dataEnd), files[e := f]) <==> Plain(l, files, e, |data|))
      && (data != [] && Plain(l, files, e, |data|) ==>
          (Below(l.(dataEnd := dataEnd), files[e := f]) <==> Roomy(l, files, Own(files, e), SectorsFor(|data|))))
  {
    hide *;
    if Plain(l, files, e, |data|) {
      PlainParts(l, files, e, |data|, start, dataEnd);
      if data != [] { StoreEdits(d0, l, files, e, data, link, start, dataEnd, d); }
      else { StoreEmpties(d0, l, files, e, link, start, dataEnd); }
    } else {
      StoreFits(d0, l, files, e, |data|);
      StoreDoesNot(d0, l, files, e, data, link, start, dataEnd, d);
    }
  }

  lemma {:induction false} PlainParts(l: Layout, files: seq<Extent>, e: nat, n: nat, start: nat, dataEnd: nat)
    requires PlainGiven(l, files, e, n, start, dataEnd)
    ensures Chosen(l, files, Own(files, e), SectorsFor(n), start, dataEnd) && Counted(n) == SectorsFor(n)
    ensures l.dataEnd <= dataEnd <= l.diskSectors && start < U32
    ensures n > 0 && start != 0 ==> Given(l, files, Some(e), SectorsFor(n), start)
  {
    hide Chosen, Given, SectorsFor, Counted;
  }

  lemma {:induction false} StoreEdits(d0: Disk, l: Layout, files: seq<Extent>, e: nat, data: seq<nat>, link: bool,
      start: nat, dataEnd: nat, d: Disk)
    requires Sound(d0, l, files) && Below(l, files) && e < |files| && |data| > 0 && Plain(l, files, e, |data|)
      && start != 0
    requires Chosen(l, files, Own(files, e), SectorsFor(|data|), start, dataEnd)
      && l.dataEnd <= dataEnd <= l.diskSectors && start < U32
    requires Given(l, files, Some(e), SectorsFor(|data|), start)
    requires var part := PartOf(data, SectorsFor(|data|)); Progress(d0, d, start, 0, 0, part, Reached(0, |part|))
    ensures var f := Entry(start, RawSize(|data|, link));
      && Edited(d0, files, e, data, link, d, l.(dataEnd := dataEnd), files[e := f])
      && (Below(l.(dataEnd := dataEnd), files[e := f]) <==> Roomy(l, files, Own(files, e), SectorsFor(|data|)))
  {
    hide *;
    PlainLess(l, files, e, |data|);
    PlainIs(|data|, link, start);
    EntryIs(start, |data|);
    var f := Extent(true, link, start, |data|);
    WholeData(data);
    FreshParts(d0, l, files, e, SectorsFor(|data|), start);
    StoredBytes(d0, d, start, data);
    OneEdited(d0, l, files, e, f, dataEnd, data, d);
    OwnIs(files, e);
    BelowMoved(l, files, e, !files[e].live, f, dataEnd);
  }

  lemma {:induction false} PlainLess(l: Layout, files: seq<Extent>, e: nat, n: nat)
    requires Plain(l, files, e, n)
    ensures n < LINK && Sums(l, files, Own(files, e), SectorsFor(n))
  {
  }

  lemma {:induction false} OwnIs(files: seq<Extent>, e: nat)
    requires e < |files|
    ensures Own(files, e) == if !files[e].live then None else Some(e)
  {
  }

  lemma {:induction false} WholeData(data: seq<nat>)
    ensures PartOf(data, SectorsFor(|data|)) == data
  {
    PlainIsWhole(|data|);
  }

  lemma {:induction false} PlainIsWhole(n: nat)
    ensures n / SECTOR < SectorsFor(n) || n / SECTOR * SECTOR == n
  {
  }

  lemma {:induction false} FreshParts(d0: Disk, l: Layout, files: seq<Extent>, e: nat, count: nat, start: nat)
    requires Sound(d0, l, files) && Given(l, files, Some(e), count, start)
    ensures Whole(d0) && start + count <= |d0| && Apart(l, files)
  {
  }

  lemma {:induction false} StoredBytes(d0: Disk, d: Disk, start: nat, data: seq<nat>)
    requires Whole(d0) && |data| > 0 && start + SectorsFor(|data|) <= |d0|
      && Progress(d0, d, start, 0, 0, data, Reached(0, |data|))
    ensures Bytes(d, start, |data|) == data && TailZero(d, start, |data|) && Whole(d)
    ensures Elsewhere(d0, d, start, start + SectorsFor(|data|))
  {
    var s := Spliced(Bytes(d0, start, 0), 0, data);
    assert s == data;
    forall k | 0 <= k < SectorsFor(|data|) * SECTOR ensures Byte(d, start, k) == if k < |data| then data[k] else 0 {
      FinalByte(d0, d0, d, start, start, 0, 0, data, k);
    }
  }

  lemma {:induction false} StoreEmpties(d0: Disk, l: Layout, files: seq<Extent>, e: nat, link: bool, start: nat,
      dataEnd: nat)
    requires Sound(d0, l, files) && e < |files| && start < U32 && l.dataEnd <= dataEnd <= l.diskSectors
    ensures Edited(d0, files, e, [], link, d0, l.(dataEnd := dataEnd), files[e := Entry(start, RawSize(0, link))])
  {
    var f := Extent(true, link, start, 0);
    PlainIs(0, link, start);
    ApartMoved(l, files, e, f, dataEnd);
    hide Apart, TailZero, Byte, SectorsFor, RawSize, Entry;
    var files' := files[e := f];
    assert files'[e] == f;
    assert forall i: nat :: i < |files| && i != e ==> files'[i] == files[i];
  }

  lemma {:induction false} StoreDoesNot(d0: Disk, l: Layout, files: seq<Extent>, e: nat, data: seq<nat>, link: bool,
      start: nat, dataEnd: nat, d: Disk)
    requires e < |files| && !Plain(l, files, e, |data|)
    requires !Sums(l, files, Own(files, e), Counted(|data|)) ==> start + Counted(|data|) >= U32
    requires l.dataEnd < U32
    ensures !Edited(d0, files, e, data, link, d, l.(dataEnd := dataEnd),
      files[e := Entry(start, RawSize(|data|, link))])
  {
    var f := Entry(start, RawSize(|data|, link));
    var files' := files[e := f];
    assert files'[e] == f;
    hide Apart, TailZero, Byte;
    if |data| < LINK {
      PlainIs(|data|, link, start);
      hide SectorsFor, Counted;
      NotOnDisk(d, l.(dataEnd := dataEnd), files', e);
    } else {
      hide Sums, Counted, SectorsFor;
      TooLong(|data|, link, start);
    }
  }

  lemma {:induction false} TooLong(n: nat, link: bool, start: nat)
    requires n >= LINK
    ensures Entry(start, RawSize(n, link)).size != n
  {
  }
}
