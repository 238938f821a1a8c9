/**
 * Address spaces as their programs see them: every page a space has is its own
 * copy, unless it is a window onto memory shared on purpose or a device. Fork
 * copies everything at once. This is the simple machine that copy-on-write has
 * to look like.
 */
module Spaces {
  import Base
  import Share
  import R = ShareRuns

  type Space = nat
  type Page = nat
  type Frame = nat
  type Bytes = seq<nat>
  type Place = (Space, Page)
  type FilePage = (nat, nat)

  const PAGE_BYTES: nat := 4096

  function Zero(): (b: Bytes)
    ensures |b| == PAGE_BYTES
  {
    seq(PAGE_BYTES, _ => 0)
  }

  /** One byte changed, if it is one of b's. */
  function Poke(b: Bytes, at: nat, byte: nat): (r: Bytes)
    ensures |r| == |b|
  {
    if at < |b| then b[at := byte] else b
  }

  datatype Cell = Own(bytes: Bytes) | Window(frame: Frame) | Device(frame: Frame)

  datatype Sight = Sight(
    cells: map<Place, Cell>,            // what each space has at each page
    common: map<Frame, Bytes>,          // memory shared on purpose
    memory: map<FilePage, Frame>,       // the pages of memory files, which are such memory
    disk: map<FilePage, Bytes>,         // the pages of files on the disk
    live: set<Space>)

  /** What programs ask for, and the kernel does for them. */
  datatype Event =
    | Touch(space: Space, page: Page)
    | Store(space: Space, page: Page, at: nat, byte: nat)
    | MapFile(space: Space, page: Page, file: FilePage)
    | MapMemory(space: Space, page: Page, file: FilePage)
    | MapDevice(space: Space, page: Page, frame: Frame)
    | Release(space: Space, first: Page, last: Page)
    | Discard(space: Space, first: Page, last: Page)
    | New(space: Space)
    | Fork(space: Space, child: Space)
    | Exit(space: Space)
    | MemoryNew(file: FilePage)
    | MemoryStore(file: FilePage, at: nat, byte: nat)
    | MemoryClose(id: nat)
    | DiskWritten(lba: nat, count: nat, now: map<FilePage, Bytes>)

  /** Somebody has frame f: a space, through a window, or a memory file. */
  ghost predicate Had(a: Sight, f: Frame)
  {
    (exists k :: k in a.cells && a.cells[k] == Window(f)) || (exists m :: m in a.memory && a.memory[m] == f)
  }

  /** Memory shared on purpose is exactly what windows and memory files lead to; only live spaces have pages. */
  ghost predicate Settled(a: Sight)
  {
    && (forall k :: k in a.cells ==> k.0 in a.live)
    && (forall k :: k in a.cells && a.cells[k].Window? ==> a.cells[k].frame in a.common)
    && (forall m :: m in a.memory ==> a.memory[m] in a.common)
    && (forall f :: f in a.common ==> Had(a, f))
  }

  /** The cells are now these, and memory shared on purpose what was there and somebody still has. */
  ghost predicate Becomes(a: Sight, cells: map<Place, Cell>, a': Sight)
  {
    && a'.cells == cells
    && a'.memory == a.memory && a'.disk == a.disk && a'.live == a.live
    && (forall f :: f in a'.common ==> f in a.common && a'.common[f] == a.common[f])
    && Settled(a')
  }

  /** A page touched for writing: a new one is zeroes, one shared on purpose becomes a copy. */
  ghost function Touched(a: Sight, k: Place): map<Place, Cell>
  {
    if k !in a.cells then a.cells[k := Own(Zero())]
    else if a.cells[k].Window? && a.cells[k].frame in a.common then a.cells[k := Own(a.common[a.cells[k].frame])]
    else a.cells
  }

  ghost function CommonPoked(a: Sight, f: Frame, at: nat, byte: nat): Sight
  {
    if f in a.common then a.(common := a.common[f := Poke(a.common[f], at, byte)]) else a
  }

  /** A byte stored; a page that was not there is zeroes but for it. */
  ghost function Stored(a: Sight, k: Place, at: nat, byte: nat): Sight
  {
    if k !in a.cells then a.(cells := a.cells[k := Own(Poke(Zero(), at, byte))])
    else match a.cells[k]
         case Own(b) => a.(cells := a.cells[k := Own(Poke(b, at, byte))])
         case Window(f) => CommonPoked(a, f, at, byte)
         case Device(_) => a
  }

  /** What there is at k, at to as well. */
  ghost function Copied(a: Sight, k: Place, to: Place): Sight
  {
    if k in a.cells then a.(cells := a.cells[to := a.cells[k]]) else a
  }

  ghost function Copies(cells: map<Place, Cell>, s: Space, c: Space): map<Place, Cell>
  {
    map k | k in (set j | j in cells && j.0 == s :: (c, j.1)) && (s, k.1) in cells :: cells[(s, k.1)]
  }

  ghost predicate In(k: Place, s: Space, first: Page, last: Page)
  {
    k.0 == s && first <= k.1 < last
  }

  /** Whose pages an event may change. */
  ghost function Actor(e: Event): set<Space>
  {
    match e
    case Fork(_, c) => {c}
    case MemoryNew(_) => {}
    case MemoryStore(_, _, _) => {}
    case MemoryClose(_) => {}
    case DiskWritten(_, _, _) => {}
    case _ => {e.space}
  }

  /** The first sector of a file page. */
  function FirstSector(m: FilePage): (q: nat)
  {
    m.0 + m.1 * Share.SECTORS
  }

  /** File pages are whole pages, and start at a sector that 32 bits can number. */
  predicate FilePages(disk: map<FilePage, Bytes>)
  {
    forall m :: m in disk ==> |disk[m]| == PAGE_BYTES && FirstSector(m) < Base.U32
  }

  /** Only what the sectors lba .. lba + count hold reads differently. */
  predicate OnlyThere(disk: map<FilePage, Bytes>, lba: nat, count: nat, now: map<FilePage, Bytes>)
  {
    forall m :: m in disk && !R.Touching(FirstSector(m), lba, count) ==> m in now && now[m] == disk[m]
  }

  /** No file page's test wraps. */
  predicate NoneWrap(disk: map<FilePage, Bytes>, lba: nat, count: nat)
  {
    forall m :: m in disk ==> !R.Wraps(FirstSector(m), lba, count)
  }

  /** One event: whatever needs memory, or a space or file that is not there, may change nothing. */
  ghost predicate Next(a: Sight, e: Event, a': Sight)
  {
    a' == a || Effect(a, e, a')
  }

  lemma {:induction false} SelfNext(a: Sight, e: Event)
    ensures Next(a, e, a)
  {
    hide Effect;
  }

  lemma {:induction false} EffectNext(a: Sight, e: Event, a': Sight)
    ensures Effect(a, e, a') ==> Next(a, e, a')
  {
    hide Effect;
  }

  ghost predicate Effect(a: Sight, e: Event, a': Sight)
  {
    match e
    case Touch(s, p) => Becomes(a, Touched(a, (s, p)), a')
    case Store(s, p, at, byte) => a' == Stored(a, (s, p), at, byte)
    case MapFile(s, p, m) =>
      (s, p) !in a.cells && m in a.disk && a' == a.(cells := a.cells[(s, p) := Own(a.disk[m])])
    case MapMemory(s, p, m) =>
      (s, p) !in a.cells && m in a.memory && a' == a.(cells := a.cells[(s, p) := Window(a.memory[m])])
    case MapDevice(s, p, f) => Becomes(a, a.cells[(s, p) := Device(f)], a')
    case Release(s, first, last) =>
      Becomes(a, map k | k in a.cells && !In(k, s, first, last) :: a.cells[k], a')
    case Discard(s, first, last) =>
      && Becomes(a, a'.cells, a') && a'.cells.Keys <= a.cells.Keys
      && (forall k :: k in a'.cells ==> a'.cells[k] == a.cells[k])
      && (forall k :: k in a.cells && k !in a'.cells ==> In(k, s, first, last) && a.cells[k].Own?)
    case New(s) => s !in a.live && a' == a.(live := a.live + {s})
    case Fork(s, c) =>
      c !in a.live && a' == a.(live := a.live + {c}, cells := a.cells + Copies(a.cells, s, c))
    case Exit(s) =>
      Becomes(a.(live := a.live - {s}), map k | k in a.cells && k.0 != s :: a.cells[k], a')
    case MemoryNew(m) =>
      && m !in a.memory
      && exists f: Frame :: f !in a.common && a' == a.(common := a.common[f := Zero()], memory := a.memory[m := f])
    case MemoryStore(m, at, byte) => a' == if m in a.memory then CommonPoked(a, a.memory[m], at, byte) else a
    case MemoryClose(id) => Becomes(a.(memory := map m | m in a.memory && m.0 != id :: a.memory[m]), a.cells, a')
    case DiskWritten(lba, count, now) => a' == a.(disk := now)
  }

  /** A page let go of and another put in its place. */
  lemma {:induction false} Replaced(a: Sight, k: Place, b: Sight, cell: Cell, c: Sight)
    requires Becomes(a, a.cells - {k}, b) && c == b.(cells := b.cells[k := cell]) && Settled(c)
    ensures Becomes(a, a.cells[k := cell], c)
  {
    hide Settled;
    assert (a.cells - {k})[k := cell] == a.cells[k := cell];
  }

  /** With the cells and memory files as they were, so is everything. */
  lemma {:induction false} BecomesItself(a: Sight, a': Sight)
    requires Settled(a) && Becomes(a, a.cells, a')
    ensures a' == a
  {
    forall f | f in a.common ensures f in a'.common { assert Had(a, f); }
    assert a'.common == a.common;
  }

  lemma {:induction false} Unchanged(a: Sight)
    requires Settled(a)
    ensures Becomes(a, a.cells, a)
  {
  }

  /** A page made and then stored to is one store. */
  lemma {:induction false} MadeThenStored(a: Sight, k: Place, b: Sight, at: nat, byte: nat)
    requires Settled(a) && Becomes(a, Touched(a, k), b)
    requires k in a.cells ==> !a.cells[k].Window?
    ensures Stored(b, k, at, byte) == Stored(a, k, at, byte)
  {
    hide Zero, Poke;
    if k in a.cells {
      hide Settled;
      BecomesItself(a, b);
    } else {
      forall f | f in a.common ensures f in b.common {
        assert Had(a, f);
        HadStill(a, k, f, b);
      }
      assert b.common == a.common;
    }
  }

  lemma {:induction false} HadStill(a: Sight, k: Place, f: Frame, b: Sight)
    requires Had(a, f) && k !in a.cells && b.cells == a.cells[k := Own(Zero())] && b.memory == a.memory && Settled(b)
    ensures f in b.common
  {
    hide Zero;
    if j :| j in a.cells && a.cells[j] == Window(f) { assert b.cells[j] == Window(f); }
  }

  lemma {:induction false} CellsAre(a: Sight, cells: map<Place, Cell>, b: Sight)
    requires Becomes(a, cells, b)
    ensures b.cells == cells
  {
  }

  lemma {:induction false} MemoryThen(a: Sight, was: map<FilePage, Frame>, b: Sight, now: map<FilePage, Frame>,
      c: Sight)
    requires Becomes(a.(memory := was), a.cells, b) && Becomes(b.(memory := now), b.cells, c)
    ensures Becomes(a.(memory := now), a.cells, c)
  {
    hide Settled;
  }

  lemma {:induction false} BecomesThen(a: Sight, b: Sight, cells: map<Place, Cell>, c: Sight)
    requires Becomes(a, b.cells, b) && Becomes(b, cells, c)
    ensures Becomes(a, cells, c)
  {
    hide Settled;
  }

  // ---- isolation

  /** What one space has, whoever else has what. */
  ghost function Only(a: Sight, t: Space): map<Place, Cell>
  {
    map k | k in a.cells && k.0 == t :: a.cells[k]
  }

  lemma {:induction false} NextLeaves(a: Sight, e: Event, a': Sight, k: Place)
    requires Settled(a) && Next(a, e, a') && k.0 !in Actor(e) && k.0 in a.live
    ensures k.0 in a'.live && (k in a'.cells <==> k in a.cells) && (k in a.cells ==> a'.cells[k] == a.cells[k])
  {
    hide Settled, Effect;
    if a' != a {
      if e.Store? { StoreLeaves(a, e, a', k); } else if e.Fork? { ForkLeaves(a, e, a', k); }
        else { OtherLeaves(a, e, a', k); }
    }
  }

  /** a' has at k what a has. */
  ghost predicate Leaves(a: Sight, a': Sight, k: Place)
  {
    a'.live == a.live && (k in a'.cells <==> k in a.cells) && (k in a.cells ==> a'.cells[k] == a.cells[k])
  }

  lemma {:induction false} StoredLeaves(a: Sight, j: Place, at: nat, byte: nat, k: Place)
    requires k != j
    ensures Leaves(a, Stored(a, j, at, byte), k)
  {
    hide Poke;
  }

  lemma {:induction false} StoreLeaves(a: Sight, e: Event, a': Sight, k: Place)
    requires e.Store? && Effect(a, e, a') && k.0 !in Actor(e)
    ensures Leaves(a, a', k)
  {
    hide Stored;
    StoredLeaves(a, (e.space, e.page), e.at, e.byte, k);
  }

  lemma {:induction false} ForkLeaves(a: Sight, e: Event, a': Sight, k: Place)
    requires e.Fork? && Effect(a, e, a') && k.0 !in Actor(e) && k.0 in a.live
    ensures k.0 in a'.live && (k in a'.cells <==> k in a.cells) && (k in a.cells ==> a'.cells[k] == a.cells[k])
  {
    assert k !in Copies(a.cells, e.space, e.child);
  }

  lemma {:induction false} OtherLeaves(a: Sight, e: Event, a': Sight, k: Place)
    requires !e.Store? && !e.Fork? && Effect(a, e, a') && k.0 !in Actor(e) && k.0 in a.live
    ensures k.0 in a'.live && (k in a'.cells <==> k in a.cells) && (k in a.cells ==> a'.cells[k] == a.cells[k])
  {
    hide Settled, Poke, Zero, Had, Share.Overlaps;
  }

  /** An event leaves every other space's pages exactly as they were. */
  lemma {:induction false} NextIsolates(a: Sight, e: Event, a': Sight, t: Space)
    requires Settled(a) && Next(a, e, a') && t !in Actor(e) && t in a.live
    ensures Only(a', t) == Only(a, t) && t in a'.live
  {
    hide Next, Settled;
    NextLeaves(a, e, a', (t, 0));
    forall k: Place | k.0 == t
      ensures (k in a'.cells <==> k in a.cells) && (k in a.cells ==> a'.cells[k] == a.cells[k])
    {
      NextLeaves(a, e, a', k);
    }
  }

  /** Fork gives the child everything the parent has, at the same pages, and nothing else; the parent keeps it all. */
  lemma {:induction false} ForkCopies(a: Sight, s: Space, c: Space, a': Sight, p: Page)
    requires Settled(a) && Next(a, Fork(s, c), a') && c !in a.live && c in a'.live && s in a.live
    ensures (c, p) in a'.cells <==> (s, p) in a.cells
    ensures (s, p) in a'.cells <==> (s, p) in a.cells
    ensures (s, p) in a.cells ==> a'.cells[(c, p)] == a.cells[(s, p)] == a'.cells[(s, p)]
  {
    if (s, p) in a.cells { assert (c, p) in Copies(a.cells, s, c); }
  }

  /** A run: the sights it went through, and the events between them. */
  ghost predicate Run(seen: seq<Sight>, events: seq<Event>)
  {
    && |seen| == |events| + 1
    && (forall i :: 0 <= i < |events| ==> Next(seen[i], events[i], seen[i + 1]))
    && (forall i :: 0 <= i < |seen| ==> Settled(seen[i]))
  }

  /** However long a run, a space that does nothing in it has what it had before. */
  lemma {:induction false} RunIsolates(seen: seq<Sight>, events: seq<Event>, t: Space)
    requires Run(seen, events) && t in seen[0].live
    requires forall i :: 0 <= i < |events| ==> t !in Actor(events[i])
    ensures Only(seen[|events|], t) == Only(seen[0], t)
    decreases |events|
  {
    if |events| > 0 {
      NextIsolates(seen[0], events[0], seen[1], t);
      RunTail(seen, events);
      RunIsolates(seen[1..], events[1..], t);
    }
  }

  lemma {:induction false} RunTail(seen: seq<Sight>, events: seq<Event>)
    requires Run(seen, events) && |events| > 0
    ensures Run(seen[1..], events[1..])
  {
    forall i | 0 <= i < |events[1..]| ensures Next(seen[1..][i], events[1..][i], seen[1..][i + 1]) {
      assert Next(seen[i + 1], events[i + 1], seen[i + 2]);
    }
  }

  // ---- what is read after a store

  /** Byte i of what there is at k; nothing is read from a device, or where nothing is. */
  ghost function Shown(a: Sight, k: Place, i: nat): Base.Option<nat>
  {
    if k !in a.cells then Base.None
    else match a.cells[k]
         case Own(b) => if i < |b| then Base.Some(b[i]) else Base.None
         case Window(f) => CommonShown(a, f, i)
         case Device(_) => Base.None
  }

  ghost function CommonShown(a: Sight, f: Frame, i: nat): Base.Option<nat>
  {
    if f in a.common && i < |a.common[f]| then Base.Some(a.common[f][i]) else Base.None
  }

  /** Every page is a page long. */
  ghost predicate Sized(a: Sight)
  {
    && (forall k :: k in a.cells && a.cells[k].Own? ==> |a.cells[k].bytes| == PAGE_BYTES)
    && (forall f :: f in a.common ==> |a.common[f]| == PAGE_BYTES)
  }

  /**
   * Whatever is read at k afterwards is what was read before, or zeroes where nothing was, but for the
   * byte stored. A window stays the window it was, and a device stays.
   */
  ghost predicate Lands(a: Sight, k: Place, at: nat, byte: nat, a': Sight)
  {
    && k in a'.cells
    && (k in a.cells && !a.cells[k].Own? ==> a'.cells[k] == a.cells[k])
    && (k in a.cells && a.cells[k].Device? ==> a' == a)
    && (!(k in a.cells && a.cells[k].Device?) ==>
        forall i: nat :: i < PAGE_BYTES ==>
          Shown(a', k, i) == if i == at then Base.Some(byte) else if k in a.cells then Shown(a, k, i) else Base.Some(0))
  }

  lemma {:induction false} StoreIs(a: Sight, k: Place, at: nat, byte: nat, a': Sight)
    ensures Effect(a, Store(k.0, k.1, at, byte), a') <==> a' == Stored(a, k, at, byte)
  {
    hide Stored;
  }

  /** A store that is done lands. */
  lemma {:induction false} StoreLands(a: Sight, k: Place, at: nat, byte: nat, a': Sight)
    requires Settled(a) && Sized(a) && Effect(a, Store(k.0, k.1, at, byte), a')
    ensures Lands(a, k, at, byte, a')
  {
    hide Had;
  }

  /** Byte at of memory f is now byte, to every window on it and to memory files; all else is as it was. */
  ghost predicate SeenByAll(a: Sight, f: Frame, at: nat, byte: nat, a': Sight)
  {
    && a'.cells == a.cells && a'.memory == a.memory && a'.disk == a.disk && a'.live == a.live
    && (forall i: nat :: i < PAGE_BYTES ==>
          CommonShown(a', f, i) == if i == at then Base.Some(byte) else CommonShown(a, f, i))
    && forall g, i: nat :: g != f ==> CommonShown(a', g, i) == CommonShown(a, g, i)
  }

  /** A store through a window is everybody's, and makes no copy. */
  lemma {:induction false} WindowStore(a: Sight, k: Place, at: nat, byte: nat, a': Sight)
    requires Settled(a) && Sized(a) && Effect(a, Store(k.0, k.1, at, byte), a') && k in a.cells && a.cells[k].Window?
    ensures SeenByAll(a, a.cells[k].frame, at, byte, a')
  {
    hide Had;
  }

  /** So is one to a memory file. */
  lemma {:induction false} FileStore(a: Sight, m: FilePage, at: nat, byte: nat, a': Sight)
    requires Settled(a) && Sized(a) && Effect(a, MemoryStore(m, at, byte), a') && m in a.memory
    ensures SeenByAll(a, a.memory[m], at, byte, a')
  {
    hide Had;
  }

  /** The event takes away, copies or covers the page at k. */
  ghost predicate Tears(e: Event, k: Place)
  {
    match e
    case Touch(s, p) => k == (s, p)
    case MapDevice(s, p, _) => k == (s, p)
    case Release(s, first, last) => In(k, s, first, last)
    case Exit(s) => k.0 == s
    case _ => false
  }

  lemma {:induction false} NextKeepsWindow(a: Sight, e: Event, a': Sight, k: Place)
    requires Settled(a) && Next(a, e, a') && k in a.cells && a.cells[k].Window? && !Tears(e, k)
    ensures k in a'.cells && a'.cells[k] == a.cells[k]
  {
    hide Had, Poke, Zero, OnlyThere;
  }

  /** Every page of a memory file that is memory f has this byte. */
  ghost predicate FilesShow(a: Sight, f: Frame, at: nat, byte: nat)
  {
    forall m :: m in a.memory && a.memory[m] == f ==> CommonShown(a, a.memory[m], at) == Base.Some(byte)
  }

  /** A window nobody tears is the window it was, however long a run. */
  lemma {:induction false} WindowStays(seen: seq<Sight>, events: seq<Event>, k: Place, first: nat, n: nat)
    requires Run(seen, events) && first <= n <= |events| && k in seen[first].cells && seen[first].cells[k].Window?
    requires forall i :: first <= i < n ==> !Tears(events[i], k)
    ensures k in seen[n].cells && seen[n].cells[k] == seen[first].cells[k]
    decreases n
  {
    hide Settled, Next, Tears;
    if n > first {
      WindowStays(seen, events, k, first, n - 1);
      NextKeepsWindow(seen[n - 1], events[n - 1], seen[n], k);
    }
  }

  /**
   * Memory shared on purpose stays shared through a fork: from then on, a store by parent or child
   * is read by both, and in the memory file.
   */
  lemma {:induction false} ForkShares(seen: seq<Sight>, events: seq<Event>, s: Space, c: Space, p: Page, n: nat,
      f: Frame, w: Space, at: nat, byte: nat)
    requires Run(seen, events) && 0 < n < |events| && Sized(seen[n]) && at < PAGE_BYTES
    requires events[0] == Fork(s, c) && s in seen[0].live && c !in seen[0].live && c in seen[1].live
    requires (s, p) in seen[0].cells && seen[0].cells[(s, p)] == Window(f)
    requires forall i :: 0 < i < n ==> !Tears(events[i], (s, p)) && !Tears(events[i], (c, p))
    requires w in {s, c} && events[n] == Store(w, p, at, byte) && Effect(seen[n], events[n], seen[n + 1])
    ensures Shown(seen[n + 1], (s, p), at) == Shown(seen[n + 1], (c, p), at) == Base.Some(byte)
    ensures FilesShow(seen[n + 1], f, at, byte)
  {
    hide Settled, Effect, Tears, CommonShown;
    ForkCopies(seen[0], s, c, seen[1], p);
    hide Next;
    WindowStays(seen, events, (s, p), 1, n);
    WindowStays(seen, events, (c, p), 1, n);
    WindowStore(seen[n], (w, p), at, byte, seen[n + 1]);
  }
}
