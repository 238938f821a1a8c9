/**
 * Address spaces over counted page frames (src/kernel/vm.c), as values: every
 * space's page tables, the frames behind them, and the elementary moves of a
 * frame between the page allocator, one space and the shared-page table.
 */
module Frames {
  import opened Base
  import opened Share

  type Space = nat
  type Page = nat
  type Frame = nat
  type Bytes = seq<nat>

  /** A present page-table entry: PRESENT and USER are always set. */
  datatype Pte = Pte(frame: Frame, write: bool, shared: bool, device: bool)

  /** The tables under a space's slot: its top one, and the two levels the walk makes. */
  datatype Table = Root | Mid(i: nat) | Leaf(j: nat)

  /** Who answers for a frame of memory. */
  datatype Owner = Unused | Counted | Mapped(at: (Space, Page)) | Tabled(table: (Space, Table))

  datatype State = State(
    ptes: map<(Space, Page), Pte>,
    tables: map<(Space, Table), Frame>,
    live: set<Space>,
    files: map<(nat, nat), Frame>,        // pages of memory files, by file and index
    bytes: map<Frame, Bytes>,
    tracked: Model,                       // the shared-page table
    owner: map<Frame, Owner>,
    common: set<Frame>,                   // counted frames shared on purpose
    source: map<(nat, nat), Bytes>)       // what each file page holds on the disk

  predicate Private(e: Pte)
  {
    !e.shared && !e.device
  }

  // ---- counting holders

  ghost function Mappers(ptes: map<(Space, Page), Pte>, f: Frame): set<(Space, Page)>
  {
    set k | k in ptes && ptes[k].shared && ptes[k].frame == f
  }

  ghost function Keepers(files: map<(nat, nat), Frame>, f: Frame): set<(nat, nat)>
  {
    set k | k in files && files[k] == f
  }

  ghost function Holders(s: State, f: Frame): nat
  {
    |Mappers(s.ptes, f)| + |Keepers(s.files, f)|
  }

  // ---- the invariant

  /** Exact counts: a counted frame's refs are its shared entries plus its memory-file places. */
  ghost predicate Exact(s: State)
  {
    && (forall f :: f in s.tracked ==> s.tracked[f].refs == Holders(s, f) > 0)
    && (forall k :: k in s.ptes && s.ptes[k].shared ==> s.ptes[k].frame in s.tracked)
    && (forall k :: k in s.files ==> s.files[k] in s.tracked)
  }

  /** Every frame of memory has exactly one owner, and every owner has its frame. */
  ghost predicate Owned(s: State)
  {
    && (forall f :: f in s.bytes <==> f in s.owner)
    && (forall f :: f in s.tracked <==> f in s.owner && s.owner[f] == Counted)
    && PagesOwned(s) && TablesOwned(s)
  }

  ghost predicate PagesOwned(s: State)
  {
    && (forall k :: k in s.ptes && Private(s.ptes[k]) ==>
          s.ptes[k].frame in s.owner && s.owner[s.ptes[k].frame] == Mapped(k))
    && (forall f :: f in s.owner && s.owner[f].Mapped? ==>
          var k := s.owner[f].at; k in s.ptes && Private(s.ptes[k]) && s.ptes[k].frame == f)
    && (forall k :: k in s.ptes && s.ptes[k].device ==> s.ptes[k].frame !in s.owner)
  }

  ghost predicate TablesOwned(s: State)
  {
    && (forall t :: t in s.tables ==> s.tables[t] in s.owner && s.owner[s.tables[t]] == Tabled(t))
    && (forall f :: f in s.owner && s.owner[f].Tabled? ==>
          s.owner[f].table in s.tables && s.tables[s.owner[f].table] == f)
  }

  /** What the flags of an entry promise, and that its space is there to hold it. */
  ghost predicate Flagged(s: State)
  {
    && (forall k :: k in s.ptes && s.ptes[k].shared ==> !s.ptes[k].device)
    && (forall k :: k in s.ptes && !s.ptes[k].shared ==> s.ptes[k].write)
    && (forall k :: k in s.ptes && s.ptes[k].shared ==> (s.ptes[k].write <==> s.ptes[k].frame in s.common))
    && (forall f :: f in s.common ==> f in s.tracked && s.tracked[f].key.None?)
    && (forall k :: k in s.files ==> s.files[k] in s.common)
    && (forall f :: f in s.tracked && s.tracked[f].key.Some? ==>
          s.tracked[f].key.value in s.source && f in s.bytes && s.bytes[f] == s.source[s.tracked[f].key.value])
  }

  /** Every mapped page is under tables of its own space, and only live spaces have any. */
  ghost predicate Walkable(s: State)
  {
    && (forall k :: k in s.ptes ==> (k.0, Leaf(k.1 / 512)) in s.tables)
    && (forall t :: t in s.tables ==> t.0 in s.live)
    && (forall t :: t in s.tables && t.1.Leaf? ==> (t.0, Mid(t.1.j / 512)) in s.tables)
    && (forall t :: t in s.tables && t.1.Mid? ==> (t.0, Root) in s.tables)
    && (forall a :: a in s.live ==> (a, Root) in s.tables)
  }

  ghost predicate Inv(s: State)
  {
    Exact(s) && Owned(s) && Flagged(s) && Walkable(s)
  }

  // ---- the elementary moves

  /** A frame let go of by one of its holders: unused once it was the last. */
  ghost function LetGo(s: State, f: Frame): State
    requires f in s.tracked
  {
    if s.tracked[f].refs == 1
    then s.(tracked := s.tracked - {f}, owner := s.owner[f := Unused], common := s.common - {f})
    else s.(tracked := Dropped(s.tracked, f))
  }

  /** An unused frame holding b mapped at k, for k's space alone. */
  ghost function Give(s: State, k: (Space, Page), f: Frame, b: Bytes): State
  {
    s.(ptes := s.ptes[k := Pte(f, true, false, false)], bytes := s.bytes[f := b], owner := s.owner[f := Mapped(k)])
  }

  /** The entry at k gone, and its page let go of. */
  ghost function Unmap(s: State, k: (Space, Page)): State
    requires k in s.ptes && (s.ptes[k].shared ==> s.ptes[k].frame in s.tracked)
  {
    var s' := s.(ptes := s.ptes - {k});
    if s.ptes[k].device then s'
    else if s.ptes[k].shared then LetGo(s', s.ptes[k].frame)
    else s'.(owner := s.owner[s.ptes[k].frame := Unused])
  }

  /** A space's own page at k handed to the shared-page table, with k its only holder. */
  ghost function Adopt(s: State, k: (Space, Page)): State
    requires k in s.ptes
  {
    var f := s.ptes[k].frame;
    s.(ptes := s.ptes[k := Pte(f, false, true, false)],
       tracked := s.tracked[f := Tracked(1, None)], owner := s.owner[f := Counted])
  }

  /** The page of a lone holder back from the shared-page table, to write in. */
  ghost function TakeBack(s: State, k: (Space, Page)): State
    requires k in s.ptes
  {
    var f := s.ptes[k].frame;
    s.(ptes := s.ptes[k := Pte(f, true, false, false)],
       tracked := s.tracked - {f}, owner := s.owner[f := Mapped(k)], common := s.common - {f})
  }

  /** A counted frame mapped at k too. */
  ghost function Join(s: State, k: (Space, Page), f: Frame, write: bool): State
    requires f in s.tracked
  {
    s.(ptes := s.ptes[k := Pte(f, write, true, false)], tracked := Recount(s.tracked, f, s.tracked[f].refs + 1))
  }

  /** An unused frame filled with file page key, counted and mapped at k. */
  ghost function Import(s: State, k: (Space, Page), f: Frame, key: (nat, nat), b: Bytes): State
  {
    s.(ptes := s.ptes[k := Pte(f, false, true, false)], bytes := s.bytes[f := b],
       tracked := s.tracked[f := Tracked(1, Some(key))], owner := s.owner[f := Counted])
  }

  ghost function MapDevice(s: State, k: (Space, Page), f: Frame): State
  {
    s.(ptes := s.ptes[k := Pte(f, true, false, true)])
  }

  ghost function AddTable(s: State, t: (Space, Table), f: Frame, b: Bytes): State
  {
    s.(tables := s.tables[t := f], bytes := s.bytes[f := b], owner := s.owner[f := Tabled(t)],
       live := s.live + {t.0})
  }

  /** An unused frame made page k of a memory file. */
  ghost function AddFilePage(s: State, k: (nat, nat), f: Frame, b: Bytes): State
  {
    s.(files := s.files[k := f], bytes := s.bytes[f := b], tracked := s.tracked[f := Tracked(1, None)],
       owner := s.owner[f := Counted], common := s.common + {f})
  }

  ghost function CutFilePage(s: State, k: (nat, nat)): State
    requires k in s.files && s.files[k] in s.tracked
  {
    LetGo(s.(files := s.files - {k}), s.files[k])
  }

  ghost predicate IsUnused(s: State, f: Frame)
  {
    f in s.owner && s.owner[f] == Unused
  }

  // ---- what a move near entry k and frame f has to get right

  /** Nothing but entry k and frame f differs. */
  ghost predicate Near(s: State, s': State, k: (Space, Page), f: Frame)
  {
    && s'.tables == s.tables && s'.live == s.live && s'.source == s.source && s'.files == s.files
    && s'.ptes - {k} == s.ptes - {k}
    && s'.owner - {f} == s.owner - {f} && (f in s'.owner <==> f in s.owner)
    && s'.bytes - {f} == s.bytes - {f} && (f in s'.bytes <==> f in s.bytes)
    && s'.tracked - {f} == s.tracked - {f}
    && s'.common - {f} == s.common - {f}
  }

  /** f is k's, or counted, or nobody's - and no other frame is k's. */
  ghost predicate Local(s: State, k: (Space, Page), f: Frame)
  {
    && (k in s.ptes && Private(s.ptes[k]) ==> s.ptes[k].frame == f)
    && (k in s.ptes && s.ptes[k].device ==> s.ptes[k].frame !in s.owner)
    && (f in s.owner ==> s.owner[f] in {Unused, Counted, Mapped(k)})
    && (f in s.tracked <==> f in s.owner && s.owner[f] == Counted)
    && (f in s.owner && s.owner[f] == Mapped(k) <==> k in s.ptes && Private(s.ptes[k]))
  }

  /** The same, point by point. */
  lemma {:induction false} NearPoints(s: State, s': State, k: (Space, Page), f: Frame)
    requires Near(s, s', k, f)
    ensures forall j :: j != k ==> (j in s'.ptes <==> j in s.ptes) && (j in s.ptes ==> s'.ptes[j] == s.ptes[j])
    ensures forall g :: g != f ==> (g in s'.owner <==> g in s.owner) && (g in s.owner ==> s'.owner[g] == s.owner[g])
    ensures forall g :: g != f ==>
      (g in s'.tracked <==> g in s.tracked) && (g in s.tracked ==> s'.tracked[g] == s.tracked[g])
    ensures forall g :: g != f ==> (g in s'.bytes <==> g in s.bytes) && (g in s.bytes ==> s'.bytes[g] == s.bytes[g])
    ensures forall g :: g != f ==> (g in s'.common <==> g in s.common)
    ensures f in s'.owner <==> f in s.owner
    ensures f in s'.bytes <==> f in s.bytes
    ensures s'.tables == s.tables && s'.live == s.live && s'.source == s.source && s'.files == s.files
  {
    assert forall j :: j != k ==>
      (j in s'.ptes <==> j in s.ptes - {k}) && (j in s.ptes - {k} ==> s'.ptes[j] == s.ptes[j]);
    assert forall g :: g != f ==>
      (g in s'.owner <==> g in s.owner - {f}) && (g in s.owner - {f} ==> s'.owner[g] == s.owner[g]);
    assert forall g :: g != f ==>
      (g in s'.tracked <==> g in s.tracked - {f}) && (g in s.tracked - {f} ==> s'.tracked[g] == s.tracked[g]);
    assert forall g :: g != f ==>
      (g in s'.bytes <==> g in s.bytes - {f}) && (g in s.bytes - {f} ==> s'.bytes[g] == s.bytes[g]);
    assert forall g :: g != f ==> (g in s'.common <==> g in s.common - {f});
  }

  lemma {:induction false} OwnedMove(s: State, s': State, k: (Space, Page), f: Frame)
    requires Owned(s) && Near(s, s', k, f) && Local(s, k, f) && Local(s', k, f)
    ensures Owned(s')
  {
    hide Near, PagesOwned, TablesOwned;
    NearPoints(s, s', k, f);
    PagesOwnedMove(s, s', k, f);
    TablesOwnedKept(s, s', f);
  }

  lemma {:induction false} PagesOwnedMove(s: State, s': State, k: (Space, Page), f: Frame)
    requires PagesOwned(s) && Local(s, k, f) && Local(s', k, f)
    requires AllBut(s.ptes, s'.ptes, k) && AllBut(s.owner, s'.owner, f) && (f in s'.owner <==> f in s.owner)
    ensures PagesOwned(s')
  {
  }

  lemma {:induction false} TablesOwnedKept(s: State, s': State, f: Frame)
    requires TablesOwned(s) && s'.tables == s.tables && AllBut(s.owner, s'.owner, f)
    requires (f in s.owner ==> !s.owner[f].Tabled?) && (f in s'.owner ==> !s'.owner[f].Tabled?)
    ensures TablesOwned(s')
  {
  }

  lemma {:induction false} PagesOwnedKept(s: State, s': State, f: Frame)
    requires PagesOwned(s) && s'.ptes == s.ptes && AllBut(s.owner, s'.owner, f)
    requires f in s.owner && !s.owner[f].Mapped? && f in s'.owner && !s'.owner[f].Mapped?
    ensures PagesOwned(s')
  {
  }

  lemma {:induction false} TablesOwnedMove(s: State, s': State, t: (Space, Table), f: Frame)
    requires TablesOwned(s) && f in s.owner && f in s'.owner && AllBut(s.owner, s'.owner, f)
      && AllBut(s.tables, s'.tables, t)
    requires (t in s.tables && s.tables[t] == f && s.owner[f] == Tabled(t)) || (t !in s.tables && s.owner[f] == Unused)
    requires (t in s'.tables && s'.tables[t] == f && s'.owner[f] == Tabled(t))
      || (t !in s'.tables && s'.owner[f] == Unused)
    ensures TablesOwned(s')
  {
  }

  lemma {:induction false} FlaggedMove(s: State, s': State, k: (Space, Page), f: Frame)
    requires Flagged(s) && Near(s, s', k, f)
    requires k in s'.ptes ==>
      var e := s'.ptes[k];
      (e.shared ==> !e.device && e.frame == f) && (!e.shared ==> e.write)
        && (e.shared ==> (e.write <==> f in s'.common))
    requires f in s'.common ==> f in s.common && f in s'.tracked && s'.tracked[f].key.None?
    requires f in s'.tracked && s'.tracked[f].key.Some? ==>
      s'.tracked[f].key.value in s.source && f in s'.bytes && s'.bytes[f] == s.source[s'.tracked[f].key.value]
    requires f in s.common && f !in s'.common ==>
      (forall j :: j in s.ptes && j != k && s.ptes[j].shared ==> s.ptes[j].frame != f) && f !in s.files.Values
    ensures Flagged(s')
  {
    hide Near;
    NearPoints(s, s', k, f);
  }

  lemma {:induction false} WalkableMove(s: State, s': State, k: (Space, Page), f: Frame)
    requires Walkable(s) && Near(s, s', k, f)
    requires k in s'.ptes ==> (k.0, Leaf(k.1 / 512)) in s.tables
    ensures Walkable(s')
  {
    hide Near;
    NearPoints(s, s', k, f);
  }

  /** One if entry k holds frame f. */
  ghost function Hold(ptes: map<(Space, Page), Pte>, k: (Space, Page), f: Frame): nat
  {
    if k in ptes && ptes[k].shared && ptes[k].frame == f then 1 else 0
  }

  lemma {:induction false} HoldersMove(s: State, s': State, k: (Space, Page), f: Frame, g: Frame)
    requires Near(s, s', k, f)
    ensures Holders(s', g) == Holders(s, g) - Hold(s.ptes, k, g) + Hold(s'.ptes, k, g)
  {
    var rest := Mappers(s.ptes - {k}, g);
    assert Mappers(s.ptes, g) == if Hold(s.ptes, k, g) == 1 then rest + {k} else rest;
    assert Mappers(s'.ptes, g) == if Hold(s'.ptes, k, g) == 1 then rest + {k} else rest by {
      assert s'.ptes - {k} == s.ptes - {k};
      assert Mappers(s'.ptes - {k}, g) == rest;
    }
    assert k !in rest;
  }

  lemma {:induction false} ExactMove(s: State, s': State, k: (Space, Page), f: Frame)
    requires Exact(s) && Near(s, s', k, f)
    requires k in s.ptes && s.ptes[k].shared ==> s.ptes[k].frame == f
    requires k in s'.ptes && s'.ptes[k].shared ==> s'.ptes[k].frame == f && f in s'.tracked
    requires f in s'.tracked ==>
      s'.tracked[f].refs ==
        (if f in s.tracked then s.tracked[f].refs else 0) - Hold(s.ptes, k, f) + Hold(s'.ptes, k, f) > 0
    requires f in s.tracked && f !in s'.tracked ==> s.tracked[f].refs == Hold(s.ptes, k, f)
    ensures Exact(s')
    ensures f in s.tracked && f !in s'.tracked ==>
      (forall j :: j in s.ptes && j != k && s.ptes[j].shared ==> s.ptes[j].frame != f) && f !in s.files.Values
  {
    hide Near, Holders;
    NearPoints(s, s', k, f);
    forall g | g in s'.tracked
      ensures s'.tracked[g].refs == Holders(s', g) > 0
    {
      HoldersMove(s, s', k, f, g);
      if g == f && f !in s.tracked { NobodyHolds(s, f); }
    }
    if f in s.tracked && f !in s'.tracked {
      OnlyHolder(s, k, f);
    }
  }

  lemma {:induction false} NobodyHolds(s: State, f: Frame)
    requires Exact(s) && f !in s.tracked
    ensures Holders(s, f) == 0
  {
    assert Mappers(s.ptes, f) == {} && Keepers(s.files, f) == {};
  }

  /** When entry k is all that a frame's count counts, nothing else holds it. */
  lemma {:induction false} OnlyHolder(s: State, k: (Space, Page), f: Frame)
    requires Exact(s) && f in s.tracked && s.tracked[f].refs == Hold(s.ptes, k, f)
    ensures forall j :: j in s.ptes && j != k && s.ptes[j].shared ==> s.ptes[j].frame != f
    ensures f !in s.files.Values
  {
    var M, N := Mappers(s.ptes, f), Keepers(s.files, f);
    assert k in M;
    assert |M - {k}| + |N| == 0;
    forall j | j in s.ptes && j != k && s.ptes[j].shared ensures s.ptes[j].frame != f { assert j !in M - {k}; }
    forall j | j in s.files ensures s.files[j] != f { assert j !in N; }
  }

  /** All that a move near k and f has to get right for the invariant. */
  lemma {:induction false} MoveKeeps(s: State, s': State, k: (Space, Page), f: Frame)
    requires Inv(s) && Near(s, s', k, f) && Local(s, k, f) && Local(s', k, f)
    requires k in s.ptes && s.ptes[k].shared ==> s.ptes[k].frame == f
    requires k in s'.ptes ==>
      var e := s'.ptes[k];
      && (k.0, Leaf(k.1 / 512)) in s.tables
      && (if e.shared then !e.device && e.frame == f && f in s'.tracked && (e.write <==> f in s'.common) else e.write)
    requires f in s'.tracked ==>
      s'.tracked[f].refs ==
        (if f in s.tracked then s.tracked[f].refs else 0) - Hold(s.ptes, k, f) + Hold(s'.ptes, k, f) > 0
    requires f in s.tracked && f !in s'.tracked ==> s.tracked[f].refs == Hold(s.ptes, k, f)
    requires f in s'.common ==> f in s.common && f in s'.tracked && s'.tracked[f].key.None?
    requires f in s.common && f !in s'.common ==> f in s.tracked && f !in s'.tracked
    requires f in s'.tracked && s'.tracked[f].key.Some? ==>
      s'.tracked[f].key.value in s.source && f in s'.bytes && s'.bytes[f] == s.source[s'.tracked[f].key.value]
    ensures Inv(s')
  {
    hide Exact, Owned, Flagged, Walkable, Near, Local, Hold;
    ExactMove(s, s', k, f);
    OwnedMove(s, s', k, f);
    FlaggedMove(s, s', k, f);
    WalkableMove(s, s', k, f);
  }

  /** What an entry's flags say about the frame behind it. */
  lemma {:induction false} EntryIs(s: State, k: (Space, Page))
    requires Inv(s) && k in s.ptes
    ensures var e := s.ptes[k];
            && (e.shared ==> !e.device && e.frame in s.tracked && s.tracked[e.frame].refs >= 1 &&
                             e.frame in s.owner && s.owner[e.frame] == Counted)
            && (Private(e) ==> e.write && e.frame !in s.tracked && e.frame !in s.common &&
                               e.frame in s.owner && s.owner[e.frame] == Mapped(k))
            && (e.device ==> e.write && e.frame !in s.tracked && e.frame !in s.common && e.frame !in s.owner)
            && (e.frame in s.bytes <==> e.frame in s.owner)
            && (k.0, Leaf(k.1 / 512)) in s.tables
            && Local(s, k, e.frame)
    ensures FrameIs(s, s.ptes[k].frame)
  {
    hide Holders;
  }

  /** What holds of any frame. */
  ghost predicate FrameIs(s: State, f: Frame)
  {
    && (f in s.common ==> f in s.tracked && s.tracked[f].key.None?)
    && (f in s.tracked ==> s.tracked[f].refs >= 1 && f in s.owner && s.owner[f] == Counted)
    && (f in s.tracked && s.tracked[f].key.Some? ==>
          f in s.bytes && s.tracked[f].key.value in s.source && s.bytes[f] == s.source[s.tracked[f].key.value])
    && (f in s.bytes <==> f in s.owner)
  }

  lemma {:induction false} FrameKnown(s: State, k: (Space, Page), f: Frame)
    requires Inv(s) && k !in s.ptes
    requires f in s.tracked || f !in s.owner || s.owner[f] == Unused
    ensures FrameIs(s, f) && Local(s, k, f)
  {
    hide Holders;
  }

  // ---- each move keeps the invariant

  lemma {:induction false} GiveKeeps(s: State, k: (Space, Page), f: Frame, b: Bytes)
    requires Inv(s) && IsUnused(s, f) && k !in s.ptes && (k.0, Leaf(k.1 / 512)) in s.tables
    ensures Inv(Give(s, k, f, b))
  {
    hide Inv;
    FrameKnown(s, k, f);
    MoveKeeps(s, Give(s, k, f, b), k, f);
  }

  lemma {:induction false} MapDeviceKeeps(s: State, k: (Space, Page), f: Frame)
    requires Inv(s) && f !in s.owner && k !in s.ptes && (k.0, Leaf(k.1 / 512)) in s.tables
    ensures Inv(MapDevice(s, k, f))
  {
    hide Inv;
    FrameKnown(s, k, f);
    MoveKeeps(s, MapDevice(s, k, f), k, f);
  }

  lemma {:induction false} JoinKeeps(s: State, k: (Space, Page), f: Frame, write: bool)
    requires Inv(s) && f in s.tracked && k !in s.ptes && (k.0, Leaf(k.1 / 512)) in s.tables
    requires write <==> f in s.common
    ensures Inv(Join(s, k, f, write))
  {
    hide Inv;
    FrameKnown(s, k, f);
    MoveKeeps(s, Join(s, k, f, write), k, f);
  }

  lemma {:induction false} ImportKeeps(s: State, k: (Space, Page), f: Frame, key: (nat, nat), b: Bytes)
    requires Inv(s) && IsUnused(s, f) && k !in s.ptes && (k.0, Leaf(k.1 / 512)) in s.tables
    requires key in s.source && s.source[key] == b
    ensures Inv(Import(s, k, f, key, b))
  {
    hide Inv;
    FrameKnown(s, k, f);
    MoveKeeps(s, Import(s, k, f, key, b), k, f);
  }

  lemma {:induction false} UnmapKeeps(s: State, k: (Space, Page))
    requires Inv(s) && k in s.ptes
    ensures s.ptes[k].shared ==> s.ptes[k].frame in s.tracked
    ensures Inv(Unmap(s, k))
  {
    hide Inv;
    EntryIs(s, k);
    MoveKeeps(s, Unmap(s, k), k, s.ptes[k].frame);
  }

  lemma {:induction false} AdoptKeeps(s: State, k: (Space, Page))
    requires Inv(s) && k in s.ptes && Private(s.ptes[k])
    ensures Inv(Adopt(s, k))
  {
    hide Inv;
    EntryIs(s, k);
    MoveKeeps(s, Adopt(s, k), k, s.ptes[k].frame);
  }

  lemma {:induction false} TakeBackKeeps(s: State, k: (Space, Page))
    requires Inv(s) && k in s.ptes && s.ptes[k].shared
    requires s.ptes[k].frame in s.tracked && s.tracked[s.ptes[k].frame].refs == 1
    ensures Inv(TakeBack(s, k))
  {
    hide Inv;
    EntryIs(s, k);
    MoveKeeps(s, TakeBack(s, k), k, s.ptes[k].frame);
  }

  // ---- tables, memory files, bytes and the disk

  ghost predicate MayAdd(s: State, t: (Space, Table))
  {
    match t.1
    case Root => t.0 !in s.live
    case Mid(_) => (t.0, Root) in s.tables
    case Leaf(j) => (t.0, Mid(j / 512)) in s.tables
  }

  lemma {:induction false} SameCounts(s: State, s': State)
    requires Exact(s) && s'.ptes == s.ptes && s'.files == s.files && s'.tracked == s.tracked
    ensures Exact(s')
  {
    assert forall g :: Holders(s', g) == Holders(s, g);
  }

  /** Only the bytes of an uncounted frame f differ, as far as the flags go. */
  lemma {:induction false} SameFlags(s: State, s': State, f: Frame)
    requires Flagged(s) && f !in s.tracked
    requires s'.ptes == s.ptes && s'.files == s.files && s'.tracked == s.tracked && s'.common == s.common
    requires s'.source == s.source && forall g :: g in s.bytes && g != f ==> g in s'.bytes && s'.bytes[g] == s.bytes[g]
    ensures Flagged(s')
  {
  }

  /** Frame f between unused and table t. */
  lemma {:induction false} TableOwned(s: State, s': State, t: (Space, Table), f: Frame)
    requires Owned(s) && s'.ptes == s.ptes && s'.tracked == s.tracked
    requires f in s.owner && f in s'.owner && AllBut(s.owner, s'.owner, f)
    requires AllBut(s.tables, s'.tables, t) && s'.bytes.Keys == s.bytes.Keys
    requires (t in s.tables && s.tables[t] == f && s.owner[f] == Tabled(t)) || (t !in s.tables && s.owner[f] == Unused)
    requires (t in s'.tables && s'.tables[t] == f && s'.owner[f] == Tabled(t))
      || (t !in s'.tables && s'.owner[f] == Unused)
    ensures Owned(s')
  {
    assert forall g :: g in s'.bytes <==> g in s.bytes.Keys;
    hide PagesOwned, TablesOwned;
    PagesOwnedKept(s, s', f);
    TablesOwnedMove(s, s', t, f);
  }

  /** Two maps that agree everywhere but at k. */
  ghost predicate AllBut<K(!new), V>(m: map<K, V>, m': map<K, V>, k: K)
  {
    forall j :: j != k ==> (j in m' <==> j in m) && (j in m ==> m'[j] == m[j])
  }

  lemma {:induction false} AddTableWalk(s: State, t: (Space, Table), f: Frame, b: Bytes)
    requires Walkable(s) && t !in s.tables && MayAdd(s, t)
    ensures Walkable(AddTable(s, t, f, b))
  {
  }

  lemma {:induction false} UnusedIs(s: State, f: Frame)
    requires Owned(s) && IsUnused(s, f)
    ensures f !in s.tracked && f in s.bytes
  {
  }

  lemma {:induction false} AddTableKeeps(s: State, t: (Space, Table), f: Frame, b: Bytes)
    requires Inv(s) && IsUnused(s, f) && t !in s.tables && MayAdd(s, t)
    ensures Inv(AddTable(s, t, f, b))
  {
    hide Exact, Owned, Flagged, Walkable, MayAdd;
    var s' := AddTable(s, t, f, b);
    UnusedIs(s, f);
    SameCounts(s, s');
    SameFlags(s, s', f);
    TableOwned(s, s', t, f);
    AddTableWalk(s, t, f, b);
  }

  /** A table with nothing under it handed back. */
  ghost function CutTable(s: State, t: (Space, Table)): State
    requires t in s.tables
  {
    s.(tables := s.tables - {t}, owner := s.owner[s.tables[t] := Unused],
       live := if t.1.Root? then s.live - {t.0} else s.live)
  }

  ghost predicate Bare(s: State, t: (Space, Table))
  {
    match t.1
    case Root => forall u :: u in s.tables && u.0 == t.0 ==> u.1.Root?
    case Mid(i) => forall u :: u in s.tables && u.0 == t.0 && u.1.Leaf? ==> u.1.j / 512 != i
    case Leaf(j) => forall k :: k in s.ptes && k.0 == t.0 ==> k.1 / 512 != j
  }

  lemma {:induction false} CutTableWalk(s: State, t: (Space, Table))
    requires Walkable(s) && t in s.tables && Bare(s, t)
    ensures Walkable(CutTable(s, t))
  {
  }

  lemma {:induction false} TableIs(s: State, t: (Space, Table))
    requires Owned(s) && t in s.tables
    ensures var f := s.tables[t]; f in s.owner && s.owner[f] == Tabled(t) && f !in s.tracked
  {
  }

  lemma {:induction false} CutTableKeeps(s: State, t: (Space, Table))
    requires Inv(s) && t in s.tables && Bare(s, t)
    ensures Inv(CutTable(s, t))
  {
    hide Exact, Owned, Flagged, Walkable, Bare;
    var s', f := CutTable(s, t), s.tables[t];
    TableIs(s, t);
    SameCounts(s, s');
    SameFlags(s, s', f);
    TableOwned(s, s', t, f);
    CutTableWalk(s, t);
  }

  /** Bytes stored in a frame that is somebody's own, or shared on purpose, or nobody's. */
  ghost function Fill(s: State, f: Frame, b: Bytes): State
  {
    s.(bytes := s.bytes[f := b])
  }

  lemma {:induction false} FillKeeps(s: State, f: Frame, b: Bytes)
    requires Inv(s) && f in s.owner && (f in s.tracked ==> f in s.common)
    ensures Inv(Fill(s, f, b))
  {
    hide Exact, Owned, Flagged, Walkable;
    var s' := Fill(s, f, b);
    SameCounts(s, s');
    FillFlags(s, f, b);
    assert Owned(s') by { FillOwned(s, f, b); }
    assert Walkable(s') by { FillWalk(s, f, b); }
  }

  lemma {:induction false} FillFlags(s: State, f: Frame, b: Bytes)
    requires Flagged(s) && (f in s.tracked ==> f in s.common)
    ensures Flagged(Fill(s, f, b))
  {
  }

  lemma {:induction false} FillOwned(s: State, f: Frame, b: Bytes)
    requires Owned(s) && f in s.owner
    ensures Owned(Fill(s, f, b))
  {
  }

  lemma {:induction false} FillWalk(s: State, f: Frame, b: Bytes)
    requires Walkable(s)
    ensures Walkable(Fill(s, f, b))
  {
  }

  // A memory file's place in a frame's count.

  lemma {:induction false} KeepersMove(files: map<(nat, nat), Frame>, files': map<(nat, nat), Frame>, k: (nat, nat),
      f: Frame, g: Frame)
    requires files' - {k} == files - {k}
    requires (k in files ==> files[k] == f) && (k in files' ==> files'[k] == f)
    ensures |Keepers(files', g)| ==
      |Keepers(files, g)| - (if g == f && k in files then 1 else 0) + (if g == f && k in files' then 1 else 0)
  {
    var rest := Keepers(files - {k}, g);
    assert Keepers(files, g) == if g == f && k in files then rest + {k} else rest;
    assert Keepers(files', g) == if g == f && k in files' then rest + {k} else rest by {
      assert Keepers(files' - {k}, g) == rest;
    }
    assert k !in rest;
  }

  lemma {:induction false} AddFileCounts(s: State, k: (nat, nat), f: Frame, b: Bytes)
    requires Exact(s) && f !in s.tracked && k !in s.files
    ensures Exact(AddFilePage(s, k, f, b))
  {
    var s' := AddFilePage(s, k, f, b);
    NobodyHolds(s, f);
    forall g ensures Holders(s', g) == Holders(s, g) + if g == f then 1 else 0 {
      assert s'.files - {k} == s.files - {k};
      KeepersMove(s.files, s'.files, k, f, g);
    }
  }

  lemma {:induction false} AddFileOwned(s: State, k: (nat, nat), f: Frame, b: Bytes)
    requires Owned(s) && IsUnused(s, f)
    ensures Owned(AddFilePage(s, k, f, b))
  {
    hide PagesOwned, TablesOwned;
    PagesOwnedKept(s, AddFilePage(s, k, f, b), f);
    TablesOwnedKept(s, AddFilePage(s, k, f, b), f);
  }

  lemma {:induction false} AddFileFlags(s: State, k: (nat, nat), f: Frame, b: Bytes)
    requires Flagged(s) && f !in s.tracked
    requires forall j :: j in s.ptes && s.ptes[j].shared ==> s.ptes[j].frame in s.tracked
    ensures Flagged(AddFilePage(s, k, f, b))
  {
  }

  lemma {:induction false} SharedTracked(s: State)
    requires Exact(s)
    ensures forall j :: j in s.ptes && s.ptes[j].shared ==> s.ptes[j].frame in s.tracked
  {
    hide Holders;
  }

  lemma {:induction false} AddFileKeeps(s: State, k: (nat, nat), f: Frame, b: Bytes)
    requires Inv(s) && IsUnused(s, f) && k !in s.files
    ensures Inv(AddFilePage(s, k, f, b))
  {
    hide Exact, Owned, Flagged;
    UnusedIs(s, f);
    AddFileCounts(s, k, f, b);
    AddFileOwned(s, k, f, b);
    SharedTracked(s);
    AddFileFlags(s, k, f, b);
  }

  lemma {:induction false} CutFileHolders(s: State, k: (nat, nat), g: Frame)
    requires k in s.files && s.files[k] in s.tracked
    ensures Holders(CutFilePage(s, k), g) == Holders(s, g) - if g == s.files[k] then 1 else 0
  {
    var s' := CutFilePage(s, k);
    assert s'.files - {k} == s.files - {k};
    KeepersMove(s.files, s'.files, k, s.files[k], g);
  }

  /** The last place of a frame: no shared entry has it, and no other memory file. */
  lemma {:induction false} LastKeeper(s: State, k: (nat, nat))
    requires k in s.files && s.files[k] in s.tracked && Holders(s, s.files[k]) == 1
    ensures forall j :: j in s.ptes && s.ptes[j].shared ==> s.ptes[j].frame != s.files[k]
    ensures forall j :: j in s.files && j != k ==> s.files[j] != s.files[k]
  {
    var f := s.files[k];
    assert k in Keepers(s.files, f);
    assert |Keepers(s.files, f) - {k}| + |Mappers(s.ptes, f)| == 0;
    forall j | j in s.ptes && s.ptes[j].shared ensures s.ptes[j].frame != f { assert j !in Mappers(s.ptes, f); }
    forall j | j in s.files && j != k ensures s.files[j] != f { assert j !in Keepers(s.files, f) - {k}; }
  }

  lemma {:induction false} CutFileCounts(s: State, k: (nat, nat))
    requires Exact(s) && k in s.files
    ensures s.files[k] in s.tracked && s.tracked[s.files[k]].refs >= 1 && Exact(CutFilePage(s, k))
    ensures s.tracked[s.files[k]].refs == 1 ==>
      (forall j :: j in s.ptes && s.ptes[j].shared ==> s.ptes[j].frame != s.files[k]) &&
      (forall j :: j in s.files && j != k ==> s.files[j] != s.files[k])
  {
    hide Holders;
    var f, s' := s.files[k], CutFilePage(s, k);
    if s.tracked[f].refs == 1 { LastKeeper(s, k); }
    forall g | g in s'.tracked ensures s'.tracked[g].refs == Holders(s', g) > 0 { CutFileHolders(s, k, g); }
  }

  lemma {:induction false} CutFileOwned(s: State, k: (nat, nat))
    requires Owned(s) && k in s.files && s.files[k] in s.tracked && s.tracked[s.files[k]].refs >= 1
    ensures Owned(CutFilePage(s, k))
  {
    hide PagesOwned, TablesOwned;
    PagesOwnedKept(s, CutFilePage(s, k), s.files[k]);
    TablesOwnedKept(s, CutFilePage(s, k), s.files[k]);
  }

  lemma {:induction false} CutFileFlags(s: State, k: (nat, nat))
    requires Flagged(s) && k in s.files && s.files[k] in s.tracked && s.tracked[s.files[k]].refs >= 1
    requires s.tracked[s.files[k]].refs == 1 ==>
      (forall j :: j in s.ptes && s.ptes[j].shared ==> s.ptes[j].frame != s.files[k]) &&
      (forall j :: j in s.files && j != k ==> s.files[j] != s.files[k])
    ensures Flagged(CutFilePage(s, k))
  {
  }

  lemma {:induction false} CutFileKeeps(s: State, k: (nat, nat))
    requires Inv(s) && k in s.files
    ensures s.files[k] in s.tracked && Inv(CutFilePage(s, k))
  {
    hide Exact, Owned, Flagged, Walkable;
    CutFileCounts(s, k);
    CutFileOwned(s, k);
    CutFileFlags(s, k);
    CutFileWalks(s, k);
  }

  lemma {:induction false} CutFileWalks(s: State, k: (nat, nat))
    requires Walkable(s) && k in s.files && s.files[k] in s.tracked
    ensures Walkable(CutFilePage(s, k))
  {
  }

  /** The disk changed under file pages: none of those are file pages any more. */
  ghost function Rewrite(s: State, lba: nat, count: nat, source: map<(nat, nat), Bytes>): State
  {
    s.(tracked := Stale(s.tracked, lba, count), source := source)
  }

  lemma {:induction false} RewriteCounts(s: State, lba: nat, count: nat, source: map<(nat, nat), Bytes>)
    requires Exact(s)
    ensures Exact(Rewrite(s, lba, count, source))
  {
    hide Overlaps;
    assert forall g :: Holders(Rewrite(s, lba, count, source), g) == Holders(s, g);
    hide Holders;
  }

  /** Every tracked file page that the test does not find reads as it did. */
  ghost predicate NoneMissed(tracked: map<nat, Tracked>, lba: nat, count: nat, was: map<(nat, nat), Bytes>,
      now: map<(nat, nat), Bytes>)
  {
    forall f ::
      f in tracked && tracked[f].key.Some? && !Overlaps(tracked[f].key.value.0, tracked[f].key.value.1, lba, count) ==>
      Unchanged(was, now, tracked[f].key.value)
  }

  ghost predicate Unchanged(was: map<(nat, nat), Bytes>, now: map<(nat, nat), Bytes>, key: (nat, nat))
  {
    key in was && key in now && now[key] == was[key]
  }

  /** A write to the disk keeps tracked pages equal to their files exactly if it misses none. */
  lemma {:induction false} RewriteKeeps(s: State, lba: nat, count: nat, source: map<(nat, nat), Bytes>)
    requires Inv(s)
    ensures Inv(Rewrite(s, lba, count, source)) <==> NoneMissed(s.tracked, lba, count, s.source, source)
  {
    hide Overlaps, Exact, Owned, Flagged, NoneMissed;
    RewriteCounts(s, lba, count, source);
    RewriteOwned(s, lba, count, source);
    RewriteFlags(s, lba, count, source);
  }

  lemma {:induction false} RewriteOwned(s: State, lba: nat, count: nat, source: map<(nat, nat), Bytes>)
    requires Owned(s)
    ensures Owned(Rewrite(s, lba, count, source))
  {
    hide Overlaps;
  }

  lemma {:induction false} RewriteFlags(s: State, lba: nat, count: nat, source: map<(nat, nat), Bytes>)
    requires Flagged(s)
    ensures Flagged(Rewrite(s, lba, count, source)) <==> NoneMissed(s.tracked, lba, count, s.source, source)
  {
    hide Overlaps;
    var s' := Rewrite(s, lba, count, source);
    if Flagged(s') {
      forall f | f in s.tracked && s.tracked[f].key.Some?
        && !Overlaps(s.tracked[f].key.value.0, s.tracked[f].key.value.1, lba, count)
        ensures Unchanged(s.source, source, s.tracked[f].key.value)
      {
        assert s'.tracked[f] == s.tracked[f];
      }
    }
    if NoneMissed(s.tracked, lba, count, s.source, source) {
      forall f | f in s'.tracked && s'.tracked[f].key.Some?
        ensures s'.tracked[f].key.value in source && f in s.bytes && s.bytes[f] == source[s'.tracked[f].key.value]
      {
        assert s'.tracked[f] == s.tracked[f];
      }
    }
  }
}
