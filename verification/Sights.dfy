/** What the programs see of the frames: each elementary move, seen from the outside. */
module Sights {
  import opened Share
  import opened Frames
  import S = Spaces

  ghost function CellOf(s: State, k: (Space, Page)): S.Cell
    requires k in s.ptes
  {
    var f := s.ptes[k].frame;
    if s.ptes[k].device then S.Device(f)
    else if f in s.common || f !in s.bytes then S.Window(f)
    else S.Own(s.bytes[f])
  }

  ghost function Cells(s: State): map<(Space, Page), S.Cell>
  {
    map k | k in s.ptes :: CellOf(s, k)
  }

  ghost function Commons(s: State): map<Frame, Bytes>
  {
    map f | f in s.common && f in s.bytes :: s.bytes[f]
  }

  ghost function See(s: State): S.Sight
  {
    S.Sight(Cells(s), Commons(s), s.files, s.source, s.live)
  }

  /** Memory shared on purpose that only lost frames. */
  ghost predicate Shrinks(c: map<Frame, Bytes>, c': map<Frame, Bytes>)
  {
    forall f :: f in c' ==> f in c && c'[f] == c[f]
  }

  /** Frame f looks the same to every entry but k. */
  ghost predicate Unseen(s: State, s': State, k: (Space, Page), f: Frame)
  {
    || (f in s.bytes && f in s'.bytes && s'.bytes[f] == s.bytes[f] && (f in s'.common <==> f in s.common))
    || (forall j :: j in s.ptes && j != k && s.ptes[j].frame == f ==> s.ptes[j].device)
  }

  lemma {:induction false} CellsMove(s: State, s': State, k: (Space, Page), f: Frame)
    requires Near(s, s', k, f) && Unseen(s, s', k, f)
    ensures Cells(s') == if k in s'.ptes then Cells(s)[k := CellOf(s', k)] else Cells(s) - {k}
  {
    hide Near;
    NearPoints(s, s', k, f);
  }

  lemma {:induction false} CommonsMove(s: State, s': State, k: (Space, Page), f: Frame)
    requires Near(s, s', k, f)
    requires f in s'.common ==> f in s.common && f in s.bytes && f in s'.bytes && s'.bytes[f] == s.bytes[f]
    ensures Shrinks(Commons(s), Commons(s'))
    ensures (f in s.common ==> f in s'.common) ==> Commons(s') == Commons(s)
  {
    hide Near;
    NearPoints(s, s', k, f);
  }

  lemma {:induction false} SeeGive(s: State, k: (Space, Page), f: Frame, b: Bytes)
    requires Inv(s) && IsUnused(s, f) && k !in s.ptes
    ensures See(Give(s, k, f, b)) == See(s).(cells := Cells(s)[k := S.Own(b)])
  {
    hide Inv, CellOf, Cells, Commons, S.Settled;
    var s' := Give(s, k, f, b);
    FrameKnown(s, k, f);
    NobodyMaps(s, f);
    CellsMove(s, s', k, f);
    CommonsMove(s, s', k, f);
    CellNow(s', k);
  }

  lemma {:induction false} SeeMapDevice(s: State, k: (Space, Page), f: Frame)
    requires Inv(s) && f !in s.owner && k !in s.ptes
    ensures See(MapDevice(s, k, f)) == See(s).(cells := Cells(s)[k := S.Device(f)])
  {
    hide Inv, CellOf, Cells, Commons, S.Settled;
    var s' := MapDevice(s, k, f);
    FrameKnown(s, k, f);
    assert Unseen(s, s', k, f) by {
      forall j | j in s.ptes && j != k && s.ptes[j].frame == f ensures s.ptes[j].device { EntryIs(s, j); }
    }
    CellsMove(s, s', k, f);
    CommonsMove(s, s', k, f);
    CellNow(s', k);
  }

  lemma {:induction false} SeeJoin(s: State, k: (Space, Page), f: Frame, write: bool)
    requires Inv(s) && f in s.tracked && k !in s.ptes
    ensures f in s.bytes
    ensures See(Join(s, k, f, write)) ==
      See(s).(cells := Cells(s)[k := if f in s.common then S.Window(f) else S.Own(s.bytes[f])])
  {
    hide Inv, CellOf, Cells, Commons, S.Settled;
    var s' := Join(s, k, f, write);
    FrameKnown(s, k, f);
    CellsMove(s, s', k, f);
    CommonsMove(s, s', k, f);
    CellNow(s', k);
  }

  lemma {:induction false} SeeImport(s: State, k: (Space, Page), f: Frame, key: (nat, nat), b: Bytes)
    requires Inv(s) && IsUnused(s, f) && k !in s.ptes
    ensures See(Import(s, k, f, key, b)) == See(s).(cells := Cells(s)[k := S.Own(b)])
  {
    hide Inv, CellOf, Cells, Commons, S.Settled;
    var s' := Import(s, k, f, key, b);
    FrameKnown(s, k, f);
    NobodyMaps(s, f);
    CellsMove(s, s', k, f);
    CommonsMove(s, s', k, f);
    CellNow(s', k);
  }

  /** A frame private to k, or held by k alone, is behind no other entry. */
  lemma {:induction false} NobodyElse(s: State, k: (Space, Page))
    requires Inv(s) && k in s.ptes && !s.ptes[k].device
    requires s.ptes[k].shared ==> s.ptes[k].frame in s.tracked && s.tracked[s.ptes[k].frame].refs == 1
    ensures forall j :: j in s.ptes && j != k ==> s.ptes[j].frame != s.ptes[k].frame
  {
    var f := s.ptes[k].frame;
    EntryIs(s, k);
    if s.ptes[k].shared { OnlyHolder(s, k, f); }
    hide Inv;
    forall j | j in s.ptes && j != k ensures s.ptes[j].frame != f { EntryIs(s, j); }
  }

  lemma {:induction false} SeeUnmap(s: State, k: (Space, Page))
    requires Inv(s) && k in s.ptes
    ensures s.ptes[k].shared ==> s.ptes[k].frame in s.tracked
    ensures S.Becomes(See(s), Cells(s) - {k}, See(Unmap(s, k)))
  {
    hide Inv, CellOf, Cells, Commons, S.Settled;
    EntryIs(s, k);
    var s', f := Unmap(s, k), s.ptes[k].frame;
    UnmapKeeps(s, k);
    SettledIs(s');
    if !s.ptes[k].device && (s.ptes[k].shared ==> s.tracked[f].refs == 1) { NobodyElse(s, k); }
    assert Unseen(s, s', k, f) by {
      if s.ptes[k].device {
        forall j | j in s.ptes && j != k && s.ptes[j].frame == f ensures s.ptes[j].device { EntryIs(s, j); }
      }
    }
    CellsMove(s, s', k, f);
    CommonsMove(s, s', k, f);
  }

  lemma {:induction false} SeeAdopt(s: State, k: (Space, Page))
    requires Inv(s) && k in s.ptes && Private(s.ptes[k])
    ensures See(Adopt(s, k)) == See(s)
  {
    hide Inv, CellOf, Cells, Commons, S.Settled;
    EntryIs(s, k);
    var s', f := Adopt(s, k), s.ptes[k].frame;
    CellsMove(s, s', k, f);
    CommonsMove(s, s', k, f);
    CellNow(s', k);
    CellNow(s, k);
    CellHere(s, k);
  }

  lemma {:induction false} CellHere(s: State, k: (Space, Page))
    requires k in s.ptes
    ensures k in Cells(s) && Cells(s)[k] == CellOf(s, k)
    ensures Cells(s)[k := CellOf(s, k)] == Cells(s)
  {
  }

  lemma {:induction false} SeeTakeBack(s: State, k: (Space, Page))
    requires Inv(s) && k in s.ptes && s.ptes[k].shared
    requires s.ptes[k].frame in s.tracked && s.tracked[s.ptes[k].frame].refs == 1
    ensures s.ptes[k].frame in s.bytes
    ensures S.Becomes(See(s), Cells(s)[k := S.Own(s.bytes[s.ptes[k].frame])], See(TakeBack(s, k)))
  {
    hide Inv, CellOf, Cells, Commons, S.Settled;
    EntryIs(s, k);
    NobodyElse(s, k);
    var s', f := TakeBack(s, k), s.ptes[k].frame;
    TakeBackKeeps(s, k);
    SettledIs(s');
    CellsMove(s, s', k, f);
    CommonsMove(s, s', k, f);
    CellNow(s', k);
  }

  lemma {:induction false} SeeFill(s: State, k: (Space, Page), b: Bytes)
    requires Inv(s) && k in s.ptes && Private(s.ptes[k])
    ensures See(Fill(s, s.ptes[k].frame, b)) == See(s).(cells := Cells(s)[k := S.Own(b)])
  {
    hide Inv, CellOf, Cells, Commons, S.Settled;
    EntryIs(s, k);
    NobodyElse(s, k);
    var f := s.ptes[k].frame;
    var s' := Fill(s, f, b);
    CellsMove(s, s', k, f);
    CommonsMove(s, s', k, f);
    CellNow(s', k);
  }

  lemma {:induction false} SeeFillCommon(s: State, f: Frame, b: Bytes)
    requires Inv(s) && f in s.common
    ensures f in s.bytes
    ensures See(Fill(s, f, b)) == See(s).(common := Commons(s)[f := b])
  {
    hide Inv;
    CommonIs(s, f);
  }

  lemma {:induction false} CommonIs(s: State, f: Frame)
    requires Inv(s) && f in s.common
    ensures f in s.tracked && f in s.bytes && f in s.owner && s.owner[f] == Counted
  {
    hide Exact;
  }

  /** The invariant makes a sight settled. */
  lemma {:induction false} SettledIs(s: State)
    requires Inv(s)
    ensures S.Settled(See(s))
  {
    hide Inv, CellOf, S.Had;
    forall k | k in s.ptes ensures k.0 in s.live && (CellOf(s, k).Window? ==> s.ptes[k].frame in Commons(s)) {
      SettledAt(s, k);
    }
    forall m | m in s.files ensures s.files[m] in Commons(s) { SettledMemory(s, m); }
    forall f | f in Commons(s) ensures S.Had(See(s), f) { SettledCommon(s, f); }
    hide Commons;
    WindowsAre(s);
  }

  lemma {:induction false} WindowsAre(s: State)
    ensures forall k :: k in s.ptes && CellOf(s, k).Window? ==> CellOf(s, k).frame == s.ptes[k].frame
  {
  }

  lemma {:induction false} SettledCommon(s: State, f: Frame)
    requires Inv(s) && f in s.common
    ensures S.Had(See(s), f)
  {
    CommonIs(s, f);
    assert |Mappers(s.ptes, f)| + |Keepers(s.files, f)| > 0;
    if Keepers(s.files, f) != {} {
      var m :| m in Keepers(s.files, f);
      assert m in See(s).memory;
    } else {
      var k :| k in Mappers(s.ptes, f);
      EntryIs(s, k);
      hide Inv;
      assert k in See(s).cells && See(s).cells[k] == S.Window(f);
    }
  }

  lemma {:induction false} SettledMemory(s: State, m: (nat, nat))
    requires Inv(s) && m in s.files
    ensures s.files[m] in s.tracked && s.files[m] in s.common && s.files[m] in Commons(s)
  {
    hide Exact, Walkable;
  }

  lemma {:induction false} SettledAt(s: State, k: (Space, Page))
    requires Inv(s) && k in s.ptes
    ensures k.0 in s.live && (CellOf(s, k).Window? ==> s.ptes[k].frame in Commons(s))
  {
    EntryIs(s, k);
    hide Exact, Owned, Flagged;
  }

  /** Frames behind entries and frames shared on purpose are none of g's, if g is neither. */
  lemma {:induction false} SeeElsewhere(s: State, s': State, g: Frame)
    requires Inv(s) && g in s.owner && s.owner[g] != Counted && !s.owner[g].Mapped?
    requires s'.ptes == s.ptes && s'.common == s.common && s'.live == s.live && s'.files == s.files
      && s'.source == s.source
    requires g in s'.bytes && s'.bytes - {g} == s.bytes - {g}
    ensures See(s') == See(s)
  {
    hide Inv, CellOf;
    assert forall f :: f != g ==>
      (f in s'.bytes <==> f in s.bytes - {g}) && (f in s.bytes - {g} ==> s'.bytes[f] == s.bytes[f]);
    forall k | k in s.ptes && !s.ptes[k].device
      ensures s.ptes[k].frame != g && s.ptes[k].frame in s.bytes
    {
      EntryIs(s, k);
    }
    forall f | f in s.common ensures f != g && f in s.bytes { CommonIs(s, f); }
    SeeSame(s, s');
  }

  lemma {:induction false} SeeAddTable(s: State, t: (Space, Table), f: Frame, b: Bytes)
    requires Inv(s) && IsUnused(s, f)
    ensures See(AddTable(s, t, f, b)) == See(s).(live := s.live + {t.0})
  {
    hide Inv;
    assert f in s.bytes by { FrameBytes(s, f); }
    var s' := AddTable(s, t, f, b).(live := s.live);
    assert s'.bytes - {f} == s.bytes - {f};
    SeeElsewhere(s, s', f);
    hide Cells, Commons;
    SeeLive(AddTable(s, t, f, b), s');
  }

  lemma {:induction false} FrameBytes(s: State, f: Frame)
    requires Inv(s) && f in s.owner
    ensures f in s.bytes
  {
    hide Exact, Flagged, Walkable;
  }

  lemma {:induction false} SeeLive(s: State, s': State)
    requires s'.ptes == s.ptes && s'.common == s.common && s'.bytes == s.bytes
    ensures Cells(s') == Cells(s) && Commons(s') == Commons(s)
  {
    hide CellOf;
    assert forall k :: k in s.ptes ==> CellOf(s', k) == CellOf(s, k) by {
      forall k | k in s.ptes ensures CellOf(s', k) == CellOf(s, k) { CellNow(s, k); CellNow(s', k); }
    }
  }

  lemma {:induction false} SeeCutTable(s: State, t: (Space, Table))
    requires t in s.tables
    ensures See(CutTable(s, t)) == See(s).(live := if t.1.Root? then s.live - {t.0} else s.live)
  {
    hide Cells, Commons;
    SeeLive(s, CutTable(s, t));
  }

  lemma {:induction false} SeeAddFile(s: State, k: (nat, nat), f: Frame, b: Bytes)
    requires Inv(s) && IsUnused(s, f)
    ensures f !in Commons(s)
    ensures See(AddFilePage(s, k, f, b)) == See(s).(common := Commons(s)[f := b], memory := s.files[k := f])
  {
    hide Inv;
    NobodyMaps(s, f);
    assert f !in s.common by { if f in s.common { CommonIs(s, f); } }
    var s' := AddFilePage(s, k, f, b);
    assert Cells(s') == Cells(s);
    assert Commons(s') == Commons(s)[f := b];
  }

  lemma {:induction false} SeeCutFile(s: State, k: (nat, nat))
    requires Inv(s) && k in s.files
    ensures s.files[k] in s.tracked && S.Becomes(See(s).(memory := s.files - {k}), Cells(s), See(CutFilePage(s, k)))
  {
    hide Inv, S.Settled;
    CutFileKeeps(s, k);
    SettledIs(CutFilePage(s, k));
    LastFileIs(s, k);
    var s' := CutFilePage(s, k);
    hide CellOf;
    forall j | j in s.ptes ensures CellOf(s', j) == CellOf(s, j) {
      CellNow(s, j);
      CellNow(s', j);
    }
    assert Cells(s') == Cells(s);
  }

  /** When a memory file's page has no other holder, no entry maps it. */
  lemma {:induction false} LastFileIs(s: State, k: (nat, nat))
    requires Inv(s) && k in s.files
    ensures s.files[k] in s.tracked
    ensures s.tracked[s.files[k]].refs == 1 ==> forall j :: j in s.ptes && !s.ptes[j].device ==>
      s.ptes[j].frame != s.files[k]
  {
    var f := s.files[k];
    CutFileCounts(s, k);
    FrameIsCounted(s, f);
    hide Inv;
    if s.tracked[f].refs == 1 {
      forall j | j in s.ptes && !s.ptes[j].device ensures s.ptes[j].frame != f { EntryIs(s, j); }
    }
  }

  lemma {:induction false} FrameIsCounted(s: State, f: Frame)
    requires Inv(s) && f in s.tracked
    ensures f in s.owner && s.owner[f] == Counted
  {
    hide Exact, Flagged, Walkable;
  }

  lemma {:induction false} SeeRewrite(s: State, lba: nat, count: nat, source: map<(nat, nat), Bytes>)
    ensures See(Rewrite(s, lba, count, source)) == See(s).(disk := source)
  {
    hide Overlaps, Stale;
  }

  /** Tables, and frames nobody uses, are not seen. */
  lemma {:induction false} SeeSame(s: State, s': State)
    requires s'.ptes == s.ptes && s'.common == s.common && s'.live == s.live && s'.files == s.files
      && s'.source == s.source
    requires forall k :: k in s.ptes && !s.ptes[k].device ==>
      s.ptes[k].frame in s.bytes && s.ptes[k].frame in s'.bytes && s'.bytes[s.ptes[k].frame] == s.bytes[s.ptes[k].frame]
    requires forall f :: f in s.common ==> f in s.bytes && f in s'.bytes && s'.bytes[f] == s.bytes[f]
    ensures See(s') == See(s)
  {
  }

  /** An unused frame is behind no entry. */
  lemma {:induction false} NobodyMaps(s: State, f: Frame)
    requires Inv(s) && IsUnused(s, f)
    ensures forall j :: j in s.ptes ==> s.ptes[j].frame != f
  {
    forall j | j in s.ptes ensures s.ptes[j].frame != f { EntryIs(s, j); }
  }

  lemma {:induction false} CellNow(s: State, k: (Space, Page))
    requires k in s.ptes
    ensures CellOf(s, k) == (var f := s.ptes[k].frame;
      if s.ptes[k].device then S.Device(f)
      else if f in s.common || f !in s.bytes then S.Window(f) else S.Own(s.bytes[f]))
  {
  }
}
