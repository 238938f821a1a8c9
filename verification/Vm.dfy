/**
 * The address spaces of src/kernel/vm.c, imperatively, over the shared-page
 * table of share.c: faults, copy-on-write, fork, release, discard and exit, and
 * the memory files of syscall.c that hold pages too. Memory is the kernel's own
 * (no chunks bought from the firmware), and addresses are above the first
 * gigabyte. The page allocator answers with any unused frame or, when memory may
 * be short, with none; when it may not, and frames are left, nothing is refused.
 */
module Vm {
  import opened Base
  import opened Share
  import opened Frames
  import opened Sights
  import S = Spaces
  import R = ShareRuns

  const PAGES: nat := 0x800_0000        // pages in the slot: 2^39 / 4096
  const SPACES: nat := 128

  /** The page allocator has exactly the unused frames, and every frame is a page long. */
  ghost predicate Stocked(free: set<Frame>, owner: map<Frame, Owner>, bytes: map<Frame, Bytes>)
  {
    && (forall f :: f in free <==> f in owner && owner[f] == Unused)
    && (forall f :: f in bytes ==> |bytes[f]| == S.PAGE_BYTES)
  }

  lemma {:induction false} StockTaken(free: set<Frame>, owner: map<Frame, Owner>, bytes: map<Frame, Bytes>, f: Frame,
      o: Owner, b: Bytes)
    requires Stocked(free, owner, bytes) && f in free && o != Unused && |b| == S.PAGE_BYTES
    ensures Stocked(free - {f}, owner[f := o], bytes[f := b])
    ensures f in owner && owner[f] == Unused && owner[f := o].Keys == owner.Keys
  {
  }

  lemma {:induction false} StockGiven(free: set<Frame>, owner: map<Frame, Owner>, bytes: map<Frame, Bytes>, f: Frame)
    requires Stocked(free, owner, bytes) && f in owner
    ensures Stocked(free + {f}, owner[f := Unused], bytes) && owner[f := Unused].Keys == owner.Keys
    ensures |free + {f}| >= |free|
  {
    if f in free { assert free + {f} == free; }
  }

  lemma {:induction false} StockMoved(free: set<Frame>, owner: map<Frame, Owner>, bytes: map<Frame, Bytes>, f: Frame,
      o: Owner)
    requires Stocked(free, owner, bytes) && f in owner && owner[f] != Unused && o != Unused
    ensures Stocked(free, owner[f := o], bytes)
  {
  }

  lemma {:induction false} StockFilled(free: set<Frame>, owner: map<Frame, Owner>, bytes: map<Frame, Bytes>, f: Frame,
      b: Bytes)
    requires Stocked(free, owner, bytes) && f in bytes && |b| == |bytes[f]|
    ensures Stocked(free, owner, bytes[f := b])
  {
  }

  lemma {:induction false} StockSize(free: set<Frame>, owner: map<Frame, Owner>, bytes: map<Frame, Bytes>, f: Frame)
    requires Stocked(free, owner, bytes) && f in bytes
    ensures |bytes[f]| == S.PAGE_BYTES
  {
  }

  lemma {:induction false} Start(v: Kernel, ram: set<Frame>)
    requires v.shares.Valid() && v.shares.Pages() == map[]
    requires v.ptes == map[] && v.tables == map[] && v.live == {} && v.files == map[] && v.free == ram && v.cur == None
    requires v.bytes == map f | f in ram :: S.Zero()
    requires v.owner == map f | f in ram :: Unused
    requires v.common == {} && S.FilePages(v.source)
    ensures v.Valid() && v.Sight() == S.Sight(map[], map[], map[], v.source, {})
  {
    hide SharedPages.Valid, SharedPages.Pages, S.Zero, S.FilePages;
  }

  class Kernel {
    const shares: SharedPages
    var ptes: map<(Space, Page), Pte>
    var tables: map<(Space, Table), Frame>
    var live: set<Space>
    var files: map<(nat, nat), Frame>
    var bytes: map<Frame, Bytes>
    var free: set<Frame>                // what the page allocator has
    var cur: Option<Space>
    var source: map<(nat, nat), Bytes>  // the pages of files, as the disk has them

    ghost var owner: map<Frame, Owner>
    ghost var common: set<Frame>

    ghost function St(): State
      requires shares.Valid()
      reads this, shares
    {
      State(ptes, tables, live, files, bytes, shares.Pages(), owner, common, source)
    }

    ghost predicate Valid()
      reads this, shares
    {
      && shares.Valid()
      && Inv(St())
      && Stocked(free, owner, bytes)
      && S.FilePages(source)
      && (cur.Some? ==> cur.value in live)
    }

    /** The current space. */
    function Me(): Space
      reads this`cur
    {
      if cur.Some? then cur.value else 0
    }

    ghost predicate Writable(k: (Space, Page))
      reads this`ptes
    {
      k in ptes && ptes[k].write
    }

    ghost function Sight(): (a: S.Sight)
      requires Valid()
      reads this, shares
      ensures S.Settled(a)
    {
      SettledIs(St());
      See(St())
    }

    /** A machine with memory ram, none of it used yet, and files reading as given. */
    constructor (ram: set<Frame>, source: map<(nat, nat), Bytes>)
      requires S.FilePages(source)
      ensures Valid() && Sight() == S.Sight(map[], map[], map[], source, {}) && free == ram && fresh(shares)
    {
      hide *;
      shares := new SharedPages();
      ptes, tables, live, files, free, cur := map[], map[], {}, map[], ram, None;
      bytes := map f | f in ram :: S.Zero();
      owner := map f | f in ram :: Unused;
      common := {};
      this.source := source;
      new;
      Start(this, ram);
    }

    // ---- single moves

    method Give(k: (Space, Page), f: Frame, b: Bytes)
      requires Valid() && f in free && k !in ptes && (k.0, Leaf(k.1 / 512)) in tables && |b| == S.PAGE_BYTES
      modifies this`ptes, this`bytes, this`free, this`owner
      ensures free == old(free) - {f}
      ensures Valid() && St() == Frames.Give(old(St()), k, f, b)
      ensures Sight() == old(Sight()).(cells := old(Sight()).cells[k := S.Own(b)])
    {
      hide Inv, Stocked, Cells, Commons, S.Settled, SharedPages.Valid, SharedPages.Pages;
      StockTaken(free, owner, bytes, f, Mapped(k), b);
      GiveKeeps(St(), k, f, b);
      SeeGive(St(), k, f, b);
      ptes := ptes[k := Pte(f, true, false, false)];
      bytes := bytes[f := b];
      free := free - {f};
      owner := owner[f := Mapped(k)];
    }

    method MakeTable(t: (Space, Table), f: Frame)
      requires Valid() && f in free && t !in tables && MayAdd(St(), t)
      modifies this`tables, this`bytes, this`free, this`owner, this`live
      ensures free == old(free) - {f}
      ensures Valid() && St() == AddTable(old(St()), t, f, S.Zero()) && owner.Keys == old(owner).Keys
      ensures Sight() == old(Sight()).(live := old(live) + {t.0})
    {
      hide Inv, Stocked, Cells, Commons, MayAdd, SharedPages.Valid, SharedPages.Pages, S.Zero;
      StockTaken(free, owner, bytes, f, Owner.Tabled(t), S.Zero());
      AddTableKeeps(St(), t, f, S.Zero());
      SeeAddTable(St(), t, f, S.Zero());
      tables := tables[t := f];
      bytes := bytes[f := S.Zero()];
      free := free - {f};
      owner := owner[f := Owner.Tabled(t)];
      live := live + {t.0};
    }

    method Unmap(k: (Space, Page))
      requires Valid() && k in ptes
      modifies this`ptes, this`free, this`owner, this`common, shares
      ensures Valid() && ptes == old(ptes) - {k} && old(free) <= free && |old(free)| <= |free|
        && owner.Keys == old(owner).Keys
      ensures S.Becomes(old(Sight()), old(Sight()).cells - {k}, Sight())
    {
      hide Inv, Stocked, Cells, Commons, S.Settled, SharedPages.Valid, SharedPages.Pages;
      ghost var s := St();
      UnmapKeeps(s, k);
      SeeUnmap(s, k);
      EntryIs(s, k);
      var e := ptes[k];
      if !e.device {
        if e.shared {
          TrackedRoom(shares, e.frame);
          var freed := shares.Drop(e.frame);
          if freed {
            StockGiven(free, owner, bytes, e.frame);
            free := free + {e.frame};
            owner := owner[e.frame := Unused];
            common := common - {e.frame};
          }
        } else {
          StockGiven(free, owner, bytes, e.frame);
          free := free + {e.frame};
          owner := owner[e.frame := Unused];
        }
      }
      ptes := ptes - {k};
      assert St() == Frames.Unmap(s, k);
    }

    /** A lone holder's page made its own again; false if someone else has it too. */
    method TakeBack(k: (Space, Page)) returns (ok: bool)
      requires Valid() && k in ptes && ptes[k].shared
      modifies this`ptes, this`owner, this`common, shares
      ensures Valid() && old(ptes)[k].frame in bytes
      ensures if ok then S.Becomes(old(Sight()), old(Sight()).cells[k := S.Own(bytes[old(ptes)[k].frame])], Sight())
              else Sight() == old(Sight())
      ensures ok ==> Writable(k)
      ensures !ok ==> ptes == old(ptes)
    {
      hide Inv, Stocked, Cells, Commons, S.Settled, SharedPages.Valid, SharedPages.Pages;
      ghost var s := St();
      EntryIs(s, k);
      TrackedRoom(shares, ptes[k].frame);
      var f := ptes[k].frame;
      ok := shares.Take(f);
      if ok {
        TakeBackKeeps(s, k);
        SeeTakeBack(s, k);
        StockMoved(free, owner, bytes, f, Mapped(k));
        ptes := ptes[k := Pte(f, true, false, false)];
        owner := owner[f := Mapped(k)];
        common := common - {f};
        assert St() == Frames.TakeBack(s, k);
      } else {
        assert St() == s;
      }
    }

    // ---- what the page allocator answers

    method PickPage(memory: bool) returns (f: Option<Frame>)
      ensures f.Some? ==> f.value in free
      ensures memory && free != {} ==> f.Some?
    {
      f := None;
      var granted: bool := *;
      if (memory || granted) && free != {} {
        var g :| g in free;
        f := Some(g);
      }
    }

    /** The tables over page p of space s, made where they are missing. */
    method EntryFor(s: Space, p: Page, memory: bool) returns (ok: bool)
      requires Valid() && s in live
      modifies this`tables, this`bytes, this`free, this`owner, this`live
      ensures Valid() && Sight() == old(Sight()) && owner.Keys == old(owner).Keys
      ensures |free| + 2 >= |old(free)| && (memory && |old(free)| >= 2 ==> ok)
      ensures ok ==> (s, Leaf(p / 512)) in tables
    {
      hide Inv, Stocked, Cells, Commons, S.Settled, SharedPages.Valid, SharedPages.Pages;
      var mid, leaf := (s, Mid(p / 512 / 512)), (s, Leaf(p / 512));
      RootIs(St(), s);
      if mid !in tables {
        var f := PickPage(memory);
        if f.None? { return false; }
        MakeTable(mid, f.value);
      }
      if leaf !in tables {
        var f := PickPage(memory);
        if f.None? { return false; }
        MakeTable(leaf, f.value);
      }
      ok := true;
    }

    // ---- faults and stores

    /** A write to a page every process has: the page itself if nobody else has it, or a copy. */
    method CopyOnWrite(k: (Space, Page), memory: bool) returns (ok: bool)
      requires Valid() && k in ptes && ptes[k].shared
      modifies this`ptes, this`bytes, this`free, this`owner, this`common, shares
      ensures Valid()
      ensures if ok then S.Becomes(old(Sight()), S.Touched(old(Sight()), k), Sight()) else Sight() == old(Sight())
      ensures ok ==> Writable(k)
      ensures memory && old(free) != {} ==> ok
    {
      hide Inv, Stocked, Cells, Commons, S.Settled, SharedPages.Valid, SharedPages.Pages;
      SeenAt(St(), k);
      EntryIs(St(), k);
      var f := ptes[k].frame;
      ghost var a := Sight();
      hide S.Becomes;
      ok := TakeBack(k);
      if ok { return; }
      var extra := PickPage(memory);
      if extra.None? { return false; }
      var b := bytes[f];
      StockSize(free, owner, bytes, f);
      Unmap(k);
      ghost var gone := Sight();
      Give(k, extra.value, b);
      S.Replaced(a, k, gone, S.Own(b), Sight());
      ok := true;
    }

    method Fault(p: Page, memory: bool) returns (ok: bool)
      requires Valid() && cur.Some? && p < PAGES
      modifies this`ptes, this`tables, this`live, this`bytes, this`free, this`owner, this`common, shares
      ensures Valid()
      ensures if ok then S.Becomes(old(Sight()), S.Touched(old(Sight()), (Me(), p)), Sight())
        else Sight() == old(Sight())
      ensures ok ==> Writable((Me(), p))
      ensures ok ==> S.Effect(old(Sight()), S.Touch(Me(), p), Sight())
      ensures memory && |old(free)| >= 3 ==> ok
    {
      hide Inv, Stocked, Cells, Commons, S.Settled, SharedPages.Valid, SharedPages.Pages, S.Zero;
      var k := (cur.value, p);
      ok := EntryFor(cur.value, p, memory);
      if !ok { return; }
      SeenAt(St(), k);
      if k in ptes && ptes[k].shared {
        ok := CopyOnWrite(k, memory);
        return;
      }
      if k in ptes {
        EntryIs(St(), k);
        return ptes[k].write;
      }
      var extra := PickPage(memory);
      if extra.None? { return false; }
      Give(k, extra.value, S.Zero());
      ok := true;
    }

    /** A byte stored through a writable entry. */
    method Poke(k: (Space, Page), at: nat, byte: nat)
      requires Valid() && k in ptes && ptes[k].write
      modifies this`bytes
      ensures Valid() && Sight() == S.Stored(old(Sight()), k, at, byte)
    {
      hide Inv, Stocked, Cells, Commons, S.Settled, SharedPages.Valid, SharedPages.Pages, S.Poke;
      var f := ptes[k].frame;
      EntryIs(St(), k);
      SeenAt(St(), k);
      if !ptes[k].device {
        var b := S.Poke(bytes[f], at, byte);
        WritableIs(St(), k);
        StockFilled(free, owner, bytes, f, b);
        FillKeeps(St(), f, b);
        if ptes[k].shared { SeeFillCommon(St(), f, b); } else { SeeFill(St(), k, b); }
        bytes := bytes[f := b];
      }
    }

    /** A program's store to its own memory: the fault first, where the entry does not let it through. */
    method Store(p: Page, at: nat, byte: nat, memory: bool) returns (ok: bool)
      requires Valid() && cur.Some? && p < PAGES
      modifies this`ptes, this`tables, this`live, this`bytes, this`free, this`owner, this`common, shares
      ensures Valid() && if ok then S.Effect(old(Sight()), S.Store(Me(), p, at, byte), Sight())
        else Sight() == old(Sight())
      ensures ok ==> S.Lands(old(Sight()), (Me(), p), at, byte, Sight())
      ensures memory && |old(free)| >= 3 ==> ok
    {
      hide Inv, Stocked, Cells, Commons, S.Settled, SharedPages.Valid, SharedPages.Pages, S.Poke, S.Zero, S.Lands,
        S.Sized, S.Stored, S.Effect, S.Becomes, S.Touched;
      var k := (cur.value, p);
      ghost var a := Sight();
      SeenAt(St(), k);
      SizedIs(this);
      if k in ptes { WritableIs(St(), k); EntryIs(St(), k); }
      if k !in ptes || !ptes[k].write {
        ok := Fault(p, memory);
        if !ok { return; }
        S.MadeThenStored(a, k, Sight(), at, byte);
      }
      Poke(k, at, byte);
      S.StoreIs(a, k, at, byte, Sight());
      S.StoreLands(a, k, at, byte, Sight());
      ok := true;
    }

    // ---- mapping and unmapping

    /** One more entry for a counted frame. */
    method Join(k: (Space, Page), f: Frame, write: bool)
      requires Valid() && k !in ptes && (k.0, Leaf(k.1 / 512)) in tables
      requires f in shares.Pages() && (write <==> f in common)
      modifies this`ptes, shares
      ensures Valid() && f in bytes && ptes == old(ptes)[k := Pte(f, write, true, false)]
      ensures var a := old(Sight());
              Sight() == a.(cells := a.cells[k := if f in common then S.Window(f) else S.Own(bytes[f])])
    {
      hide Inv, Stocked, Cells, Commons, S.Settled, SharedPages.Valid, SharedPages.Pages;
      JoinKeeps(St(), k, f, write);
      SeeJoin(St(), k, f, write);
      TrackedRoom(shares, f);
      shares.Hold(f);
      ptes := ptes[k := Pte(f, write, true, false)];
    }

    /** A file's page, the one every process has, mapped read-only: found, or read into a frame of its own. */
    method MapFilePage(p: Page, start: nat, index: nat, memory: bool) returns (ok: bool)
      requires Valid() && cur.Some? && p < PAGES && start != 0 && (start, index) in source
      modifies this`ptes, this`tables, this`live, this`bytes, this`free, this`owner, shares
      ensures Valid() && S.Next(old(Sight()), S.MapFile(Me(), p, (start, index)), Sight())
      ensures memory && |old(free)| >= 3 && (Me(), p) !in old(ptes) ==> ok
      ensures ok ==> S.Effect(old(Sight()), S.MapFile(Me(), p, (start, index)), Sight())
    {
      hide Inv, Stocked, Cells, Commons, S.Settled, SharedPages.Valid, SharedPages.Pages;
      var k := (cur.value, p);
      // vm_map_shared makes the tables after the page is found; only which tables a failure leaves differs.
      ok := EntryFor(cur.value, p, memory);
      SeenAt(St(), k);
      if !ok || k in ptes {
        return false;
      }
      ghost var s := St();
      var found := shares.Find(start, index);
      if found.Some? {
        var f := found.value;
        FilePageIs(s, f);
        JoinKeeps(s, k, f, false);
        SeeJoin(s, k, f, false);
        ptes := ptes[k := Pte(f, false, true, false)];
        assert St() == Frames.Join(s, k, f, false);
        return true;
      }
      ok := ImportPage(k, start, index, source[(start, index)], memory);
    }

    method ImportPage(k: (Space, Page), start: nat, index: nat, data: Bytes, memory: bool) returns (ok: bool)
      requires Valid() && k !in ptes && (k.0, Leaf(k.1 / 512)) in tables && start != 0 && |data| == S.PAGE_BYTES
      requires (start, index) in source && source[(start, index)] == data
      modifies this`ptes, this`bytes, this`free, this`owner, shares
      ensures Valid() && (memory && old(free) != {} ==> ok)
      ensures Sight() == if ok then old(Sight()).(cells := old(Sight()).cells[k := S.Own(data)]) else old(Sight())
    {
      hide Inv, Stocked, Cells, Commons, S.Settled, SharedPages.Valid, SharedPages.Pages;
      var extra := PickPage(memory);
      if extra.None? { return false; }
      var f := extra.value;
      ghost var s := St();
      StockTaken(free, owner, bytes, f, Counted, data);
      FrameKnown(s, k, f);
      var granted: bool := *;
      ok := shares.Add(start, index, f, memory || granted);
      if ok {
        ImportKeeps(s, k, f, (start, index), data);
        SeeImport(s, k, f, (start, index), data);
        ptes := ptes[k := Pte(f, false, true, false)];
        bytes := bytes[f := data];
        free := free - {f};
        owner := owner[f := Counted];
        assert St() == Import(s, k, f, (start, index), data);
      } else {
        assert St() == s;
      }
    }

    /** A memory file's page mapped writable: memory shared on purpose. */
    method MapCommonPage(p: Page, m: (nat, nat), memory: bool) returns (ok: bool)
      requires Valid() && cur.Some? && p < PAGES && m in files
      modifies this`ptes, this`tables, this`live, this`bytes, this`free, this`owner, shares
      ensures Valid() && S.Next(old(Sight()), S.MapMemory(Me(), p, m), Sight())
      ensures memory && |old(free)| >= 2 && (Me(), p) !in old(ptes) ==> ok
      ensures ok ==> S.Effect(old(Sight()), S.MapMemory(Me(), p, m), Sight())
    {
      hide Inv, Stocked, Cells, Commons, S.Settled, SharedPages.Valid, SharedPages.Pages;
      var k := (cur.value, p);
      ok := EntryFor(cur.value, p, memory);
      SeenAt(St(), k);
      if !ok || k in ptes {
        return false;
      }
      SettledMemory(St(), m);
      Join(k, files[m], true);
    }

    /** Device memory, which is no frame of the machine's own, mapped over whatever was there. */
    method MapDevicePage(p: Page, f: Frame, memory: bool) returns (ok: bool)
      requires Valid() && cur.Some? && p < PAGES && f !in owner
      modifies this`ptes, this`tables, this`live, this`bytes, this`free, this`owner, this`common, shares
      ensures Valid() && if ok then S.Effect(old(Sight()), S.MapDevice(Me(), p, f), Sight())
        else Sight() == old(Sight())
      ensures memory && |old(free)| >= 2 ==> ok
    {
      hide Inv, Stocked, Cells, Commons, S.Settled, SharedPages.Valid, SharedPages.Pages;
      var k := (cur.value, p);
      ok := EntryFor(cur.value, p, memory);
      if !ok { return; }
      ghost var a := Sight();
      if k in ptes {
        Unmap(k);
      }
      SetDevice(k, f);
    }

    method SetDevice(k: (Space, Page), f: Frame)
      requires Valid() && k !in ptes && f !in owner && (k.0, Leaf(k.1 / 512)) in tables
      modifies this`ptes
      ensures Valid() && Sight() == old(Sight()).(cells := old(Sight()).cells[k := S.Device(f)])
      ensures ptes == old(ptes)[k := Pte(f, true, false, true)]
    {
      hide Inv, Stocked, Cells, Commons, S.Settled, SharedPages.Valid, SharedPages.Pages;
      MapDeviceKeeps(St(), k, f);
      SeeMapDevice(St(), k, f);
      ptes := ptes[k := Pte(f, true, false, true)];
    }

    /** Pages first .. last of the current space let go of, whatever they are. */
    method Release(first: Page, last: Page)
      requires Valid() && cur.Some? && first <= last
      modifies this`ptes, this`free, this`owner, this`common, shares
      ensures Valid() && S.Effect(old(Sight()), S.Release(Me(), first, last), Sight())
    {
      hide Inv, Stocked, Cells, Commons, S.Settled, SharedPages.Valid, SharedPages.Pages;
      ghost var a := Sight();
      var p := first;
      while p < last
        invariant first <= p <= last && Valid()
        invariant S.Becomes(a, map k | k in a.cells && !S.In(k, cur.value, first, p) :: a.cells[k], Sight())
      {
        var k := (cur.value, p);
        SeenAt(St(), k);
        if k in ptes {
          Unmap(k);
        }
        p := p + 1;
      }
    }

    /** Pages first .. last given back where they are the current space's own. */
    method Discard(first: Page, last: Page)
      requires Valid() && cur.Some? && first <= last
      modifies this`ptes, this`free, this`owner, this`common, shares
      ensures Valid() && S.Effect(old(Sight()), S.Discard(Me(), first, last), Sight())
      ensures ptes == Kept(old(ptes), Me(), first, last)
    {
      hide Inv, Stocked, Cells, Commons, S.Settled, SharedPages.Valid, SharedPages.Pages;
      ghost var a := Sight();
      var p := first;
      KeptAll(ptes, cur.value, first);
      while p < last
        invariant first <= p <= last && Valid()
        invariant S.Effect(a, S.Discard(cur.value, first, last), Sight())
          && ptes == Kept(old(ptes), cur.value, first, p)
      {
        var k := (cur.value, p);
        SeenAt(St(), k);
        KeptNext(old(ptes), cur.value, first, p);
        if k in ptes && Private(ptes[k]) {
          Unmap(k);
        }
        p := p + 1;
      }
    }

    // ---- spaces

    method NewSpace(c: Space, memory: bool) returns (ok: bool)
      requires Valid() && c !in live
      modifies this`tables, this`live, this`bytes, this`free, this`owner
      ensures Valid() && S.Next(old(Sight()), S.New(c), Sight())
      ensures ok <==> c in live
      ensures memory && old(free) != {} && |old(live)| < SPACES ==> ok
      ensures |free| + 1 >= |old(free)| && (|old(live)| == SPACES ==> !ok)
      ensures ok ==> S.Effect(old(Sight()), S.New(c), Sight())
      ensures Sight() == old(Sight()).(live := if ok then old(live) + {c} else old(live))
    {
      hide Inv, Stocked, Cells, Commons, S.Settled, SharedPages.Valid, SharedPages.Pages;
      if |live| == SPACES { return false; }
      var extra := PickPage(memory);
      if extra.None? { return false; }
      NoRoot(St(), c);
      MakeTable((c, Root), extra.value);
      ok := true;
    }

    /** What the current space has at page p, in space c too: shared from now on where it can be, or copied. */
    method ForkPage(c: Space, p: Page, memory: bool) returns (ok: bool)
      requires Valid() && cur.Some? && c in live && c != cur.value && (cur.value, p) in ptes && (c, p) !in ptes
      modifies this`ptes, this`tables, this`live, this`bytes, this`free, this`owner, shares
      ensures Valid() && (memory && |old(free)| >= 2 ==> ok && |free| + 2 >= |old(free)|)
      ensures Sight() == if ok then S.Copied(old(Sight()), (Me(), p), (c, p)) else old(Sight())
    {
      hide Inv, Stocked, Cells, Commons, S.Settled, SharedPages.Valid, SharedPages.Pages;
      var k, to := (cur.value, p), (c, p);
      ok := EntryFor(c, p, memory);
      if !ok { return; }
      SeenAt(St(), k);
      EntryIs(St(), k);
      if ptes[k].device {
        SetDevice(to, ptes[k].frame);
        return;
      }
      if !ptes[k].shared {
        AdoptPage(k, memory);
      }
      SeenAt(St(), k);
      EntryIs(St(), k);
      if ptes[k].shared {
        WritableIs(St(), k);
        Join(to, ptes[k].frame, ptes[k].write);
        return;
      }
      var extra := PickPage(memory);
      if extra.None? { return false; }
      StockSize(free, owner, bytes, ptes[k].frame);
      Give(to, extra.value, bytes[ptes[k].frame]);
    }

    /** A private page handed to the shared-page table, if that has room for it. */
    method AdoptPage(k: (Space, Page), memory: bool)
      requires Valid() && k in ptes && Private(ptes[k])
      modifies this`ptes, this`owner, shares
      ensures Valid() && Sight() == old(Sight()) && k in ptes && ptes[k].frame == old(ptes)[k].frame
      ensures ptes.Keys == old(ptes).Keys && (memory ==> ptes[k].shared)
    {
      hide Inv, Stocked, Cells, Commons, S.Settled, SharedPages.Valid, SharedPages.Pages;
      var f := ptes[k].frame;
      ghost var s := St();
      EntryIs(s, k);
      var granted: bool := *;
      var ok := shares.Adopt(f, memory || granted);
      if ok {
        AdoptKeeps(s, k);
        SeeAdopt(s, k);
        StockMoved(free, owner, bytes, f, Counted);
        ptes := ptes[k := Pte(f, false, true, false)];
        owner := owner[f := Counted];
        assert St() == Frames.Adopt(s, k);
      } else {
        assert St() == s;
      }
    }

    /** Every page of the current space, one by one, until memory runs out. */
    method ForkPages(c: Space, memory: bool) returns (ok: bool, ghost done: set<Page>)
      requires Valid() && cur.Some? && c in live && c != cur.value && forall k :: k in ptes ==> k.0 != c
      modifies this`ptes, this`tables, this`live, this`bytes, this`free, this`owner, shares
      ensures Valid()
      ensures Sight() == PartCopied(old(Sight()), Me(), c, done)
      ensures memory && |old(free)| >= 2 * |Mappings(old(ptes), Me())| ==> ok
      ensures ok ==> AllOf(old(Sight()).cells, Me(), done)
    {
      hide Inv, Stocked, Cells, Commons, S.Settled, SharedPages.Valid, SharedPages.Pages;
      ghost var a := Sight();
      var s := cur.value;
      var todo := Mappings(ptes, s);
      ghost var n := |todo|;
      done, ok := {}, true;
      SeenAll(St());
      PartNone(a.cells, s, c);
      while todo != {} && ok
        invariant Valid()
        invariant memory && |old(free)| >= 2 * n ==> ok && |free| >= 2 * |todo|
        invariant Sight() == a.(cells := a.cells + Part(a.cells, s, c, done))
        invariant forall p :: p in done <==> (s, p) in a.cells && (s, p) !in todo
        invariant forall k :: k in todo ==> k.0 == s && k in a.cells
        decreases todo, ok
      {
        var k :| k in todo;
        SeenAt(St(), k);
        SeenAt(St(), (c, k.1));
        PartGrows(a.cells, s, c, done, k.1);
        ok := ForkPage(c, k.1, memory);
        if ok {
          todo := todo - {k};
          done := done + {k.1};
        }
      }
    }

    /** A child space with everything the current one has; or nothing made, if memory runs out. */
    method Fork(c: Space, memory: bool) returns (ok: bool)
      requires Valid() && cur.Some? && c !in live
      modifies this`ptes, this`tables, this`live, this`bytes, this`free, this`owner, this`common, shares
      ensures Valid() && S.Next(old(Sight()), S.Fork(Me(), c), Sight())
      ensures ok <==> c in live
      ensures ok ==> S.Effect(old(Sight()), S.Fork(Me(), c), Sight())
      ensures memory && |old(live)| < SPACES && |old(free)| >= 1 + 2 * |Mappings(old(ptes), Me())| ==> ok
    {
      hide Inv, Stocked, Cells, Commons, S.Settled, SharedPages.Valid, SharedPages.Pages;
      ghost var a := Sight();
      NotLive(St(), c);
      ok := NewSpace(c, memory);
      if !ok { return; }
      ghost var done;
      ok, done := ForkPages(c, memory);
      if !ok {
        PartUndone(a, cur.value, c, done);
        FreeSpace(c);
        S.BecomesItself(a, Sight());
      } else {
        PartWhole(a.cells, cur.value, c, done);
      }
    }

    // ---- letting a space go

    method CutTable(t: (Space, Table))
      requires Valid() && t in tables && Bare(St(), t) && !t.1.Root?
      modifies this`tables, this`free, this`owner
      ensures Valid() && Sight() == old(Sight()) && tables == old(tables) - {t}
    {
      hide Inv, Stocked, Cells, Commons, S.Settled, SharedPages.Valid, SharedPages.Pages, Bare;
      CutTableKeeps(St(), t);
      SeeCutTable(St(), t);
      TableFrame(St(), t);
      StockGiven(free, owner, bytes, tables[t]);
      free := free + {tables[t]};
      owner := owner[tables[t] := Unused];
      tables := tables - {t};
    }

    method CutRoot(s: Space)
      requires Valid() && (s, Root) in tables && Bare(St(), (s, Root)) && (cur.Some? ==> cur.value != s)
      modifies this`tables, this`free, this`owner, this`live
      ensures Valid() && Sight() == old(Sight()).(live := old(live) - {s})
    {
      hide Inv, Stocked, Cells, Commons, S.Settled, SharedPages.Valid, SharedPages.Pages, Bare;
      var t := (s, Root);
      CutTableKeeps(St(), t);
      SeeCutTable(St(), t);
      TableFrame(St(), t);
      StockGiven(free, owner, bytes, tables[t]);
      free := free + {tables[t]};
      owner := owner[tables[t] := Unused];
      tables := tables - {t};
      live := live - {s};
    }

    /** Every page of space s let go of. */
    method DropPages(s: Space)
      requires Valid()
      modifies this`ptes, this`free, this`owner, this`common, shares
      ensures Valid() && (forall k :: k in ptes ==> k.0 != s)
      ensures S.Becomes(old(Sight()), Still(old(Sight()).cells, s, {}), Sight())
    {
      hide Inv, Stocked, Cells, Commons, S.Settled, S.Becomes, Still, SharedPages.Valid, SharedPages.Pages;
      ghost var a := Sight();
      var todo := set k | k in ptes && k.0 == s;
      SeenAll(St());
      StillAll(a.cells, s, todo);
      S.Unchanged(a);
      while todo != {}
        invariant Valid()
        invariant forall k :: k in todo <==> k in ptes && k.0 == s
        invariant Sight().cells == Still(a.cells, s, todo)
        invariant S.Becomes(a, Sight().cells, Sight())
        decreases |todo|
      {
        var k :| k in todo;
        ghost var b := Sight();
        Unmap(k);
        StillLess(a.cells, s, todo, k);
        S.BecomesThen(a, b, b.cells - {k}, Sight());
        S.CellsAre(b, b.cells - {k}, Sight());
        todo := todo - {k};
      }
    }

    /** And its tables, lowest first, all but the top one. */
    method DropTables(s: Space)
      requires Valid() && forall k :: k in ptes ==> k.0 != s
      modifies this`tables, this`free, this`owner
      ensures Valid() && Sight() == old(Sight())
      ensures forall t :: t in tables && t.0 == s ==> t.1.Root?
    {
      hide Inv, Stocked, Cells, Commons, S.Settled, SharedPages.Valid, SharedPages.Pages;
      var todo := set t | t in tables && t.0 == s && t.1.Leaf?;
      while todo != {}
        invariant Valid() && Sight() == old(Sight())
        invariant forall t :: t in todo <==> t in tables && t.0 == s && t.1.Leaf?
        decreases |todo|
      {
        var t :| t in todo;
        CutTable(t);
        todo := todo - {t};
      }
      todo := set t | t in tables && t.0 == s && t.1.Mid?;
      while todo != {}
        invariant Valid() && Sight() == old(Sight())
        invariant forall t :: t in todo <==> t in tables && t.0 == s && t.1.Mid?
        invariant forall t :: t in tables && t.0 == s ==> !t.1.Leaf?
        decreases |todo|
      {
        var t :| t in todo;
        CutTable(t);
        todo := todo - {t};
      }
    }

    /** A space that is not the current one gone, with everything it had. */
    method FreeSpace(s: Space)
      requires Valid() && s in live && (cur.Some? ==> cur.value != s)
      modifies this`ptes, this`tables, this`live, this`free, this`owner, this`common, shares
      ensures Valid() && S.Effect(old(Sight()), S.Exit(s), Sight()) && s !in live
    {
      hide Inv, Stocked, Cells, Commons, S.Settled, SharedPages.Valid, SharedPages.Pages;
      StillNone(Sight().cells, s);
      hide Still;
      DropPages(s);
      DropTables(s);
      RootIs(St(), s);
      CutRoot(s);
    }

    method Use(s: Space)
      requires Valid() && s in live
      modifies this`cur
      ensures Valid() && cur == Some(s) && Sight() == old(Sight())
    {
      hide Inv, Stocked, See, S.Settled, SharedPages.Valid, SharedPages.Pages;
      cur := Some(s);
    }

    /** vm_space_free, for any space. */
    method Exit(s: Space)
      requires Valid() && s in live
      modifies this`cur, this`ptes, this`tables, this`live, this`free, this`owner, this`common, shares
      ensures Valid() && S.Effect(old(Sight()), S.Exit(s), Sight())
    {
      hide Inv, Stocked, See, S.Effect, S.Settled, S.Becomes, SharedPages.Valid, SharedPages.Pages;
      if cur == Some(s) {
        cur := None;
      }
      FreeSpace(s);
    }

    // ---- memory files, and the disk

    /** An unused frame f made page m of a memory file, if the shared-page table has room. */
    method AdoptMemory(m: (nat, nat), f: Frame, memory: bool) returns (ok: bool)
      requires Valid() && m !in files && f in free
      modifies this`files, this`bytes, this`free, this`owner, this`common, shares
      ensures Valid() && ok == (m in files) && (memory ==> ok)
      ensures if ok then Sight() == old(Sight()).(common := old(Sight()).common[f := S.Zero()],
        memory := old(Sight()).memory[m := f])
              else Sight() == old(Sight())
      ensures f !in old(Sight()).common
    {
      hide Inv, Stocked, Cells, Commons, S.Settled, S.Zero, SharedPages.Valid, SharedPages.Pages;
      ghost var s := St();
      StockTaken(free, owner, bytes, f, Counted, S.Zero());
      UnusedFrame(s, f);
      SeeAddFile(s, m, f, S.Zero());
      var granted: bool := *;
      ok := shares.Adopt(f, memory || granted);
      if ok {
        AddFileKeeps(s, m, f, S.Zero());
        files := files[m := f];
        bytes := bytes[f := S.Zero()];
        free := free - {f};
        owner := owner[f := Counted];
        common := common + {f};
        assert St() == AddFilePage(s, m, f, S.Zero());
      } else {
        assert St() == s;
      }
    }

    /** Page m of a memory file, made empty if it is not there yet. */
    method MemoryPage(m: (nat, nat), memory: bool) returns (ok: bool)
      requires Valid()
      modifies this`files, this`bytes, this`free, this`owner, this`common, shares
      ensures Valid() && S.Next(old(Sight()), S.MemoryNew(m), Sight()) && ok == (m in files)
      ensures memory && old(free) != {} ==> ok
      ensures ok && m !in old(files) ==> S.Effect(old(Sight()), S.MemoryNew(m), Sight())
    {
      hide Inv, Stocked, Cells, Commons, S.Settled, S.Zero, SharedPages.Valid, SharedPages.Pages;
      if m in files { return true; }
      var extra := PickPage(memory);
      if extra.None? { return false; }
      ok := AdoptMemory(m, extra.value, memory);
    }

    method MemoryPoke(m: (nat, nat), at: nat, byte: nat)
      requires Valid() && m in files
      modifies this`bytes
      ensures Valid() && S.Effect(old(Sight()), S.MemoryStore(m, at, byte), Sight())
    {
      hide Inv, Stocked, Cells, Commons, S.Settled, S.Poke, SharedPages.Valid, SharedPages.Pages;
      var f := files[m];
      SettledMemory(St(), m);
      CommonIs(St(), f);
      CommonAt(St(), f);
      var b := S.Poke(bytes[f], at, byte);
      StockFilled(free, owner, bytes, f, b);
      FillKeeps(St(), f, b);
      SeeFillCommon(St(), f, b);
      bytes := bytes[f := b];
    }

    method CutMemory(m: (nat, nat))
      requires Valid() && m in files
      modifies this`files, this`free, this`owner, this`common, shares
      ensures Valid() && files == old(files) - {m}
      ensures S.Becomes(old(Sight()).(memory := old(files) - {m}), old(Sight()).cells, Sight())
    {
      hide Inv, Stocked, Cells, Commons, S.Settled, SharedPages.Valid, SharedPages.Pages;
      ghost var s := St();
      CutFileKeeps(s, m);
      SeeCutFile(s, m);
      var f := files[m];
      FrameIsCounted(s, f);
      RefsAre(s, f);
      FrameBytes(s, f);
      TrackedRoom(shares, f);
      var freed := shares.Drop(f);
      if freed {
        StockGiven(free, owner, bytes, f);
        free := free + {f};
        owner := owner[f := Unused];
        common := common - {f};
      }
      files := files - {m};
      assert St() == CutFilePage(s, m);
    }

    /** A memory file closed for the last time: its pages let go of. */
    method MemoryClose(id: nat)
      requires Valid()
      modifies this`files, this`free, this`owner, this`common, shares
      ensures Valid() && S.Effect(old(Sight()), S.MemoryClose(id), Sight())
    {
      hide Inv, Stocked, Cells, Commons, S.Settled, S.Becomes, StillOf, SharedPages.Valid, SharedPages.Pages;
      ghost var a := Sight();
      var todo := set m | m in files && m.0 == id;
      StillOfAll(a.memory, id, todo);
      S.Unchanged(a);
      while todo != {}
        invariant Valid()
        invariant forall m :: m in todo <==> m in files && m.0 == id
        invariant files == StillOf(a.memory, id, todo)
        invariant S.Becomes(a.(memory := files), a.cells, Sight())
        decreases |todo|
      {
        var m :| m in todo;
        ghost var b := Sight();
        ghost var was := files;
        CutMemory(m);
        StillOfLess(a.memory, id, todo, m);
        S.MemoryThen(a, was, b, files, Sight());
        todo := todo - {m};
      }
      StillOfNone(a.memory, id);
    }

    /**
     * Sectors written: what files hold there is now different, and pages read from there are
     * out of date. The tracked pages are still what their files are if and only if no page
     * the sectors meet, and whose bytes changed, is one at which the test wraps.
     */
    method DiskWritten(lba: nat, count: nat, now: map<(nat, nat), Bytes>)
      requires Valid() && S.FilePages(now) && lba < U32 && 0 < count <= U32 && S.OnlyThere(source, lba, count, now)
      modifies this`source, shares
      ensures Valid() <==> NoneSlip(old(shares.Pages()), lba, count, old(source), now)
      ensures Valid() ==> Sight() == old(Sight()).(disk := now)
      ensures Valid() ==> S.Effect(old(Sight()), S.DiskWritten(lba, count, now), Sight())
      ensures S.NoneWrap(old(source), lba, count) ==> Valid()
    {
      hide Inv, Stocked, Cells, Commons, S.Settled, SharedPages.Valid, SharedPages.Pages, Overlaps, NoneMissed,
        NoneSlip, S.OnlyThere, S.NoneWrap;
      ghost var s := St();
      RewriteKeeps(s, lba, count, now);
      SeeRewrite(s, lba, count, now);
      SlipIsMissed(s, lba, count, now);
      shares.Written(lba, count);
      source := now;
      assert St() == Rewrite(s, lba, count, now);
    }

    // ---- whole runs

    /** The event makes sense as things are, and there are frames enough for it. */
    ghost predicate Affords(e: S.Event)
      reads this
    {
      match e
      case Touch(s, p) => s in live && p < PAGES && |free| >= 3
      case Store(s, p, _, _) => s in live && p < PAGES && |free| >= 3
      case MapFile(s, p, m) => s in live && p < PAGES && m in source && m.0 != 0 && (s, p) !in ptes && |free| >= 3
      case MapMemory(s, p, m) => s in live && p < PAGES && m in files && (s, p) !in ptes && |free| >= 2
      case MapDevice(s, p, f) => s in live && p < PAGES && f !in bytes && |free| >= 2
      case Release(s, first, last) => s in live && first <= last
      case Discard(s, first, last) => s in live && first <= last
      case New(s) => s !in live && |live| < SPACES && free != {}
      case Fork(s, c) => s in live && c !in live && |live| < SPACES && |free| >= 1 + 2 * |Mappings(ptes, s)|
      case Exit(s) => s in live
      case MemoryNew(m) => m !in files && free != {}
      case MemoryStore(m, _, _) => m in files
      case MemoryClose(_) => true
      case DiskWritten(lba, count, now) =>
        S.FilePages(now) && lba < U32 && 0 < count <= U32 && S.OnlyThere(source, lba, count, now)
        && S.NoneWrap(source, lba, count)
    }

    /** Any event at all, done or refused; and done where it makes sense and memory is there for it. */
    method Do(e: S.Event, memory: bool)
      requires Valid()
      modifies this, shares
      ensures Valid() && S.Next(old(Sight()), e, Sight())
      ensures memory && old(Affords(e)) ==> S.Effect(old(Sight()), e, Sight())
      ensures e.Discard? && old(Affords(e)) ==> ptes == Kept(old(ptes), e.space, e.first, e.last)
    {
      hide S.Effect, S.Next;
      hide Inv, Stocked, See, S.Settled, S.Becomes, S.Stored, S.CommonPoked, SharedPages.Valid, SharedPages.Pages;
      ghost var a := Sight();
      S.SelfNext(a, e);
      match e {
        case Touch(s, p) =>
          if s in live && p < PAGES { Use(s); var ok := Fault(p, memory); }
        case Store(s, p, at, byte) =>
          if s in live && p < PAGES { Use(s); var ok := Store(p, at, byte, memory); }
        case MapFile(s, p, m) =>
          if s in live && p < PAGES && m in source && m.0 != 0 { Use(s); var ok := MapFilePage(p, m.0, m.1, memory); }
        case MapMemory(s, p, m) =>
          if s in live && p < PAGES && m in files { Use(s); var ok := MapCommonPage(p, m, memory); }
        case MapDevice(s, p, f) =>
          if s in live && p < PAGES && f !in bytes { OwnerKeys(St(), f); Use(s); var ok := MapDevicePage(p, f, memory);
            }
        case Release(s, first, last) =>
          if s in live && first <= last { Use(s); Release(first, last); }
        case Discard(s, first, last) =>
          if s in live && first <= last { Use(s); Discard(first, last); }
        case New(s) =>
          if s !in live { var ok := NewSpace(s, memory); }
        case Fork(s, c) =>
          if s in live && c !in live { Use(s); var ok := Fork(c, memory); }
        case Exit(s) =>
          if s in live { Exit(s); }
        case MemoryNew(m) =>
          var ok := MemoryPage(m, memory);
        case MemoryStore(m, at, byte) =>
          if m in files { MemoryPoke(m, at, byte); }
        case MemoryClose(id) =>
          MemoryClose(id);
        case DiskWritten(lba, count, now) =>
          if S.FilePages(now) && lba < U32 && 0 < count <= U32 && S.OnlyThere(source, lba, count, now)
            && S.NoneWrap(source, lba, count) {
            DiskWritten(lba, count, now);
          }
      }
      S.EffectNext(a, e, Sight());
    }

    /** Any run of events, from any reachable machine, is a run of the simple machine. */
    method Run(events: seq<S.Event>, memory: nat -> bool) returns (ghost seen: seq<S.Sight>)
      requires Valid()
      modifies this, shares
      ensures Valid() && S.Run(seen, events) && seen[0] == old(Sight()) && seen[|events|] == Sight()
      ensures forall i :: 0 <= i <= |events| ==> S.Sized(seen[i])
      ensures forall t :: t in old(live) && Idle(t, events) ==> S.Only(Sight(), t) == old(S.Only(Sight(), t))
    {
      hide Inv, Stocked, Cells, Commons, S.Settled, S.Next, SharedPages.Valid, SharedPages.Pages, S.Only, Idle, S.Run,
        S.Sized;
      SizedIs(this);
      seen := [Sight()];
      for i := 0 to |events|
        invariant Valid() && |seen| == i + 1 && seen[0] == old(Sight()) && seen[i] == Sight()
        invariant forall j :: 0 <= j < i ==> S.Next(seen[j], events[j], seen[j + 1])
        invariant forall j :: 0 <= j <= i ==> S.Settled(seen[j]) && S.Sized(seen[j])
      {
        Do(events[i], memory(i));
        SizedIs(this);
        seen := seen + [Sight()];
      }
      RunIs(seen, events);
      forall t | t in old(live) && Idle(t, events) ensures S.Only(Sight(), t) == S.Only(seen[0], t) {
        IdleIs(t, events);
        S.RunIsolates(seen, events, t);
      }
    }
  }

  /** The places where space s has a page. */
  function Mappings(ptes: map<(Space, Page), Pte>, s: Space): (ks: set<(Space, Page)>)
  {
    set k | k in ptes && k.0 == s
  }

  /** Every page seen is a page long. */
  lemma {:induction false} SizedIs(v: Kernel)
    requires v.Valid()
    ensures S.Sized(v.Sight())
  {
    hide Inv, SharedPages.Valid, SharedPages.Pages, S.Settled;
  }

  /** No event is done in t's name. */
  ghost predicate Idle(t: Space, events: seq<S.Event>)
  {
    forall i :: 0 <= i < |events| ==> t !in S.Actor(events[i])
  }

  lemma {:induction false} IdleIs(t: Space, events: seq<S.Event>)
    requires Idle(t, events)
    ensures forall i :: 0 <= i < |events| ==> t !in S.Actor(events[i])
  {
  }

  lemma {:induction false} RunIs(seen: seq<S.Sight>, events: seq<S.Event>)
    requires |seen| == |events| + 1
    requires forall i :: 0 <= i < |events| ==> S.Next(seen[i], events[i], seen[i + 1])
    requires forall i :: 0 <= i < |seen| ==> S.Settled(seen[i])
    ensures S.Run(seen, events)
  {
    hide S.Next, S.Settled;
  }

  // ---- writes to the disk

  /** No tracked page that the sectors meet, and whose bytes changed, is one at which the test wraps. */
  ghost predicate NoneSlip(tracked: map<nat, Tracked>, lba: nat, count: nat, was: map<(nat, nat), Bytes>,
      now: map<(nat, nat), Bytes>)
  {
    forall f :: f in tracked && tracked[f].key.Some? ==> Holds(tracked[f].key.value, lba, count, was, now)
  }

  ghost predicate Holds(m: (nat, nat), lba: nat, count: nat, was: map<(nat, nat), Bytes>, now: map<(nat, nat), Bytes>)
  {
    R.Meets(S.FirstSector(m), lba, count) && R.Wraps(S.FirstSector(m), lba, count) ==> Unchanged(was, now, m)
  }

  /** That is exactly that the test misses none. */
  lemma {:induction false} SlipIsMissed(s: State, lba: nat, count: nat, now: map<(nat, nat), Bytes>)
    requires Inv(s) && S.FilePages(s.source) && lba < U32 && 0 < count <= U32 && S.OnlyThere(s.source, lba, count, now)
    ensures NoneMissed(s.tracked, lba, count, s.source, now) <==> NoneSlip(s.tracked, lba, count, s.source, now)
    ensures S.NoneWrap(s.source, lba, count) ==> NoneSlip(s.tracked, lba, count, s.source, now)
  {
    hide Inv, Overlaps, R.Wraps;
    forall f | f in s.tracked && s.tracked[f].key.Some?
      ensures var m := s.tracked[f].key.value;
        && m in s.source && (Holds(m, lba, count, s.source, now) <==>
           (!Overlaps(m.0, m.1, lba, count) ==> Unchanged(s.source, now, m)))
    {
      var m := s.tracked[f].key.value;
      FilePageIs(s, f);
      R.OverlapsExactly(m.0, m.1, lba, count);
      R.MeetsIs(S.FirstSector(m), lba, count);
      hide R.Meets, R.Touching;
    }
  }

  /** The write that the test misses leaves a page tracked that is no longer its file's. */
  lemma {:induction false} MissedWrite(s: State, f: Frame, now: map<(nat, nat), Bytes>)
    requires Inv(s) && f in s.tracked && s.tracked[f].key == Some((U32 - 8, 0))
      && !Unchanged(s.source, now, (U32 - 8, 0))
    ensures R.Meets(U32 - 8, U32 - 8, 7) && !Inv(Rewrite(s, U32 - 8, 7, now))
  {
    R.OverlapsMisses();
    RewriteKeeps(s, U32 - 8, 7, now);
    hide Inv;
  }

  /** Entries but for those of private pages first .. last of s. */
  ghost function Kept(ptes: map<(Space, Page), Pte>, s: Space, first: Page, last: Page): map<(Space, Page), Pte>
  {
    map k | k in ptes && !(S.In(k, s, first, last) && Private(ptes[k])) :: ptes[k]
  }

  lemma {:induction false} KeptAll(ptes: map<(Space, Page), Pte>, s: Space, first: Page)
    ensures Kept(ptes, s, first, first) == ptes
  {
  }

  lemma {:induction false} KeptNext(ptes: map<(Space, Page), Pte>, s: Space, first: Page, p: Page)
    requires first <= p
    ensures var now, k := Kept(ptes, s, first, p), (s, p);
      Kept(ptes, s, first, p + 1) == if k in now && Private(now[k]) then now - {k} else now
  {
  }

  /** A writable entry leads to its space's own page, to memory shared on purpose, or to a device. */
  lemma {:induction false} WritableIs(s: State, k: (Space, Page))
    requires Inv(s) && k in s.ptes
    ensures s.ptes[k].shared ==> (s.ptes[k].write <==> s.ptes[k].frame in s.common)
    ensures !s.ptes[k].shared ==> s.ptes[k].write
  {
    hide Exact, Owned, Walkable;
  }

  lemma {:induction false} RootIs(s: State, a: Space)
    requires Inv(s) && a in s.live
    ensures (a, Root) in s.tables
  {
    hide Exact, Owned, Flagged;
  }

  /** What a space has at k, told from its entry. */
  lemma {:induction false} SeenAt(s: State, k: (Space, Page))
    requires Inv(s)
    ensures k in Cells(s) <==> k in s.ptes
    ensures k in s.ptes ==> !s.ptes[k].device ==>
      s.ptes[k].frame in s.bytes &&
      Cells(s)[k] == if s.ptes[k].frame in s.common then S.Window(s.ptes[k].frame) else S.Own(s.bytes[s.ptes[k].frame])
    ensures k in s.ptes && s.ptes[k].device ==> Cells(s)[k] == S.Device(s.ptes[k].frame)
    ensures k in s.ptes && s.ptes[k].frame in s.common && !s.ptes[k].device ==>
      s.ptes[k].frame in Commons(s) && Commons(s)[s.ptes[k].frame] == s.bytes[s.ptes[k].frame]
    ensures k in s.ptes && Private(s.ptes[k]) ==> s.ptes[k].frame !in s.common
  {
    hide Inv;
    if k in s.ptes { EntryIs(s, k); }
  }

  /** A page found by its file key is nobody's but the file's, and holds what the file does. */
  lemma {:induction false} FilePageIs(s: State, f: Frame)
    requires Inv(s) && f in s.tracked && s.tracked[f].key.Some?
    ensures f !in s.common && f in s.bytes
    ensures s.tracked[f].key.value in s.source && s.bytes[f] == s.source[s.tracked[f].key.value]
  {
    hide Exact, Walkable, Owned;
  }

  lemma {:induction false} NoRoot(s: State, c: Space)
    requires Inv(s) && c !in s.live
    ensures (c, Root) !in s.tables
  {
    hide Exact, Owned, Flagged;
  }

  lemma {:induction false} SeenAll(s: State)
    requires Inv(s)
    ensures Cells(s).Keys == s.ptes.Keys
  {
  }

  /** The pages in done of space s, as space c's. */
  ghost function Part(cells: map<(Space, Page), S.Cell>, s: Space, c: Space, done: set<Page>)
      : map<(Space, Page), S.Cell>
  {
    map k | k in (set p | p in done :: (c, p)) && (s, k.1) in cells :: cells[(s, k.1)]
  }

  ghost function PartCopied(a: S.Sight, s: Space, c: Space, done: set<Page>): S.Sight
  {
    a.(cells := a.cells + Part(a.cells, s, c, done))
  }

  ghost predicate AllOf(cells: map<(Space, Page), S.Cell>, s: Space, done: set<Page>)
  {
    forall p :: p in done <==> (s, p) in cells
  }

  lemma {:induction false} PartNone(cells: map<(Space, Page), S.Cell>, s: Space, c: Space)
    ensures cells + Part(cells, s, c, {}) == cells
  {
  }

  lemma {:induction false} NotLive(s: State, c: Space)
    requires Inv(s) && c !in s.live
    ensures forall k :: k in s.ptes ==> k.0 != c
  {
    hide Exact, Owned, Flagged;
  }

  lemma {:induction false} PartGrows(cells: map<(Space, Page), S.Cell>, s: Space, c: Space, done: set<Page>, p: Page)
    requires (s, p) in cells && p !in done && c != s
    ensures (s, p) in cells + Part(cells, s, c, done)
    ensures (cells + Part(cells, s, c, done))[(s, p)] == cells[(s, p)]
    ensures (c, p) !in cells ==> (c, p) !in cells + Part(cells, s, c, done)
    ensures cells + Part(cells, s, c, done + {p}) == (cells + Part(cells, s, c, done))[(c, p) := cells[(s, p)]]
  {
    var a, b := cells + Part(cells, s, c, done + {p}), (cells + Part(cells, s, c, done))[(c, p) := cells[(s, p)]];
    forall k | k in b ensures k in a && a[k] == b[k] {
      if k != (c, p) && k in Part(cells, s, c, done) { assert k in Part(cells, s, c, done + {p}); }
      if k == (c, p) { assert k in Part(cells, s, c, done + {p}); }
    }
  }

  lemma {:induction false} PartWhole(cells: map<(Space, Page), S.Cell>, s: Space, c: Space, done: set<Page>)
    requires forall p :: p in done <==> (s, p) in cells
    ensures Part(cells, s, c, done) == S.Copies(cells, s, c)
  {
  }

  lemma {:induction false} PartUndone(a: S.Sight, s: Space, c: Space, done: set<Page>)
    requires S.Settled(a) && c !in a.live
    ensures (map k | k in a.cells + Part(a.cells, s, c, done)
      && k.0 != c :: (a.cells + Part(a.cells, s, c, done))[k]) == a.cells
    ensures a.live + {c} - {c} == a.live
  {
    hide S.Had;
  }

  lemma {:induction false} TableFrame(s: State, t: (Space, Table))
    requires Inv(s) && t in s.tables
    ensures s.tables[t] in s.owner && s.tables[t] in s.bytes
  {
    hide Exact, Flagged, Walkable;
  }

  /** The cells of other spaces, and those of space s still to do. */
  ghost function Still(cells: map<(Space, Page), S.Cell>, s: Space, todo: set<(Space, Page)>)
      : map<(Space, Page), S.Cell>
  {
    map k | k in cells && (k.0 != s || k in todo) :: cells[k]
  }

  lemma {:induction false} StillAll(cells: map<(Space, Page), S.Cell>, s: Space, todo: set<(Space, Page)>)
    requires forall k :: k in cells && k.0 == s ==> k in todo
    ensures Still(cells, s, todo) == cells
  {
  }

  lemma {:induction false} StillLess(cells: map<(Space, Page), S.Cell>, s: Space, todo: set<(Space, Page)>,
      k: (Space, Page))
    requires k.0 == s
    ensures Still(cells, s, todo - {k}) == Still(cells, s, todo) - {k}
  {
  }

  lemma {:induction false} StillNone(cells: map<(Space, Page), S.Cell>, s: Space)
    ensures Still(cells, s, {}) == map k | k in cells && k.0 != s :: cells[k]
  {
  }

  lemma {:induction false} UnusedFrame(s: State, f: Frame)
    requires Inv(s) && IsUnused(s, f)
    ensures f !in s.tracked && f in s.bytes
  {
    hide Exact, Flagged, Walkable;
  }

  lemma {:induction false} CommonAt(s: State, f: Frame)
    requires f in s.common && f in s.bytes
    ensures f in Commons(s) && Commons(s)[f] == s.bytes[f]
  {
  }

  lemma {:induction false} RefsAre(s: State, f: Frame)
    requires Inv(s) && f in s.tracked
    ensures s.tracked[f].refs >= 1
  {
    hide Owned, Flagged, Walkable;
  }

  ghost function StillOf(memory: map<(nat, nat), Frame>, id: nat, todo: set<(nat, nat)>): map<(nat, nat), Frame>
  {
    map m | m in memory && (m.0 != id || m in todo) :: memory[m]
  }

  lemma {:induction false} StillOfAll(memory: map<(nat, nat), Frame>, id: nat, todo: set<(nat, nat)>)
    requires forall m :: m in memory && m.0 == id ==> m in todo
    ensures StillOf(memory, id, todo) == memory
  {
  }

  lemma {:induction false} StillOfLess(memory: map<(nat, nat), Frame>, id: nat, todo: set<(nat, nat)>, m: (nat, nat))
    requires m.0 == id
    ensures StillOf(memory, id, todo - {m}) == StillOf(memory, id, todo) - {m}
  {
  }

  lemma {:induction false} StillOfNone(memory: map<(nat, nat), Frame>, id: nat)
    ensures StillOf(memory, id, {}) == map m | m in memory && m.0 != id :: memory[m]
  {
  }

  lemma {:induction false} OwnerKeys(s: State, f: Frame)
    requires Inv(s) && f !in s.bytes
    ensures f !in s.owner
  {
    hide Exact, Flagged, Walkable;
  }

  // ---- what the invariant says outright

  /**
   * In every reachable state a counted frame's refs are its shared entries, in any space, plus its
   * memory-file places.
   */
  lemma {:induction false} ReferenceCounts(v: Kernel, f: Frame)
    requires v.Valid() && f in v.shares.Pages()
    ensures v.shares.Pages()[f].refs ==
      |set k | k in v.ptes && v.ptes[k].shared && v.ptes[k].frame == f| + |set m | m in v.files && v.files[m] == f| > 0
  {
    hide Owned, Flagged, Walkable, SharedPages.Valid, SharedPages.Pages;
    assert v.shares.Pages()[f].refs == Holders(v.St(), f) > 0;
    assert Mappers(v.ptes, f) == set k | k in v.ptes && v.ptes[k].shared && v.ptes[k].frame == f;
    assert Keepers(v.files, f) == set m | m in v.files && v.files[m] == f;
  }

  /** A shared entry lets a store through exactly if its frame is shared on purpose. */
  lemma {:induction false} SharedWritable(v: Kernel, k: (Space, Page))
    requires v.Valid() && k in v.ptes && v.ptes[k].shared
    ensures v.ptes[k].write <==> v.Sight().cells[k].Window?
  {
    hide Exact, Owned, Walkable, SharedPages.Valid, SharedPages.Pages;
    EntryIs(v.St(), k);
  }

  /** A frame that is neither shared nor a device's is behind exactly one entry of one space. */
  lemma {:induction false} PrivateFrames(v: Kernel, k: (Space, Page), j: (Space, Page))
    requires v.Valid() && k in v.ptes && j in v.ptes && Private(v.ptes[k])
    ensures v.ptes[j].frame == v.ptes[k].frame ==> j == k
  {
    hide Inv, SharedPages.Valid, SharedPages.Pages;
    NobodyElse(v.St(), k);
  }

  /** No frame is lost and none is in two places: each is unused, or counted, or one space's page, or one table. */
  lemma {:induction false} FramesConserved(v: Kernel, f: Frame)
    requires v.Valid() && f in v.bytes
    ensures var uses := (if f in v.free then 1 else 0) + (if f in v.shares.Pages() then 1 else 0)
                      + |set k | k in v.ptes && Private(v.ptes[k]) && v.ptes[k].frame == f|
                      + |set t | t in v.tables && v.tables[t] == f|;
            uses == 1
  {
    hide Exact, Flagged, Walkable, SharedPages.Valid, SharedPages.Pages;
    var P := set k | k in v.ptes && Private(v.ptes[k]) && v.ptes[k].frame == f;
    var T := set t | t in v.tables && v.tables[t] == f;
    match v.owner[f]
    case Unused => assert P == {} && T == {};
    case Counted => assert P == {} && T == {};
    case Mapped(k) => assert P == {k} && T == {};
    case Tabled(t) => assert P == {} && T == {t};
  }
}
