/**
 * The file table and its index (src/kernel/fs.c), for runs in which the disk
 * answers: finding, adding and removing names, the freed-entry list, and the
 * index remade twice the size.
 */
module FsIndex {
  import opened Base
  import opened Chains
  import opened Names
  import opened Probing
  import opened IndexLaws

  const TABLE_FIRST: nat := 64
  const TABLE_STEP: nat := 256
  const INDEX_FIRST: nat := 4

  ghost function Starts(table: seq<File>): (r: seq<nat>)
    ensures |r| == |table| && forall e :: 0 <= e < |table| ==> r[e] == table[e].start
  {
    seq(|table|, e requires 0 <= e < |table| => table[e].start)
  }

  /** The freed entries, chained through their starts. */
  ghost predicate Freed(table: seq<File>, head: nat, list: seq<nat>)
  {
    && Chain(head, list, Starts(table))
    && forall e :: e in list ==> e < |table| && table[e].name == ""
  }

  /** No entry with a record has this name. */
  ghost predicate NoEntry(table: seq<File>, lost: set<nat>, name: string)
  {
    forall e: nat :: Live(table, e) && e !in lost ==> table[e].name != name
  }

  predicate Matches(r: Record, h: nat)
  {
    Points(r) && r.hash == h
  }

  /** None of the first n records of a search is unused, or about this hash. */
  ghost predicate PassedBy(ix: seq<Record>, s: nat, h: nat, n: nat)
    requires s > 0
  {
    forall k :: 0 <= k < n && Spot(h, k, s) < |ix| ==> ix[Spot(h, k, s)].entry != 0 && !Matches(ix[Spot(h, k, s)], h)
  }

  /** Where the record of a name is met: its hash, and nothing unused before. */
  lemma {:induction false} WhereMet(ix: seq<Record>, s: nat, table: seq<File>, at: map<nat, nat>, out: set<nat>, e: nat,
      h: nat)
    requires Indexed(ix, s, table, at, out) && Live(table, e) && e !in out && h == Hash(table[e].name)
    ensures e in at && var k := Distance(h, at[e], s);
            && k < |ix| && Spot(h, k, s) == at[e] < |ix| && Matches(ix[at[e]], h) && ix[at[e]].entry == e + 1
            && forall j :: 0 <= j < k && Spot(h, j, s) < |ix| ==> ix[Spot(h, j, s)].entry != 0
  {
    hide Hash, Folder;
    SpotMet(h, at[e], s);
  }

  /** The records of one sector. */
  function Sector(ix: seq<Record>, a: nat): (r: seq<Record>)
    requires (a + 1) * RECORDS <= |ix|
    ensures |r| == RECORDS && forall j :: 0 <= j < RECORDS ==> r[j] == ix[a * RECORDS + j]
  {
    ix[a * RECORDS..(a + 1) * RECORDS]
  }

  /** Up to the first unused record of a sector: the entries whose hash matches, and whether there was one. */
  method Gather(h: nat, sector: seq<Record>) returns (candidates: seq<nat>, ended: bool)
    ensures forall j :: 0 <= j < |sector| && Matches(sector[j], h) && Unbroken(sector, j) ==>
      sector[j].entry - 1 in candidates
    ensures candidates == [] ==> forall j :: 0 <= j < |sector| && Unbroken(sector, j) ==> !Matches(sector[j], h)
    ensures ended <==> !Unbroken(sector, |sector|)
  {
    candidates := [];
    for j := 0 to |sector|
      invariant Unbroken(sector, j)
      invariant forall i :: 0 <= i < j && Matches(sector[i], h) ==> sector[i].entry - 1 in candidates
    {
      if sector[j].entry == 0 {
        return candidates, true;
      }
      if Matches(sector[j], h) {
        candidates := candidates + [sector[j].entry - 1];
      }
    }
    ended := false;
  }

  /** No unused record among the first n. */
  ghost predicate Unbroken(sector: seq<Record>, n: nat)
  {
    forall i :: 0 <= i < n && i < |sector| ==> sector[i].entry != 0
  }

  class FileTable {
    var table: seq<File>                // the entries ever used
    var tableSize: nat
    var freeHead: nat
    var index: seq<Record>
    var sectors: nat
    var taken: nat

    ghost var at: map<nat, nat>         // where each entry's record is
    ghost var lost: set<nat>            // entries a failed growth left without one
    ghost var freeList: seq<nat>
    ghost var power: nat                // sectors is two to this
    ghost var dir: map<string, nat>     // the entry of each name, while none is lost

    ghost predicate IndexValid()
      reads this`table, this`index, this`sectors, this`taken, this`at, this`lost, this`power
    {
      && Indexed(index, sectors, table, at, lost)
      && (forall e :: e in lost ==> Live(table, e))
      && power <= 32 && sectors == Pow2(power)
      && taken == Taken(index)
    }

    ghost predicate Valid()
      reads this
    {
      IndexValid() && |table| <= tableSize && Freed(table, freeHead, freeList)
    }

    /** A new, empty filesystem. */
    constructor Format()
      ensures Clean() && Files() == map[]
    {
      hide *;
      table, tableSize, freeHead := [], TABLE_FIRST, 0;
      index, sectors, taken := Unfilled(INDEX_FIRST * RECORDS), INDEX_FIRST, 0;
      at, lost, freeList, power, dir := map[], {}, [], 2, map[];
      new;
      Formatted(this);
    }

    // ---- finding

    /** The sector number i of a search for h. */
    method Load(h: nat, i: nat) returns (sector: seq<Record>)
      requires IndexValid() && i < sectors
      ensures LoadedAs(index, sectors, h, i, sector)
    {
      hide Indexed, Spot;
      var a := (h + i) % U32 % sectors;
      SectorIs(this, h, i);
      sector := Sector(index, a);
    }

    /** The first sector of a search that has a record of this hash, or an unused one. */
    method Probe(h: nat) returns (candidates: seq<nat>, ended: bool)
      requires IndexValid()
      ensures forall e: nat :: Live(table, e) && e !in lost && Hash(table[e].name) == h ==>
                e in candidates || (!ended && candidates != [])
    {
      hide FileTable.IndexValid, Hash, PassedBy, LoadedAs, Unbroken, Matches;
      NonePassed(this, h);
      for i := 0 to sectors
        invariant sectors > 0 && PassedBy(index, sectors, h, i * RECORDS)
      {
        var sector := Load(h, i);
        candidates, ended := Gather(h, sector);
        LoadedWhole(index, sectors, h, i, sector);
        if ended || candidates != [] {
          forall e: nat | Live(table, e) && e !in lost && Hash(table[e].name) == h
            ensures e in candidates || (!ended && candidates != [])
          {
            StoppedAt(this, h, i, sector, candidates, ended, e);
          }
          return;
        }
        PassedOne(this, h, i, sector);
      }
      candidates, ended := [], false;
      NobodyPassed(this, h);
    }

    /** The first of the candidates with this very name. */
    method Check(name: string, candidates: seq<nat>) returns (found: Option<nat>)
      requires name != ""
      ensures found.Some? ==> Live(table, found.value) && table[found.value].name == name
      ensures found.None? ==> forall e :: e in candidates && e < |table| ==> table[e].name != name
    {
      for i := 0 to |candidates|
        invariant forall j :: 0 <= j < i && candidates[j] < |table| ==> table[candidates[j]].name != name
      {
        if candidates[i] < |table| && table[candidates[i]].name == name {
          return Some(candidates[i]);
        }
      }
      found := None;
    }

    /** Record by record, from the hash's own sector on. */
    method FindSlowly(name: string) returns (found: Option<nat>)
      requires IndexValid() && name != ""
      ensures found.Some? ==> Live(table, found.value) && table[found.value].name == name
      ensures found.None? ==> NoEntry(table, lost, name)
    {
      hide *;
      var h := Hash(name);
      var k := 0;
      NamelessAtFirst(this, name);
      while k < sectors * RECORDS
        invariant 0 <= k <= sectors * RECORDS && sectors > 0
        invariant Nameless(index, sectors, table, h, name, k)
      {
        SlotIs(this, h, k);
        var r := index[Slot(h, k, sectors)];
        if r.entry == 0 {
          NamelessUnused(this, name, k);
          return None;
        }
        if r.entry != GONE && r.hash == h {
          var e := r.entry - 1;
          if e < |table| && table[e].name == name {
            LiveIs(table, e);
            return Some(e);
          }
        }
        NamelessMore(this, h, name, k);
        k := k + 1;
      }
      NamelessWhole(this, name);
      found := None;
    }

    /** The entry named name, through the index: a sector at a time, and record by record when that missed. */
    method Find(name: string) returns (found: Option<nat>)
      requires IndexValid() && name != ""
      ensures found.Some? ==> Live(table, found.value) && table[found.value].name == name
      ensures found.None? ==> NoEntry(table, lost, name)
    {
      hide Indexed, Hash;
      var h := Hash(name);
      var candidates, ended := Probe(h);
      found := Check(name, candidates);
      if found.Some? || ended || candidates == [] {
        return;
      }
      found := FindSlowly(name);
    }

    // ---- adding and removing records

    /** The first record of a search for h that can be used: never used, or removed. */
    method Vacancy(h: nat) returns (q: nat)
      requires IndexValid() && taken < |index|
      ensures sectors > 0 && q < |index| && !Points(index[q]) && Met(index, sectors, h, q)
    {
      hide FileTable.IndexValid, Met, Spot, Matches, LoadedAs, FullTo, Sector;
      FullNone(this, h);
      for i := 0 to sectors
        invariant sectors > 0 && FullTo(index, sectors, h, i * RECORDS)
      {
        var sector := Load(h, i);
        LoadedWhole(index, sectors, h, i, sector);
        for j := 0 to RECORDS
          invariant FullTo(index, sectors, h, i * RECORDS + j)
        {
          LoadedAt(index, sectors, h, i, sector, j);
          if sector[j].entry == 0 || sector[j].entry == GONE {
            VacantIs(this, h, i, j);
            return Spot(h, i * RECORDS + j, sectors);
          }
          FullMore(index, sectors, h, i * RECORDS + j);
        }
      }
      NeverFull(this, h);
      assert false;
    }

    /** The record of entry e, where a search for its name meets it. */
    method Occupied(name: string, e: nat) returns (q: nat)
      requires IndexValid() && Live(table, e) && e !in lost && table[e].name == name
      ensures e in at && q == at[e] && q < |index|
    {
      hide FileTable.IndexValid, Met, Spot, Distance, Matches, LoadedAs, Hash, Sector, NotYet;
      var h := Hash(name);
      NotAtFirst(this, h, e);
      for i := 0 to sectors
        invariant NotYet(index, sectors, h, e, i * RECORDS)
      {
        var sector := Load(h, i);
        LoadedWhole(index, sectors, h, i, sector);
        for j := 0 to RECORDS
          invariant NotYet(index, sectors, h, e, i * RECORDS + j)
        {
          LoadedAt(index, sectors, h, i, sector, j);
          NotUnused(this, h, e, i * RECORDS + j);
          if sector[j].entry == 0 {
            assert false;               // not there: cannot be
          } else if sector[j].entry == e + 1 {
            OnlyRecord(this, e, Spot(h, i * RECORDS + j, sectors));
            return Spot(h, i * RECORDS + j, sectors);
          }
          NotMore(index, sectors, h, e, i * RECORDS + j);
        }
      }
      MustMeet(this, h, e);
      assert false;
    }

    /** Entry e's record removed; its entry is still in the table. */
    method IndexRemove(name: string, e: nat)
      requires IndexValid() && Live(table, e) && e !in lost && table[e].name == name
      modifies this`index, this`at, this`lost
      ensures IndexValid() && e !in at && lost == old(lost) + {e} && |index| == |old(index)|
    {
      hide Indexed, Taken, Hash;
      var q := Occupied(name, e);
      Tombstoned(index, sectors, table, at, lost, e);
      index := index[q := TOMB];
      at := at - {e};
      lost := lost + {e};
    }

    /** Another record fits, or the index can be remade. */
    ghost predicate CanIndex(space: bool)
      reads this`taken, this`index, this`sectors
    {
      (taken + 1) * 2 <= |index| || (space && sectors * 2 < U32)
    }

    /** An entry is free, or the table has room for another or can be made bigger. */
    ghost predicate CanEnter(room: bool)
      reads this`freeHead, this`table, this`tableSize
    {
      freeHead != 0 || |table| < tableSize || room
    }

    /** A record for entry e, which the table has already; or the index remade, with everything in the table. */
    method IndexAdd(e: nat, memory: bool, run: bool) returns (ok: bool)
      requires IndexValid() && e in lost
      requires memory && (taken + 1) * 2 > |index| ==> |LiveFrom(table, 0)| <= 2 * |index|
      modifies this`index, this`sectors, this`taken, this`at, this`lost, this`power
      ensures IndexValid() && (ok ==> lost <= old(lost) - {e}) && (!ok ==> lost == old(lost) && taken == old(taken))
      ensures |index| >= |old(index)| && ok == old(CanIndex(memory && run))
      ensures ok && (|LiveFrom(table, 0)| <= |old(index)| || |index| == |old(index)|) ==> taken * 2 <= |index|
    {
      hide Indexed, Taken, Hash, LiveFrom;
      if (taken + 1) * 2 > |index| {
        ok := IndexGrow(memory, run);
        return;
      }
      IndexSize(this);
      var q := Vacancy(Hash(table[e].name));
      Placed(index, sectors, table, at, lost, e, q);
      if index[q].entry == 0 {
        taken := taken + 1;
      }
      index := index[q := RecordFor(table[e].name, e)];
      at := at[e := q];
      lost := lost - {e};
      ok := true;
    }

    /**
     * The index remade twice the size from the table, which ends because the entries fit it:
     * see OverfullNeverEnds. memory: there was some to remake it in; run: there was a run of sectors.
     */
    method IndexGrow(memory: bool, run: bool) returns (ok: bool)
      requires IndexValid() && (memory ==> |LiveFrom(table, 0)| <= 2 * |index|)
      modifies this`index, this`sectors, this`taken, this`at, this`lost, this`power
      ensures IndexValid() && (ok ==> lost == {} && taken == |LiveFrom(table, 0)| && |index| == 2 * |old(index)|)
      ensures !ok ==> lost == old(lost) && taken == old(taken) && index == old(index)
      ensures ok <==> memory && run && old(sectors) * 2 < U32
    {
      // A disk has fewer than 2^32 sectors, so no run of that many is ever given.
      hide Indexed, Taken, LiveFrom, Pow2;
      if !memory || sectors * 2 >= U32 {
        return false;
      }
      IndexSize(this);
      GrowPower(this);
      var ix, used, where := Remake(table, sectors * 2);
      if !run {
        return false;
      }
      assert LiveFrom(table, |table|) == {} by { LiveEnd(table, map[]); }
      index, sectors, taken := ix, sectors * 2, used;
      at, lost, power := where, {}, power + 1;
      ok := true;
    }

    // ---- entries

    /** Nothing is lost, and every name is one entry's: dir says which. */
    ghost predicate Clean()
      reads this
    {
      Valid() && lost == {} && Directory(table, dir) && taken * 2 <= |index|
    }

    /** The files there are: each name's entry, start and size. */
    ghost function Files(): map<string, Info>
      requires Clean()
      reads this
    {
      FilesOf(table, dir)
    }

    /** A freed entry, or a new one, the table grown if there is none. */
    method FreeEntry(space: bool) returns (got: Option<nat>)
      requires Valid() && |table| + 1 < GONE
      modifies this`table, this`tableSize, this`freeHead, this`freeList
      ensures Valid()
      ensures got.None? ==> table == old(table) && freeHead == old(freeHead)
      ensures got.Some? <==> old(CanEnter(space))
      ensures got.Some? ==>
        && got.value < |table| && table[got.value].name == "" && got.value !in freeList
        && (table == old(table) || table == old(table) + [File("", 0, 0)])
    {
      hide Indexed, Taken, Pow2;
      if freeHead != 0 {
        FreedFirst(table, freeHead, freeList);
        var e := freeHead - 1;
        freeHead := table[e].start;
        freeList := Without(freeList, 0);
        return Some(e);
      }
      if |table| == tableSize {
        if !space {
          return None;
        }
        tableSize := tableSize + TABLE_STEP;
      }
      Extended(index, sectors, table, at, lost);
      FreedExtended(table, freeHead, freeList);
      got := Some(|table|);
      table := table + [File("", 0, 0)];
    }

    /** An entry that has no record and is on no list written to. */
    method WriteEntry(e: nat, f: File)
      requires Valid() && e < |table| && e !in at && e !in freeList
      modifies this`table, this`lost
      ensures Valid() && table == old(table)[e := f]
      ensures lost == if f.name != "" then old(lost) + {e} else old(lost) - {e}
    {
      hide Indexed, Taken, Pow2, Freed;
      Rewritten(index, sectors, table, at, lost, e, f);
      FreedApart(table, freeHead, freeList, e, f);
      table := table[e := f];
      lost := if f.name != "" then lost + {e} else lost - {e};
    }

    /** An entry's start and size, its name kept. */
    method Update(e: nat, start: nat, size: nat)
      requires Valid() && Live(table, e)
      modifies this`table
      ensures Valid() && table == old(table)[e := File(old(table)[e].name, start, size)]
    {
      hide Indexed, Taken, Pow2, Freed;
      var f := File(table[e].name, start, size);
      NotFreed(table, freeHead, freeList, e);
      Resized(index, sectors, table, at, lost, e, f);
      FreedApart(table, freeHead, freeList, e, f);
      table := table[e := f];
    }

    /** Entry e removed: its record, then its name, then onto the freed list. */
    method DropEntry(e: nat, name: string)
      requires Valid() && Live(table, e) && e !in lost && table[e].name == name
      modifies this`table, this`index, this`freeHead, this`at, this`lost, this`freeList
      ensures Valid() && table == old(table)[e := File("", old(freeHead), 0)] && lost == old(lost)
        && |index| == |old(index)|
    {
      hide Indexed, Taken, Pow2, Freed;
      NotFreed(table, freeHead, freeList, e);
      ghost var was := lost;
      IndexRemove(name, e);
      ghost var before := table;
      WriteEntry(e, File("", freeHead, 0));
      FreedPushed(table, freeHead, freeList, e);
      freeHead := e + 1;
      freeList := [e] + freeList;
      assert lost == was;
    }

    /** Entry e's new record, for runs in which nothing was lost. */
    method Enter(e: nat, name: string, start: nat, size: nat, space: bool) returns (ok: bool)
      requires Valid() && lost == {} && name != "" && taken * 2 <= |index|
      requires e < |table| && e !in at && e !in freeList
      modifies this`table, this`index, this`sectors, this`taken, this`at, this`lost, this`power
      ensures Valid() && table == old(table)[e := File(name, start, size)]
      ensures if ok then lost == {} && taken * 2 <= |index| else lost == {e}
      ensures ok == old(CanIndex(space))
    {
      hide Indexed, Taken, Pow2, Freed;
      WriteEntry(e, File(name, start, size));
      GrowFits(this);
      ok := IndexAdd(e, space, space);
    }

    // ---- what programs ask for, by whole names

    method Lookup(name: string) returns (found: Option<nat>)
      requires Clean()
      ensures found == if name in dir then Some(dir[name]) else None
    {
      hide FileTable.IndexValid, Freed;
      if name == "" {
        return None;
      }
      found := Find(name);
    }

    /** Whether the folder holding name is there; the root always is. */
    method ParentExists(name: string) returns (there: bool)
      requires Clean()
      ensures there <==> Folder(name) == "" || Folder(name) in dir
    {
      hide Directory, FileTable.Valid, Folder;
      if Folder(name) == "" {
        return true;
      }
      var found := Lookup(Folder(name));
      there := found.Some?;
    }

    /** A file or link stored under name: over the one there, or as a new entry. start is 0 without room for it. */
    method Store(name: string, start: nat, size: nat, room: bool, space: bool) returns (status: Status)
      requires Clean() && name != "" && |table| + 1 < GONE
      modifies this
      ensures status != Lost ==> Clean()
      ensures status == if name[|name| - 1] == '/' then Invalid
                        else if Folder(name) != "" && Folder(name) !in old(Files()) then NoFolder
                        else if start == 0 then NoSpace
                        else if name in old(Files()) then Done
                        else old(Entering(room, space))
      ensures status == Done ==> Stored(old(Files()), name, start, size, Files())
      ensures status != Done && status != Lost ==> Files() == old(Files())
    {
      hide FileTable.IndexValid, Freed, Folder, Directory, FilesOf;
      FilesNamed(table, dir);
      if name[|name| - 1] == '/' {
        return Invalid;
      }
      var there := ParentExists(name);
      if !there {
        return NoFolder;
      }
      var found := Lookup(name);
      if found.Some? {
        if start == 0 {
          return NoSpace;
        }
        FilesUpdated(table, dir, name, start, size);
        Update(found.value, start, size);
        return Done;
      }
      status := Insert(name, start, size, start != 0, room, space);
    }

    /** How entering a new name ends. */
    ghost function Entering(room: bool, space: bool): Status
      reads this
    {
      if !CanEnter(room) then NoSpace else if CanIndex(space) then Done else Lost
    }

    /** A new entry for a name there is none of. */
    method Insert(name: string, start: nat, size: nat, fits: bool, room: bool, space: bool) returns (status: Status)
      requires Clean() && name != "" && name !in dir && |table| + 1 < GONE
      modifies this
      ensures status == (if fits then old(Entering(room, space)) else NoSpace) && (status != Lost ==> Clean())
      ensures status == Done ==> Stored(old(Files()), name, start, size, Files())
      ensures status == NoSpace ==> Files() == old(Files())
    {
      hide FileTable.IndexValid, Freed, Directory, FilesOf;
      var got := FreeEntry(room);
      FilesExtended(old(table), dir);
      if got.None? || !fits {
        return NoSpace;
      }
      var e := got.value;
      EntryUnrecorded(this, e);
      FilesInserted(table, dir, name, e, start, size);
      var ok := Enter(e, name, start, size, space);
      if !ok {
        return Lost;
      }
      dir := dir[name := e];
      status := Done;
    }

    /** A folder made; name ends in the slash that says so. */
    method MakeFolder(name: string, room: bool, space: bool) returns (status: Status)
      requires Clean() && |name| > 1 && name[|name| - 1] == '/' && |table| + 1 < GONE
      modifies this
      ensures status != Lost ==> Clean()
      ensures status == if name in old(Files()) || name[..|name| - 1] in old(Files()) then Exists
                        else if Folder(name) != "" && Folder(name) !in old(Files()) then NoFolder
                          else old(Entering(room, space))
      ensures status == Done ==> Stored(old(Files()), name, 0, 0, Files())
      ensures status != Done && status != Lost ==> Files() == old(Files())
    {
      hide FileTable.IndexValid, Freed, Folder, Directory, FilesOf;
      FilesNamed(table, dir);
      var taken := Lookup(name[..|name| - 1]);
      var found := Lookup(name);
      if taken.Some? || found.Some? {
        return Exists;
      }
      var there := ParentExists(name);
      if !there {
        return NoFolder;
      }
      status := Insert(name, 0, 0, true, room, space);
    }

    /** A name's entry dropped. */
    method Drop(name: string, e: nat)
      requires Clean() && name in dir && e == dir[name]
      modifies this
      ensures Clean() && Files() == old(Files()) - {name} && taken == old(taken) && sectors == old(sectors)
        && |index| == |old(index)|
    {
      hide FileTable.IndexValid, Freed, Directory, FilesOf;
      FilesDropped(table, dir, name, freeHead);
      DropEntry(e, name);
      dir := dir - {name};
    }

    /** A file gone, or a folder, spelled without its slash, with nothing left in it. */
    method Remove(name: string) returns (status: Status)
      requires Clean() && name != ""
      modifies this
      ensures var folder := if name[|name| - 1] == '/' then name else name + "/";
              Clean() && Removed(old(Files()), name, folder, status, Files())
    {
      hide FileTable.IndexValid, Freed, Directory, FilesOf, Inside;
      FilesNamed(table, dir);
      var found := Lookup(name);
      if found.Some? {
        Drop(name, found.value);
        return Done;
      }
      status := RemoveFolder(if name[|name| - 1] == '/' then name else name + "/");
    }

    /** A folder, unless something is inside it. */
    method RemoveFolder(folder: string) returns (status: Status)
      requires Clean() && folder != "" && folder[|folder| - 1] == '/'
      modifies this
      ensures Clean()
      ensures if folder !in old(Files()) then status == Missing && Files() == old(Files())
              else if exists n :: n in old(Files()) && Inside(folder, n) then status == NotEmpty
                && Files() == old(Files())
              else status == Done && Files() == old(Files()) - {folder}
    {
      hide FileTable.IndexValid, Freed, Directory, FilesOf, Inside;
      FilesNamed(table, dir);
      var found := Lookup(folder);
      if found.None? {
        return Missing;
      }
      var other, next := List(folder, 0);
      if other.Some? {
        SomethingInside(this, folder, next - 1);
        return NotEmpty;
      }
      NothingInside(this, folder);
      Drop(folder, found.value);
      status := Done;
    }

    /** A file given another name, over whatever file has that: its entry and its sectors stay where they are. */
    method Rename(was: string, dest: string, space: bool) returns (status: Status)
      requires Clean() && was != "" && dest != ""
      modifies this
      ensures status != Lost ==> Clean()
      ensures status == Renaming(old(Files()), was, dest, old(CanIndex(space)))
      ensures status == Done ==>
        was in old(Files()) &&
        Files() == if was == dest then old(Files()) else (old(Files()) - {was, dest})[dest := old(Files())[was]]
      ensures status == NoFolder ==> Files() == old(Files()) - {dest}
      ensures status in {Invalid, Missing} ==> Files() == old(Files())
    {
      hide FileTable.IndexValid, Freed, Directory, FilesOf, Folder;
      FilesNamed(table, dir);
      if was[|was| - 1] == '/' {
        return Invalid;
      }
      var found := Lookup(was);
      if found.None? {
        return Missing;
      }
      if dest[|dest| - 1] == '/' {
        return Invalid;
      }
      if was == dest {
        return Done;
      }
      FolderIsOther(dest);
      var there := Lookup(dest);
      if there.Some? {
        Drop(dest, there.value);
      }
      FilesNamed(table, dir);
      var parent := ParentExists(dest);
      if !parent {
        return NoFolder;
      }
      found := Lookup(was);
      var ok := Respell(was, dest, found.value, space);
      status := if ok then Done else Lost;
    }

    /** Entry e's record under its old name for one under its new. */
    method Respell(was: string, dest: string, e: nat, space: bool) returns (ok: bool)
      requires Clean() && was in dir && e == dir[was] && dest !in dir && dest != ""
      modifies this
      ensures ok ==> Clean() && was in old(Files()) && Files() == (old(Files()) - {was})[dest := old(Files())[was]]
      ensures ok == old(CanIndex(space))
    {
      hide FileTable.IndexValid, Freed, Directory, FilesOf;
      FilesNamed(table, dir);
      FilesRespelled(table, dir, was, dest);
      NotFreed(table, freeHead, freeList, e);
      IndexRemove(was, e);
      WriteEntry(e, File(dest, table[e].start, table[e].size));
      GrowFits(this);
      ok := IndexAdd(e, space, space);
      dir := (dir - {was})[dest := e];
    }

    /** The next entry directly inside folder, by the index from record number cursor on. */
    method List(folder: string, cursor: nat) returns (found: Option<nat>, next: nat)
      requires IndexValid() && (folder == "" || folder[|folder| - 1] == '/')
      ensures found.Some? ==>
        cursor < next <= |index| && Hit(index, table, folder, next - 1) && index[next - 1].entry == found.value + 1
      ensures found.Some? ==> forall q :: cursor <= q < next - 1 ==> !Hit(index, table, folder, q)
      ensures found.None? ==> forall q: nat :: cursor <= q ==> !Hit(index, table, folder, q)
    {
      hide Indexed, Hash, Folder, Inside, Taken;
      next := cursor;
      while next < |index|
        invariant cursor <= next
        invariant forall q :: cursor <= q < next ==> !Hit(index, table, folder, q)
      {
        var r := index[next];
        HitParent(this, folder, next);
        next := next + 1;
        if r.entry != 0 && r.entry != GONE && r.parent == Hash(folder) {
          var e := r.entry - 1;
          if e < |table| && table[e].name != "" && Inside(folder, table[e].name) {
            return Some(e), next;
          }
        }
      }
      found := None;
    }

    /** Everything directly inside folder, each entry once. */
    method ListAll(folder: string) returns (entries: seq<nat>)
      requires IndexValid() && lost == {} && (folder == "" || folder[|folder| - 1] == '/')
      ensures forall e: nat :: e in entries <==> Live(table, e) && Inside(folder, table[e].name)
      ensures forall i, j :: 0 <= i < j < |entries| ==> entries[i] != entries[j]
    {
      hide Indexed, Hash, Folder, Inside, Taken, Hit;
      entries := [];
      var cursor := 0;
      ghost var spots: seq<nat> := [];
      while true
        invariant cursor <= |index| && |spots| == |entries|
        invariant forall i :: 0 <= i < |spots| ==>
          spots[i] < cursor && Hit(index, table, folder, spots[i]) && index[spots[i]].entry == entries[i] + 1
        invariant forall i, j :: 0 <= i < j < |spots| ==> spots[i] < spots[j]
        invariant forall q :: 0 <= q < cursor && Hit(index, table, folder, q) ==> q in spots
        decreases |index| - cursor
      {
        var found, next := List(folder, cursor);
        if found.None? {
          Listed(this, folder, entries, spots);
          return;
        }
        entries := entries + [found.value];
        spots := spots + [next - 1];
        cursor := next;
      }
    }
  }

  // ---- why the search is right

  lemma {:induction false} WhereMetIn(t: FileTable, e: nat, h: nat)
    requires t.IndexValid() && Live(t.table, e) && e !in t.lost && h == Hash(t.table[e].name)
    ensures t.sectors > 0 && |t.index| == t.sectors * RECORDS && e in t.at
    ensures var k := Distance(h, t.at[e], t.sectors);
            && k < |t.index| && Spot(h, k, t.sectors) == t.at[e] < |t.index|
            && Matches(t.index[t.at[e]], h) && t.index[t.at[e]].entry == e + 1
            && forall j :: 0 <= j < k && Spot(h, j, t.sectors) < |t.index| ==> t.index[Spot(h, j, t.sectors)].entry != 0
  {
    WhereMet(t.index, t.sectors, t.table, t.at, t.lost, e, h);
  }

  lemma {:induction false} LiveIs(table: seq<File>, e: nat)
    requires e < |table| && table[e].name != ""
    ensures Live(table, e)
  {
  }

  lemma {:induction false} SlotIs(t: FileTable, h: nat, k: nat)
    requires t.IndexValid() && k < t.sectors * RECORDS
    ensures t.sectors > 0 && |t.index| == t.sectors * RECORDS
    ensures Slot(h, k, t.sectors) == Spot(h, k, t.sectors) < |t.index|
  {
    hide Sound, Complete, Pow2;
    WrapsAlike(h + k / RECORDS, t.power);
    SpotInside(h, k, t.sectors);
  }

  lemma {:induction false} SectorIs(t: FileTable, h: nat, i: nat)
    requires t.IndexValid() && i < t.sectors
    ensures var a := (h + i) % U32 % t.sectors;
            (a + 1) * RECORDS <= |t.index| && LoadedAs(t.index, t.sectors, h, i, Sector(t.index, a))
  {
    WrapsAlike(h + i, t.power);
    assert (h + i) % t.sectors <= t.sectors - 1;
    assert |t.index| == t.sectors * RECORDS;
    hide FileTable.IndexValid;
  }

  lemma {:induction false} NonePassed(t: FileTable, h: nat)
    requires t.IndexValid()
    ensures t.sectors > 0 && PassedBy(t.index, t.sectors, h, 0)
  {
  }

  /** Sector i of a search for h is what was loaded. */
  ghost predicate LoadedAs(ix: seq<Record>, s: nat, h: nat, i: nat, sector: seq<Record>)
    requires s > 0
  {
    && |sector| == RECORDS
    && forall j :: 0 <= j < RECORDS ==> SpotIn(h, i, j, s) < |ix| && sector[j] == ix[SpotIn(h, i, j, s)]
  }

  lemma {:induction false} LoadedWhole(ix: seq<Record>, s: nat, h: nat, i: nat, sector: seq<Record>)
    requires s > 0 && LoadedAs(ix, s, h, i, sector)
    ensures |sector| == RECORDS
  {
  }

  lemma {:induction false} PassedOne(t: FileTable, h: nat, i: nat, sector: seq<Record>)
    requires t.sectors > 0 && PassedBy(t.index, t.sectors, h, i * RECORDS) && LoadedAs(t.index, t.sectors, h, i, sector)
    requires Unbroken(sector, |sector|) && forall j :: 0 <= j < |sector| && Unbroken(sector, j) ==>
      !Matches(sector[j], h)
    ensures PassedBy(t.index, t.sectors, h, (i + 1) * RECORDS)
  {
    hide Spot, LoadedAs;
    forall k: nat | k < (i + 1) * RECORDS && Spot(h, k, t.sectors) < |t.index|
      ensures t.index[Spot(h, k, t.sectors)].entry != 0 && !Matches(t.index[Spot(h, k, t.sectors)], h)
    {
      if k >= i * RECORDS {
        var j := k - i * RECORDS;
        LoadedAt(t.index, t.sectors, h, i, sector, j);
        assert k == i * RECORDS + j && Unbroken(sector, j);
      }
    }
  }

  /** Where a search stopped, every entry of this hash was gathered, or the search has to go on. */
  lemma {:induction false} StoppedAt(t: FileTable, h: nat, i: nat, sector: seq<Record>, candidates: seq<nat>,
      ended: bool, e: nat)
    requires t.IndexValid() && PassedBy(t.index, t.sectors, h, i * RECORDS)
      && LoadedAs(t.index, t.sectors, h, i, sector)
    requires forall j :: 0 <= j < |sector| && Matches(sector[j], h) && Unbroken(sector, j) ==>
      sector[j].entry - 1 in candidates
    requires ended <==> !Unbroken(sector, |sector|)
    requires ended || candidates != []
    requires Live(t.table, e) && e !in t.lost && Hash(t.table[e].name) == h
    ensures e in candidates || (!ended && candidates != [])
  {
    hide FileTable.IndexValid, Spot, Distance, Hash, LoadedAs, Unbroken;
    WhereMetIn(t, e, h);
    var k := Distance(h, t.at[e], t.sectors);
    assert k >= i * RECORDS;
    var j := k - i * RECORDS;
    assert k == i * RECORDS + j;
    UnbrokenTo(t.index, t.sectors, h, i, sector, if j < RECORDS then j else RECORDS);
    LoadedWhole(t.index, t.sectors, h, i, sector);
    if j < RECORDS {
      LoadedAt(t.index, t.sectors, h, i, sector, j);
    }
  }

  lemma {:induction false} LoadedAt(ix: seq<Record>, s: nat, h: nat, i: nat, sector: seq<Record>, j: nat)
    requires s > 0 && LoadedAs(ix, s, h, i, sector) && j < RECORDS
    ensures |sector| == RECORDS && Spot(h, i * RECORDS + j, s) < |ix| && sector[j] == ix[Spot(h, i * RECORDS + j, s)]
  {
    SpotSplit(h, i, j, s);
    hide Spot, SpotIn;
  }

  lemma {:induction false} UnbrokenTo(ix: seq<Record>, s: nat, h: nat, i: nat, sector: seq<Record>, n: nat)
    requires s > 0 && LoadedAs(ix, s, h, i, sector) && n <= RECORDS
    requires forall j :: 0 <= j < i * RECORDS + n && Spot(h, j, s) < |ix| ==> ix[Spot(h, j, s)].entry != 0
    ensures Unbroken(sector, n)
  {
    hide Spot, LoadedAs;
    forall m: nat | m < n && m < |sector| ensures sector[m].entry != 0 { LoadedAt(ix, s, h, i, sector, m); }
  }

  /** A search that passed every record by has nobody of this hash to find. */
  lemma {:induction false} NobodyPassed(t: FileTable, h: nat)
    requires t.IndexValid() && PassedBy(t.index, t.sectors, h, t.sectors * RECORDS)
    ensures forall e: nat :: Live(t.table, e) && e !in t.lost ==> Hash(t.table[e].name) != h
  {
    forall e: nat | Live(t.table, e) && e !in t.lost ensures Hash(t.table[e].name) != h {
      WhereMet(t.index, t.sectors, t.table, t.at, t.lost, e, Hash(t.table[e].name));
    }
  }

  /** None of the first n records of a search is unused, or of an entry with this name. */
  ghost predicate Nameless(ix: seq<Record>, s: nat, table: seq<File>, h: nat, name: string, n: nat)
    requires s > 0
  {
    forall k :: 0 <= k < n && Spot(h, k, s) < |ix| ==>
      var r := ix[Spot(h, k, s)];
      r.entry != 0 && (Matches(r, h) && r.entry - 1 < |table| ==> table[r.entry - 1].name != name)
  }

  lemma {:induction false} NamelessAtFirst(t: FileTable, name: string)
    requires t.IndexValid()
    ensures t.sectors > 0 && Nameless(t.index, t.sectors, t.table, Hash(name), name, 0)
  {
  }

  lemma {:induction false} NamelessMore(t: FileTable, h: nat, name: string, k: nat)
    requires t.sectors > 0 && Nameless(t.index, t.sectors, t.table, h, name, k) && Spot(h, k, t.sectors) < |t.index|
    requires var r := t.index[Spot(h, k, t.sectors)];
             r.entry != 0 && (r.entry != GONE && r.hash == h && r.entry - 1 < |t.table| ==>
               t.table[r.entry - 1].name != name)
    ensures Nameless(t.index, t.sectors, t.table, h, name, k + 1)
  {
    hide Spot;
  }

  /** An entry with this name is met after the records passed, and before any never used. */
  lemma {:induction false} NamelessBefore(t: FileTable, e: nat, name: string, k: nat)
    requires t.IndexValid() && Nameless(t.index, t.sectors, t.table, Hash(name), name, k)
    requires Live(t.table, e) && e !in t.lost && t.table[e].name == name
    requires Spot(Hash(name), k, t.sectors) < |t.index|
    ensures t.index[Spot(Hash(name), k, t.sectors)].entry != 0
  {
    hide Spot, Distance, Hash, FileTable.IndexValid;
    WhereMetIn(t, e, Hash(name));
  }

  lemma {:induction false} NamelessUnused(t: FileTable, name: string, k: nat)
    requires t.IndexValid() && Nameless(t.index, t.sectors, t.table, Hash(name), name, k)
    requires Spot(Hash(name), k, t.sectors) < |t.index| && t.index[Spot(Hash(name), k, t.sectors)].entry == 0
    ensures NoEntry(t.table, t.lost, name)
  {
    hide Spot, Distance, Hash, FileTable.IndexValid;
    forall e: nat | Live(t.table, e) && e !in t.lost ensures t.table[e].name != name {
      if t.table[e].name == name { NamelessBefore(t, e, name, k); }
    }
  }

  lemma {:induction false} NamelessWhole(t: FileTable, name: string)
    requires t.IndexValid() && Nameless(t.index, t.sectors, t.table, Hash(name), name, t.sectors * RECORDS)
    ensures NoEntry(t.table, t.lost, name)
  {
    forall e: nat | Live(t.table, e) && e !in t.lost ensures t.table[e].name != name {
      WhereMet(t.index, t.sectors, t.table, t.at, t.lost, e, Hash(t.table[e].name));
      hide Spot, Distance, Hash, Sound, Complete;
    }
  }

  // ---- why records are put and found where they are

  /** The first n records of a search are all in use. */
  ghost predicate FullTo(ix: seq<Record>, s: nat, h: nat, n: nat)
    requires s > 0
  {
    forall k :: 0 <= k < n && Spot(h, k, s) < |ix| ==> Points(ix[Spot(h, k, s)])
  }

  lemma {:induction false} FullNone(t: FileTable, h: nat)
    requires t.IndexValid()
    ensures t.sectors > 0 && FullTo(t.index, t.sectors, h, 0)
  {
  }

  lemma {:induction false} FullMore(ix: seq<Record>, s: nat, h: nat, n: nat)
    requires s > 0 && FullTo(ix, s, h, n) && Spot(h, n, s) < |ix| && Points(ix[Spot(h, n, s)])
    ensures FullTo(ix, s, h, n + 1)
  {
    hide Spot;
  }

  lemma {:induction false} VacantIs(t: FileTable, h: nat, i: nat, j: nat)
    requires t.IndexValid() && i < t.sectors && j < RECORDS && FullTo(t.index, t.sectors, h, i * RECORDS + j)
    ensures Spot(h, i * RECORDS + j, t.sectors) < |t.index|
      && Met(t.index, t.sectors, h, Spot(h, i * RECORDS + j, t.sectors))
  {
    var k := i * RECORDS + j;
    SpotInside(h, k, t.sectors);
    var q := Spot(h, k, t.sectors);
    assert k < t.sectors * RECORDS;
    SpotMet(h, q, t.sectors);
    SpotOnce(h, k, Distance(h, q, t.sectors), t.sectors);
    hide Spot, Distance;
  }

  /** With a record never used, a search does not find everything in use. */
  lemma {:induction false} NeverFull(t: FileTable, h: nat)
    requires t.IndexValid() && t.taken < |t.index|
    ensures !FullTo(t.index, t.sectors, h, t.sectors * RECORDS)
  {
    var q := SomeUnused(t.index);
    SpotMet(h, q, t.sectors);
  }

  /** None of the first n records of a search is entry e's. */
  ghost predicate NotYet(ix: seq<Record>, s: nat, h: nat, e: nat, n: nat)
    requires s > 0
  {
    forall k :: 0 <= k < n && Spot(h, k, s) < |ix| ==> ix[Spot(h, k, s)].entry != e + 1
  }

  lemma {:induction false} NotAtFirst(t: FileTable, h: nat, e: nat)
    requires t.IndexValid()
    ensures t.sectors > 0 && NotYet(t.index, t.sectors, h, e, 0)
  {
  }

  lemma {:induction false} NotMore(ix: seq<Record>, s: nat, h: nat, e: nat, n: nat)
    requires s > 0 && NotYet(ix, s, h, e, n) && Spot(h, n, s) < |ix| && ix[Spot(h, n, s)].entry != e + 1
    ensures NotYet(ix, s, h, e, n + 1)
  {
    hide Spot;
  }

  /** Up to entry e's own record a search meets none never used. */
  lemma {:induction false} NotUnused(t: FileTable, h: nat, e: nat, k: nat)
    requires t.IndexValid() && Live(t.table, e) && e !in t.lost && h == Hash(t.table[e].name)
    requires NotYet(t.index, t.sectors, h, e, k) && Spot(h, k, t.sectors) < |t.index|
    ensures t.index[Spot(h, k, t.sectors)].entry != 0
  {
    hide FileTable.IndexValid, Spot, Distance, Hash;
    WhereMetIn(t, e, h);
  }

  lemma {:induction false} MustMeet(t: FileTable, h: nat, e: nat)
    requires t.IndexValid() && Live(t.table, e) && e !in t.lost && h == Hash(t.table[e].name)
    ensures !NotYet(t.index, t.sectors, h, e, t.sectors * RECORDS)
  {
    hide FileTable.IndexValid, Spot, Distance, Hash;
    WhereMetIn(t, e, h);
  }

  lemma {:induction false} OnlyRecord(t: FileTable, e: nat, q: nat)
    requires t.IndexValid() && q < |t.index| && t.index[q].entry == e + 1 && Live(t.table, e)
    ensures e in t.at && t.at[e] == q
  {
    hide Hash, Folder, Met;
  }

  // ---- remaking the index

  function Unfilled(n: nat): (r: seq<Record>)
    ensures |r| == n && forall q :: 0 <= q < n ==> r[q] == EMPTY
  {
    seq(n, _ => EMPTY)
  }

  /** The live entries from number e on. */
  ghost function LiveFrom(table: seq<File>, e: nat): set<nat>
  {
    set d | 0 <= d < |table| && e <= d && Live(table, d)
  }

  /** From a hash's own sector on, record by record, round the end. */
  method FirstUnused(ix: seq<Record>, s: nat, h: nat) returns (q: nat)
    requires s > 0 && |ix| == s * RECORDS && Taken(ix) < |ix|
    ensures q < |ix| && ix[q].entry == 0 && Met(ix, s, h, q)
  {
    ghost var z := SomeUnused(ix);
    SpotMet(h, z, s);
    SpotInside(h, 0, s);
    q := h % s * RECORDS;
    ghost var k := 0;
    assert q == Spot(h, 0, s);
    hide Taken, Spot, Distance;
    while ix[q].entry != 0
      invariant q == Spot(h, k, s) < |ix| && k <= Distance(h, z, s)
      invariant forall j :: 0 <= j < k && Spot(h, j, s) < |ix| ==> ix[Spot(h, j, s)].entry != 0
      decreases Distance(h, z, s) - k
    {
      SpotNext(h, k, s);
      WrapsOnce(q, |ix|);
      q := (q + 1) % |ix|;
      k := k + 1;
    }
    SpotMet(h, q, s);
    SpotOnce(h, k, Distance(h, q, s), s);
  }

  /** An index of s sectors with a record for every entry in the table. */
  method Remake(table: seq<File>, s: nat) returns (ix: seq<Record>, used: nat, ghost where: map<nat, nat>)
    requires s > 0 && |table| < GONE && |LiveFrom(table, 0)| <= s * RECORDS
    ensures Indexed(ix, s, table, where, LiveFrom(table, |table|)) && |ix| == s * RECORDS
    ensures used == Taken(ix) == |LiveFrom(table, 0)|
  {
    hide Taken, Hash;
    ix, used, where := Unfilled(s * RECORDS), 0, map[];
    Unindexed(s, table, ix, LiveFrom(table, 0));
    hide Indexed, LiveFrom;
    for e := 0 to |table|
      invariant Indexed(ix, s, table, where, LiveFrom(table, e)) && |ix| == s * RECORDS
      invariant used == Taken(ix) == |where| && where.Keys <= LiveFrom(table, 0)
    {
      LiveStep(table, e);
      if table[e].name != "" {
        NotPlacedYet(ix, s, table, where, LiveFrom(table, e), e);
        CountFits(where, table, e);
        var q := FirstUnused(ix, s, Hash(table[e].name));
        Placed(ix, s, table, where, LiveFrom(table, e), e, q);
        ix := ix[q := RecordFor(table[e].name, e)];
        where := where[e := q];
        used := used + 1;
      }
    }
    LiveEnd(table, where);
    AllPlaced(ix, s, table, where);
  }

  lemma {:induction false} AllPlaced(ix: seq<Record>, s: nat, table: seq<File>, where: map<nat, nat>)
    requires Indexed(ix, s, table, where, {}) && where.Keys <= LiveFrom(table, 0)
    ensures |where| == |LiveFrom(table, 0)|
  {
    hide Met, Hash;
    assert where.Keys == LiveFrom(table, 0);
  }

  lemma {:induction false} LiveStep(table: seq<File>, e: nat)
    requires e < |table|
    ensures LiveFrom(table, e + 1) == if Live(table, e) then LiveFrom(table, e) - {e} else LiveFrom(table, e)
    ensures Live(table, e) ==> e in LiveFrom(table, e) && e in LiveFrom(table, 0)
  {
  }

  lemma {:induction false} LiveEnd(table: seq<File>, where: map<nat, nat>)
    requires where.Keys <= LiveFrom(table, 0)
    ensures LiveFrom(table, |table|) == {} && |where| <= |LiveFrom(table, 0)|
  {
    Subset(where.Keys, LiveFrom(table, 0));
  }

  lemma {:induction false} Subset(a: set<nat>, b: set<nat>)
    requires a <= b
    ensures |a| <= |b|
  {
    if a != {} {
      var x :| x in a;
      Subset(a - {x}, b - {x});
    }
  }

  lemma {:induction false} NotPlacedYet(ix: seq<Record>, s: nat, table: seq<File>, at: map<nat, nat>, out: set<nat>,
      e: nat)
    requires Indexed(ix, s, table, at, out) && e in out
    ensures e !in at && s > 0 && |ix| == s * RECORDS
  {
    hide Met, Hash;
  }

  lemma {:induction false} CountFits(where: map<nat, nat>, table: seq<File>, e: nat)
    requires where.Keys <= LiveFrom(table, 0) && e in LiveFrom(table, 0) && e !in where
    ensures |where| < |LiveFrom(table, 0)|
  {
    Subset(where.Keys, LiveFrom(table, 0) - {e});
  }

  /** Distinct places are no more than there are places. */
  lemma {:induction false} Injected(at: map<nat, nat>, places: set<nat>)
    requires forall e :: e in at ==> at[e] in places
    requires forall d, e :: d in at && e in at && d != e ==> at[d] != at[e]
    ensures |at| <= |places|
    decreases |at|
  {
    if at != map[] {
      var e :| e in at;
      assert (at - {e}).Keys == at.Keys - {e};
      Injected(at - {e}, places - {at[e]});
    }
  }

  lemma {:induction false} IndexSize(t: FileTable)
    requires t.IndexValid()
    ensures t.sectors > 0 && |t.index| == t.sectors * RECORDS && |t.table| < GONE && t.taken <= |t.index|
  {
    hide Hash, Met, Pow2, Sound, Complete;
    TakenFits(t.index);
  }

  lemma {:induction false} TakenFits(ix: seq<Record>)
    ensures Taken(ix) <= |ix|
  {
    NumbersIs(|ix|);
    Subset(UsedSpots(ix), Numbers(|ix|));
  }

  ghost function Numbers(n: nat): (s: set<nat>)
  {
    if n == 0 then {} else Numbers(n - 1) + {n - 1}
  }

  lemma {:induction false} NumbersIs(n: nat)
    ensures |Numbers(n)| == n && forall q :: q in Numbers(n) <==> 0 <= q < n
  {
    if n > 0 { NumbersIs(n - 1); }
  }

  /** With nothing lost but one entry, and half of the index free, the live entries fit it. */
  lemma {:induction false} GrowFits(t: FileTable)
    requires t.IndexValid() && |t.lost| <= 1 && t.taken * 2 <= |t.index|
    ensures |LiveFrom(t.table, 0)| <= |t.index| && |t.index| >= RECORDS
  {
    IndexSize(t);
    hide Hash, Met, Pow2;
    assert LiveFrom(t.table, 0) == t.at.Keys + t.lost;
    assert |t.at| <= t.taken by { Records(t.index, t.sectors, t.table, t.at, t.lost); }
  }

  /** In a full index no search for an unused record ends: wherever it is, the record there is used. */
  lemma {:induction false} FullNeverEnds(ix: seq<Record>, q: nat)
    requires Taken(ix) == |ix| && q < |ix|
    ensures ix[q].entry != 0
  {
    if ix[q].entry == 0 {
      TakenFits(ix[q := Record(0, 0, 1)]);
      OneMoreTaken(ix, q);
    }
  }

  lemma {:induction false} OneMoreTaken(ix: seq<Record>, q: nat)
    requires q < |ix| && ix[q].entry == 0
    ensures Taken(ix[q := Record(0, 0, 1)]) == Taken(ix) + 1
  {
    var ix' := ix[q := Record(0, 0, 1)];
    assert UsedSpots(ix') == UsedSpots(ix) + {q};
  }

  /**
   * With more live entries than records, when as many are placed as there are records one is left
   * that the search is for.
   */
  lemma {:induction false} OverfullNeverEnds(ix: seq<Record>, s: nat, table: seq<File>, where: map<nat, nat>, e: nat)
    requires Indexed(ix, s, table, where, LiveFrom(table, e)) && |ix| == s * RECORDS && Taken(ix) == |where| == |ix|
    requires |LiveFrom(table, 0)| > |ix| && where.Keys <= LiveFrom(table, 0)
    ensures LiveFrom(table, 0) - where.Keys != {} && forall q :: 0 <= q < |ix| ==> ix[q].entry != 0
  {
    hide Indexed, LiveFrom, Taken;
    SomeLeft(LiveFrom(table, 0), where.Keys);
    forall q | 0 <= q < |ix| ensures ix[q].entry != 0 { FullNeverEnds(ix, q); }
  }

  lemma {:induction false} SomeLeft(a: set<nat>, b: set<nat>)
    requires |a| > |b|
    ensures a - b != {}
  {
    if a <= b {
      Subset(a, b);
    } else {
      var x :| x in a && x !in b;
      assert x in a - b;
    }
  }

  /** Names of two letters. */
  function TwoLetters(i: nat): (name: string)
    requires i < 676
  {
    [('a' as int + i / 26) as char, ('a' as int + i % 26) as char]
  }

  /** So many files in the root. */
  function Crowd(n: nat): (table: seq<File>)
    requires n <= 676
  {
    seq(n, i requires 0 <= i < n => File(TwoLetters(i), 0, 0))
  }

  /** A table the first index cannot be remade for: one file more than twice its records. */
  lemma {:induction false} FailingTable()
    ensures var n := 2 * INDEX_FIRST * RECORDS + 1; n <= 676 && |LiveFrom(Crowd(n), 0)| > 2 * (INDEX_FIRST * RECORDS)
  {
    var n := 2 * INDEX_FIRST * RECORDS + 1;
    var table := Crowd(n);
    NumbersIs(n);
    assert forall d :: 0 <= d < n ==> table[d].name == TwoLetters(d);
    assert LiveFrom(table, 0) == Numbers(n);
  }

  lemma {:induction false} Records(ix: seq<Record>, s: nat, table: seq<File>, at: map<nat, nat>, out: set<nat>)
    requires Indexed(ix, s, table, at, out)
    ensures |at| <= Taken(ix)
  {
    hide Hash, Met;
    assert forall e :: e in at ==> at[e] in UsedSpots(ix);
    Injected(at, UsedSpots(ix));
  }

  lemma {:induction false} GrowPower(t: FileTable)
    requires t.IndexValid() && t.sectors * 2 < U32
    ensures t.power < 32 && Pow2(t.power + 1) == t.sectors * 2
  {
    PowerIs();
    hide Indexed;
  }

  // ---- the freed list and the directory

  ghost predicate Directory(table: seq<File>, dir: map<string, nat>)
  {
    && (forall n :: n in dir ==> Live(table, dir[n]) && table[dir[n]].name == n)
    && (forall e: nat :: Live(table, e) ==> table[e].name in dir && dir[table[e].name] == e)
  }

  lemma {:induction false} FreedFirst(table: seq<File>, head: nat, list: seq<nat>)
    requires Freed(table, head, list) && head != 0
    ensures |list| > 0 && list[0] == head - 1 < |table| && table[head - 1].name == ""
    ensures Freed(table, table[head - 1].start, Without(list, 0)) && head - 1 !in Without(list, 0)
  {
    assert list[0] in list;
    WithoutMembers(list, 0);
    ChainCutFirst(head, list, Starts(table));
  }

  lemma {:induction false} FreedExtended(table: seq<File>, head: nat, list: seq<nat>)
    requires Freed(table, head, list)
    ensures Freed(table + [File("", 0, 0)], head, list) && |table| !in list
  {
    ChainFrame(head, list, Starts(table), Starts(table + [File("", 0, 0)]));
  }

  lemma {:induction false} FreedApart(table: seq<File>, head: nat, list: seq<nat>, e: nat, f: File)
    requires Freed(table, head, list) && e < |table| && e !in list
    ensures Freed(table[e := f], head, list)
  {
    ChainFrame(head, list, Starts(table), Starts(table[e := f]));
  }

  lemma {:induction false} FreedPushed(table: seq<File>, head: nat, list: seq<nat>, e: nat)
    requires Freed(table, head, list) && e < |table| && e !in list && table[e] == File("", head, 0)
    ensures Freed(table, e + 1, [e] + list)
  {
    ChainPush(head, list, Starts(table), e);
    assert Starts(table)[e := head] == Starts(table);
  }

  lemma {:induction false} NotFreed(table: seq<File>, head: nat, list: seq<nat>, e: nat)
    requires Freed(table, head, list) && Live(table, e)
    ensures e !in list
  {
  }

  datatype Status = Done | Invalid | NoFolder | Missing | Exists | NotEmpty | NoSpace | Lost

  lemma {:induction false} EntryUnrecorded(t: FileTable, e: nat)
    requires t.IndexValid() && e < |t.table| && t.table[e].name == ""
    ensures e !in t.at
  {
    hide Met, Hash;
  }

  datatype Info = Info(entry: nat, start: nat, size: nat)

  ghost function FilesOf(table: seq<File>, dir: map<string, nat>): map<string, Info>
  {
    map n | n in dir && dir[n] < |table| :: Info(dir[n], table[dir[n]].start, table[dir[n]].size)
  }

  /** The files with name stored: in the entry it had, or in one nobody had. */
  ghost predicate Stored(files: map<string, Info>, name: string, start: nat, size: nat, files': map<string, Info>)
  {
    exists e :: && files' == files[name := Info(e, start, size)]
                && (if name in files then files[name].entry == e else forall n :: n in files ==> files[n].entry != e)
  }

  /** How a rename ends. */
  ghost function Renaming(files: map<string, Info>, was: string, dest: string, fits: bool): Status
    requires was != "" && dest != ""
  {
    if was[|was| - 1] == '/' then Invalid
    else if was !in files then Missing
    else if dest[|dest| - 1] == '/' then Invalid
    else if was == dest then Done
    else if Folder(dest) != "" && Folder(dest) !in files then NoFolder
    else if fits then Done else Lost
  }

  lemma {:induction false} FolderIsOther(name: string)
    requires name != "" && name[|name| - 1] != '/'
    ensures Folder(name) != name
  {
  }

  /** A name that is there goes; else its folder does, if that is there and has nothing in it. */
  ghost predicate Removed(files: map<string, Info>, name: string, folder: string, status: Status,
      files': map<string, Info>)
  {
    if name in files then status == Done && files' == files - {name}
    else if folder !in files then status == Missing && files' == files
    else if exists n :: n in files && Inside(folder, n) then status == NotEmpty && files' == files
    else status == Done && files' == files - {folder}
  }

  lemma {:induction false} FilesNamed(table: seq<File>, dir: map<string, nat>)
    requires Directory(table, dir)
    ensures FilesOf(table, dir).Keys == dir.Keys
    ensures forall n :: n in dir ==> Live(table, dir[n]) && table[dir[n]].name == n
  {
  }

  lemma {:induction false} FilesUpdated(table: seq<File>, dir: map<string, nat>, name: string, start: nat, size: nat)
    requires Directory(table, dir) && name in dir
    ensures dir[name] < |table| && Directory(table[dir[name] := File(name, start, size)], dir)
    ensures table[dir[name]].name == name && Live(table, dir[name])
    ensures Stored(FilesOf(table, dir), name, start, size, FilesOf(table[dir[name] := File(name, start, size)], dir))
  {
    assert FilesOf(table[dir[name] := File(name, start, size)], dir) ==
      FilesOf(table, dir)[name := Info(dir[name], start, size)];
  }

  lemma {:induction false} FilesExtended(table: seq<File>, dir: map<string, nat>)
    requires Directory(table, dir)
    ensures Directory(table + [File("", 0, 0)], dir) && FilesOf(table + [File("", 0, 0)], dir) == FilesOf(table, dir)
  {
  }

  lemma {:induction false} FilesInserted(table: seq<File>, dir: map<string, nat>, name: string, e: nat, start: nat,
      size: nat)
    requires Directory(table, dir) && e < |table| && table[e].name == "" && name !in dir && name != ""
    ensures Directory(table[e := File(name, start, size)], dir[name := e])
    ensures Stored(FilesOf(table, dir), name, start, size, FilesOf(table[e := File(name, start, size)], dir[name := e]))
  {
    assert FilesOf(table[e := File(name, start, size)], dir[name := e])
      == FilesOf(table, dir)[name := Info(e, start, size)];
  }

  lemma {:induction false} FilesDropped(table: seq<File>, dir: map<string, nat>, name: string, start: nat)
    requires Directory(table, dir) && name in dir
    ensures dir[name] < |table| && Live(table, dir[name]) && table[dir[name]].name == name
    ensures Directory(table[dir[name] := File("", start, 0)], dir - {name})
    ensures FilesOf(table[dir[name] := File("", start, 0)], dir - {name}) == FilesOf(table, dir) - {name}
  {
  }

  lemma {:induction false} FilesRespelled(table: seq<File>, dir: map<string, nat>, was: string, dest: string)
    requires Directory(table, dir) && was in dir && dest !in dir && dest != ""
    ensures Live(table, dir[was]) && table[dir[was]].name == was && was in FilesOf(table, dir)
    ensures var e := dir[was];
            var table' := table[e := File(dest, table[e].start, table[e].size)];
            var dir' := (dir - {was})[dest := e];
            && Directory(table', dir')
            && FilesOf(table', dir') == (FilesOf(table, dir) - {was})[dest := FilesOf(table, dir)[was]]
  {
  }

  // ---- listing folders

  /** Record q is of an entry directly inside folder. */
  ghost predicate Hit(ix: seq<Record>, table: seq<File>, folder: string, q: nat)
  {
    q < |ix| && Points(ix[q]) && Live(table, ix[q].entry - 1) && Inside(folder, table[ix[q].entry - 1].name)
  }

  lemma {:induction false} HitParent(t: FileTable, folder: string, q: nat)
    requires t.IndexValid() && (folder == "" || folder[|folder| - 1] == '/')
    ensures Hit(t.index, t.table, folder, q) ==> t.index[q].parent == Hash(folder)
  {
    if Hit(t.index, t.table, folder, q) {
      InsideIsFolder(folder, t.table[t.index[q].entry - 1].name);
      hide Met, Hash, Folder, Inside;
    }
  }

  lemma {:induction false} SomethingInside(t: FileTable, folder: string, q: nat)
    requires t.Clean() && Hit(t.index, t.table, folder, q)
    ensures exists n :: n in t.Files() && Inside(folder, n)
  {
    hide Inside, Hash;
    var e := t.index[q].entry - 1;
    assert t.table[e].name in t.Files();
  }

  lemma {:induction false} NothingInside(t: FileTable, folder: string)
    requires t.Clean() && forall q: nat :: 0 <= q ==> !Hit(t.index, t.table, folder, q)
    ensures forall n :: n in t.Files() ==> !Inside(folder, n)
  {
    forall n | n in t.Files() ensures !Inside(folder, n) {
      var e := t.dir[n];
      WhereMetIn(t, e, Hash(n));
      hide Inside, Hash;
      assert !Hit(t.index, t.table, folder, t.at[e]);
    }
  }

  lemma {:induction false} Listed(t: FileTable, folder: string, entries: seq<nat>, spots: seq<nat>)
    requires t.IndexValid() && t.lost == {} && |spots| == |entries|
    requires forall i :: 0 <= i < |spots| ==>
      Hit(t.index, t.table, folder, spots[i]) && t.index[spots[i]].entry == entries[i] + 1
    requires forall i, j :: 0 <= i < j < |spots| ==> spots[i] < spots[j]
    requires forall q: nat :: Hit(t.index, t.table, folder, q) ==> q in spots
    ensures forall e: nat :: e in entries <==> Live(t.table, e) && Inside(folder, t.table[e].name)
    ensures forall i, j :: 0 <= i < j < |entries| ==> entries[i] != entries[j]
  {
    hide Inside, Hash;
    forall e: nat | Live(t.table, e) && Inside(folder, t.table[e].name) ensures e in entries {
      WhereMetIn(t, e, Hash(t.table[e].name));
      hide FileTable.IndexValid;
      assert Hit(t.index, t.table, folder, t.at[e]);
      var i :| 0 <= i < |spots| && spots[i] == t.at[e];
      assert entries[i] == e;
    }
    forall i, j | 0 <= i < j < |entries| ensures entries[i] != entries[j] {
      OnlyRecord(t, entries[i], spots[i]);
      OnlyRecord(t, entries[j], spots[j]);
    }
  }

  lemma {:induction false} Formatted(t: FileTable)
    requires t.table == [] && t.tableSize == TABLE_FIRST && t.freeHead == 0 && t.freeList == []
    requires t.index == Unfilled(INDEX_FIRST * RECORDS) && t.sectors == INDEX_FIRST && t.taken == 0
    requires t.at == map[] && t.lost == {} && t.power == 2 && t.dir == map[]
    ensures t.Clean() && t.Files() == map[]
  {
    hide Hash;
    Unindexed(INDEX_FIRST, t.table, t.index, {});
    hide Indexed, Taken;
    assert Pow2(2) == 4;
  }
}
