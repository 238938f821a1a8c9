/**
 * The sectors read last (src/kernel/fs.c), kept in a few slots that are written
 * through: whatever is done, a sector read is the sector on the disk.
 */
module SectorCache {
  type Sector = seq<nat>
  const RECENT: nat := 4
  const RECENT_MAX: nat := 8

  /** A slot with a sector's number holds that sector as the disk has it, apart from slot except. */
  ghost predicate Agrees(disk: seq<Sector>, recent: seq<Sector>, lbas: seq<nat>, except: int)
  {
    |recent| == |lbas| && forall i :: 0 <= i < |lbas| && i != except && lbas[i] != 0 ==> Shown(disk, recent[i], lbas[i])
  }

  ghost predicate Shown(disk: seq<Sector>, s: Sector, lba: nat)
  {
    lba < |disk| && s == disk[lba]
  }

  /** No sector is in two slots. */
  ghost predicate Single(lbas: seq<nat>)
  {
    forall i, j :: 0 <= i < j < |lbas| && lbas[i] != 0 ==> lbas[i] != lbas[j]
  }

  function Written(disk: seq<Sector>, lba: nat, data: seq<Sector>): (d: seq<Sector>)
    requires lba + |data| <= |disk|
    ensures |d| == |disk| && forall q :: 0 <= q < |d| ==> d[q] == if lba <= q < lba + |data| then data[q - lba]
      else disk[q]
  {
    disk[..lba] + data + disk[lba + |data|..]
  }

  class Cache {
    var disk: seq<Sector>
    var recent: seq<Sector>
    var lbas: seq<nat>
    var used: seq<nat>
    var clock: nat
    /** The slot in use. */
    var at: nat

    ghost predicate Sized()
      reads this
    {
      |recent| == |lbas| == |used| && at < |recent|
    }

    /** Between operations. */
    ghost predicate Valid()
      reads this
    {
      Sized() && Agrees(disk, recent, lbas, -1) && Single(lbas)
    }

    /** While the sector in use, which is sector lba, is being changed. */
    ghost predicate Editing(lba: nat)
      reads this
    {
      Sized() && Agrees(disk, recent, lbas, at) && Single(lbas) && 0 < lba < |disk| && lbas[at] == lba
    }

    constructor (disk: seq<Sector>)
      ensures Valid() && this.disk == disk && |recent| == RECENT
    {
      this.disk := disk;
      recent, lbas, used := seq(RECENT, _ => []), seq(RECENT, _ => 0), seq(RECENT, _ => 0);
      clock, at := 0, 0;
    }

    /** The slot used longest ago. */
    method Oldest() returns (old_: nat)
      requires Sized()
      ensures old_ < |used| && forall i :: 0 <= i < |used| ==> used[old_] <= used[i]
    {
      old_ := 0;
      for i := 1 to |used|
        invariant old_ < |used| && forall j :: 0 <= j < i ==> used[old_] <= used[j]
      {
        if used[i] < used[old_] {
          old_ := i;
        }
      }
    }

    /** That slot emptied: somewhere to put a sector together. */
    method Scratch()
      requires Valid()
      modifies this`lbas, this`used, this`clock, this`at
      ensures Valid() && lbas == old(lbas)[at := 0] && clock == old(clock) + 1 && used == old(used)[at := clock]
      ensures forall i :: 0 <= i < |used| ==> old(used)[at] <= old(used)[i]
    {
      var slot := Oldest();
      clock := clock + 1;
      lbas := lbas[slot := 0];
      used := used[slot := clock];
      at := slot;
    }

    /** Sector lba in use, as a read of the disk would show it; false if the disk does not answer. */
    method Load(lba: nat, answers: bool) returns (ok: bool)
      requires Valid() && lba < |disk|
      modifies this`recent, this`lbas, this`used, this`clock, this`at
      ensures Valid() && |recent| == |old(recent)|
      ensures ok ==> recent[at] == disk[lba] && lbas[at] == lba
      ensures answers ==> ok
      ensures ok && !answers ==> lba in old(lbas)
    {
      hide Agrees, Single;
      var i := 0;
      while i < |lbas|
        invariant 0 <= i <= |lbas| && forall j :: 0 <= j < i ==> lbas[j] != lba || lba == 0
      {
        if lbas[i] == lba && lba != 0 {
          HeldIs(disk, recent, lbas, i);
          clock := clock + 1;
          used := used[i := clock];
          at := i;
          return true;
        }
        i := i + 1;
      }
      NotHeld(lbas, lba);
      Scratch();
      if !answers {
        return false;
      }
      Filled(disk, recent, lbas, at, lba);
      recent := recent[at := disk[lba]];
      lbas := lbas[at := lba];
      ok := true;
    }

    /** The sector in use changed in place. */
    method Edit(lba: nat, s: Sector)
      requires Valid() && 0 < lba < |disk| && lbas[at] == lba
      modifies this`recent
      ensures Editing(lba) && recent == old(recent)[at := s]
    {
      recent := recent[at := s];
    }

    /** And written: when that fails the disk may have anything there, and the sector is forgotten. */
    method PutEdited(lba: nat, works: bool, garbage: Sector) returns (ok: bool)
      requires Editing(lba)
      modifies this`disk, this`lbas
      ensures Valid() && ok == works && |disk| == |old(disk)|
      ensures disk == old(disk)[lba := if ok then recent[at] else garbage]
    {
      hide Agrees, Single;
      EditedApart(lbas, at, lba);
      if works {
        EditedWritten(disk, recent, lbas, at, lba);
        disk := disk[lba := recent[at]];
      } else {
        Forgotten(disk, recent, lbas, at, lba, garbage);
        disk := disk[lba := garbage];
        lbas := lbas[at := 0];
      }
      ok := works;
    }

    /** Sectors written from elsewhere; what the slots had of them is forgotten first. */
    method PutMany(lba: nat, data: seq<Sector>, works: bool, garbage: seq<Sector>) returns (ok: bool)
      requires Valid() && lba + |data| <= |disk| && |garbage| == |data|
      modifies this`disk, this`lbas
      ensures Valid() && ok == works && disk == Written(old(disk), lba, if ok then data else garbage)
    {
      hide Agrees, Single, Written;
      var kept := lbas;
      for i := 0 to |lbas|
        invariant |kept| == |lbas|
        invariant forall j :: 0 <= j < i ==> kept[j] == if lba <= lbas[j] < lba + |data| then 0 else lbas[j]
        invariant forall j :: i <= j < |lbas| ==> kept[j] == lbas[j]
      {
        if lba <= lbas[i] < lba + |data| {
          kept := kept[i := 0];
        }
      }
      var now := if works then data else garbage;
      Outside(disk, recent, lbas, kept, lba, now);
      lbas := kept;
      disk := Written(disk, lba, now);
      ok := works;
    }

    /** A sector put together in an emptied slot and written: no slot holds what was there before. */
    method PutScratch(lba: nat, s: Sector, works: bool, garbage: Sector) returns (ok: bool)
      requires Valid() && lbas[at] == 0 && lba < |disk|
      modifies this`recent, this`disk, this`lbas
      ensures Valid() && ok == works && disk == Written(old(disk), lba, [if ok then s else garbage])
    {
      recent := recent[at := s];
      ok := PutMany(lba, [recent[at]], works, [garbage]);
    }

    /** More slots, or fewer: all of them empty. */
    method Resize(slow: bool)
      requires Valid()
      modifies this`recent, this`lbas, this`used, this`at
      ensures Valid() && |recent| == if slow then RECENT_MAX else RECENT
    {
      var n, was := if slow then RECENT_MAX else RECENT, used;
      recent, lbas, used, at := seq(n, _ => []), seq(n, _ => 0), seq(n, i => if 0 <= i < |was| then was[i] else 0), 0;
    }
  }

  lemma {:induction false} HeldIs(disk: seq<Sector>, recent: seq<Sector>, lbas: seq<nat>, i: nat)
    requires Agrees(disk, recent, lbas, -1) && i < |lbas| && lbas[i] != 0
    ensures Shown(disk, recent[i], lbas[i])
  {
  }

  lemma {:induction false} NotHeld(lbas: seq<nat>, lba: nat)
    requires forall j :: 0 <= j < |lbas| ==> lbas[j] != lba || lba == 0
    ensures lba == 0 || lba !in lbas
  {
  }

  lemma {:induction false} Filled(disk: seq<Sector>, recent: seq<Sector>, lbas: seq<nat>, at: nat, lba: nat)
    requires Agrees(disk, recent, lbas, -1) && Single(lbas) && at < |lbas| && lba < |disk|
    requires lba == 0 || lba !in lbas
    ensures Agrees(disk, recent[at := disk[lba]], lbas[at := lba], -1) && Single(lbas[at := lba])
  {
    var l := lbas[at := lba];
    forall i, j | 0 <= i < j < |l| && l[i] != 0 ensures l[i] != l[j] {
      assert lbas[i] in lbas && lbas[j] in lbas;
    }
  }

  /** The sector in use is in no other slot. */
  lemma {:induction false} EditedApart(lbas: seq<nat>, at: nat, lba: nat)
    requires Single(lbas) && at < |lbas| && lbas[at] == lba != 0
    ensures forall i :: 0 <= i < |lbas| && i != at ==> lbas[i] != lba
  {
  }

  lemma {:induction false} EditedWritten(disk: seq<Sector>, recent: seq<Sector>, lbas: seq<nat>, at: nat, lba: nat)
    requires Agrees(disk, recent, lbas, at) && at < |lbas| && lbas[at] == lba && 0 < lba < |disk|
    requires forall i :: 0 <= i < |lbas| && i != at ==> lbas[i] != lba
    ensures Agrees(disk[lba := recent[at]], recent, lbas, -1)
  {
  }

  lemma {:induction false} Forgotten(disk: seq<Sector>, recent: seq<Sector>, lbas: seq<nat>, at: nat, lba: nat,
      s: Sector)
    requires Agrees(disk, recent, lbas, at) && Single(lbas) && at < |lbas| && lbas[at] == lba && 0 < lba < |disk|
    requires forall i :: 0 <= i < |lbas| && i != at ==> lbas[i] != lba
    ensures Agrees(disk[lba := s], recent, lbas[at := 0], -1) && Single(lbas[at := 0])
  {
  }

  lemma {:induction false} Outside(disk: seq<Sector>, recent: seq<Sector>, lbas: seq<nat>, kept: seq<nat>, lba: nat,
      data: seq<Sector>)
    requires Agrees(disk, recent, lbas, -1) && Single(lbas) && |kept| == |lbas| && lba + |data| <= |disk|
    requires forall j :: 0 <= j < |kept| ==> kept[j] == if lba <= lbas[j] < lba + |data| then 0 else lbas[j]
    ensures Agrees(Written(disk, lba, data), recent, kept, -1) && Single(kept)
  {
    forall i | 0 <= i < |kept| && kept[i] != 0 ensures Shown(Written(disk, lba, data), recent[i], kept[i]) {
      assert Shown(disk, recent[i], lbas[i]);
    }
    forall i, j | 0 <= i < j < |kept| && kept[i] != 0 ensures kept[i] != kept[j] {
      assert lbas[i] != lbas[j];
    }
  }
}
