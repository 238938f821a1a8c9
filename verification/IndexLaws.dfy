/**
 * The index of the file table (src/kernel/fs.c): a hash table of records with
 * tombstones, and what keeps every live entry findable in it.
 */
module IndexLaws {
  import opened Names
  import opened Probing

  datatype File = File(name: string, start: nat, size: nat)

  /** entry is an entry's number plus one; 0 was never used, GONE was removed. */
  datatype Record = Record(hash: nat, parent: nat, entry: nat)

  const GONE: nat := 0xFFFF_FFFF
  const EMPTY := Record(0, 0, 0)
  const TOMB := Record(0, 0, GONE)

  predicate Live(table: seq<File>, e: nat)
  {
    e < |table| && table[e].name != ""
  }

  predicate Points(r: Record)
  {
    r.entry != 0 && r.entry != GONE
  }

  function RecordFor(name: string, e: nat): Record
  {
    Record(Hash(name), Hash(Folder(name)), e + 1)
  }

  /** A search for h comes to record q before any never-used one. */
  ghost predicate Met(ix: seq<Record>, s: nat, h: nat, q: nat)
    requires s > 0
  {
    forall j :: 0 <= j < Distance(h, q, s) && Spot(h, j, s) < |ix| ==> ix[Spot(h, j, s)].entry != 0
  }

  /** Every record names an entry of the table, which has no other record. */
  ghost predicate Sound(ix: seq<Record>, table: seq<File>, at: map<nat, nat>)
  {
    forall q :: 0 <= q < |ix| && Points(ix[q]) ==>
      var e := ix[q].entry - 1;
      Live(table, e) && e in at && at[e] == q && ix[q] == RecordFor(table[e].name, e)
  }

  /** Every entry but those in out has its record, and it can be found. */
  ghost predicate Complete(ix: seq<Record>, s: nat, table: seq<File>, at: map<nat, nat>, out: set<nat>)
    requires s > 0
  {
    && (forall e :: e in at ==> Live(table, e) && e !in out && at[e] < |ix| && ix[at[e]].entry == e + 1)
    && (forall e :: e in at ==> Met(ix, s, Hash(table[e].name), at[e]))
    && (forall e :: Live(table, e) && e !in out ==> e in at)
  }

  ghost predicate Indexed(ix: seq<Record>, s: nat, table: seq<File>, at: map<nat, nat>, out: set<nat>)
  {
    && s > 0 && |ix| == s * RECORDS && |table| < GONE
    && Sound(ix, table, at) && Complete(ix, s, table, at, out)
  }

  /** Records ever used, removed ones counted. */
  ghost function UsedSpots(ix: seq<Record>): set<nat>
  {
    set q | 0 <= q < |ix| && ix[q].entry != 0
  }

  ghost function Taken(ix: seq<Record>): nat
  {
    |UsedSpots(ix)|
  }

  // ---- the moves of the index

  lemma {:induction false} MetMore(ix: seq<Record>, s: nat, h: nat, q: nat, p: nat, r: Record)
    requires s > 0 && Met(ix, s, h, q) && p < |ix| && r.entry != 0
    ensures Met(ix[p := r], s, h, q)
  {
  }

  /** Using a record spoils nobody's search. */
  lemma {:induction false} StillMet(ix: seq<Record>, s: nat, table: seq<File>, at: map<nat, nat>, out: set<nat>, p: nat,
      r: Record)
    requires s > 0 && Complete(ix, s, table, at, out) && p < |ix| && r.entry != 0
    ensures forall d :: d in at ==> Met(ix[p := r], s, Hash(table[d].name), at[d])
  {
    forall d | d in at ensures Met(ix[p := r], s, Hash(table[d].name), at[d]) {
      MetMore(ix, s, Hash(table[d].name), at[d], p, r);
    }
  }

  lemma {:induction false} TakenWith(ix: seq<Record>, q: nat, r: Record)
    requires q < |ix| && r.entry != 0
    ensures Taken(ix[q := r]) == Taken(ix) + if ix[q].entry == 0 then 1 else 0
  {
    var was, now := UsedSpots(ix), UsedSpots(ix[q := r]);
    assert now == was + {q};
    assert q in was <==> ix[q].entry != 0;
    hide UsedSpots;
    if q in was { assert was + {q} == was; }
  }

  lemma {:induction false} Tombstoned(ix: seq<Record>, s: nat, table: seq<File>, at: map<nat, nat>, out: set<nat>,
      e: nat)
    requires Indexed(ix, s, table, at, out) && e in at
    ensures at[e] < |ix| && Indexed(ix[at[e] := TOMB], s, table, at - {e}, out + {e})
    ensures Taken(ix[at[e] := TOMB]) == Taken(ix)
  {
    hide Met, Hash, Folder, Taken;
    TakenWith(ix, at[e], TOMB);
    StillMet(ix, s, table, at, out, at[e], TOMB);
  }

  lemma {:induction false} Placed(ix: seq<Record>, s: nat, table: seq<File>, at: map<nat, nat>, out: set<nat>, e: nat,
      q: nat)
    requires Indexed(ix, s, table, at, out) && e in out && Live(table, e)
    requires q < |ix| && !Points(ix[q]) && Met(ix, s, Hash(table[e].name), q)
    ensures Indexed(ix[q := RecordFor(table[e].name, e)], s, table, at[e := q], out - {e})
    ensures Taken(ix[q := RecordFor(table[e].name, e)]) == Taken(ix) + if ix[q].entry == 0 then 1 else 0
  {
    hide Met, Hash, Folder, Taken;
    var r := RecordFor(table[e].name, e);
    var ix', at' := ix[q := r], at[e := q];
    TakenWith(ix, q, r);
    StillMet(ix, s, table, at, out, q, r);
    MetMore(ix, s, Hash(table[e].name), q, q, r);
    assert Sound(ix', table, at') by { hide Complete; SoundPlaced(ix, s, table, at, out, e, q); }
    hide Sound;
  }

  lemma {:induction false} SoundPlaced(ix: seq<Record>, s: nat, table: seq<File>, at: map<nat, nat>, out: set<nat>,
      e: nat, q: nat)
    requires Indexed(ix, s, table, at, out) && e in out && Live(table, e) && q < |ix| && !Points(ix[q])
    ensures Sound(ix[q := RecordFor(table[e].name, e)], table, at[e := q])
  {
    hide Met, Hash, Folder;
  }

  /** An entry without a record written to. */
  lemma {:induction false} Rewritten(ix: seq<Record>, s: nat, table: seq<File>, at: map<nat, nat>, out: set<nat>,
      e: nat, f: File)
    requires Indexed(ix, s, table, at, out) && e < |table| && e !in at
    ensures Indexed(ix, s, table[e := f], at, if f.name != "" then out + {e} else out - {e})
  {
    hide Met, Hash, Folder;
  }

  /** An entry whose name stays. */
  lemma {:induction false} Resized(ix: seq<Record>, s: nat, table: seq<File>, at: map<nat, nat>, out: set<nat>, e: nat,
      f: File)
    requires Indexed(ix, s, table, at, out) && e < |table| && f.name == table[e].name
    ensures Indexed(ix, s, table[e := f], at, out)
  {
    hide Met, Hash, Folder;
  }

  /** One more entry, empty. */
  lemma {:induction false} Extended(ix: seq<Record>, s: nat, table: seq<File>, at: map<nat, nat>, out: set<nat>)
    requires Indexed(ix, s, table, at, out) && |table| + 1 < GONE
    ensures Indexed(ix, s, table + [File("", 0, 0)], at, out)
  {
    hide Met, Hash, Folder;
  }

  /** An index never used, over any table. */
  lemma {:induction false} Unindexed(s: nat, table: seq<File>, ix: seq<Record>, out: set<nat>)
    requires s > 0 && |ix| == s * RECORDS && |table| < GONE
    requires forall q :: 0 <= q < |ix| ==> ix[q] == EMPTY
    requires forall e: nat :: Live(table, e) ==> e in out
    ensures Indexed(ix, s, table, map[], out) && Taken(ix) == 0
  {
    assert UsedSpots(ix) == {};
  }

  /** While fewer records were ever used than there are, one was not. */
  lemma {:induction false} SomeUnused(ix: seq<Record>) returns (q: nat)
    requires Taken(ix) < |ix|
    ensures q < |ix| && ix[q].entry == 0
  {
    AllUsed(ix);
    q :| 0 <= q < |ix| && ix[q].entry == 0;
  }

  lemma {:induction false} AllUsed(ix: seq<Record>)
    ensures (forall q :: 0 <= q < |ix| ==> ix[q].entry != 0) ==> Taken(ix) == |ix|
  {
    if |ix| > 0 && forall q :: 0 <= q < |ix| ==> ix[q].entry != 0 {
      var n := |ix| - 1;
      AllUsed(ix[..n]);
      assert UsedSpots(ix) == UsedSpots(ix[..n]) + {n};
    }
  }
}
