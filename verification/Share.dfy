/**
 * The table of shared pages (src/kernel/share.c): counted page frames, found by
 * file key and by frame through two families of hash chains, with the free
 * entries on a third chain that borrows the key chain's link.
 */
module Share {
  import opened Base
  import opened Chains

  const SECTORS: nat := 8
  const FIRST_ROOM: nat := 256

  datatype Entry = Entry(start: nat, index: nat, frame: nat, refs: nat, nextKey: nat, nextFrame: nat)

  /** What the table says about a frame: its count, and the file page it still is, if any. */
  datatype Tracked = Tracked(refs: nat, key: Option<(nat, nat)>)

  type Model = map<nat, Tracked>

  const BLANK := Entry(0, 0, 0, 0, 0, 0)

  // The C code masks with room - 1; room is a power of two, so that is a remainder.
  function KeyHash(start: nat, index: nat, room: nat): (b: nat)
    requires room > 0
    ensures b < room
  {
    Xor(start * 2654435761 % U32, index * 40503 % U32) % room
  }

  function FrameHash(frame: nat, room: nat): (b: nat)
    requires room > 0
    ensures b < room
  {
    (frame * 2654435761 % U32) % room
  }

  /** Whether the written sectors lba .. lba + count meet the file page, in 32-bit arithmetic. */
  predicate Overlaps(start: nat, index: nat, lba: nat, count: nat)
  {
    var first := (start + index * SECTORS) % U32;
    first < (lba + count) % U32 && lba < (first + SECTORS) % U32
  }

  ghost function NextKeys(es: seq<Entry>): (r: seq<nat>)
    ensures |r| == |es| && forall i :: 0 <= i < |es| ==> r[i] == es[i].nextKey
  {
    seq(|es|, i requires 0 <= i < |es| => es[i].nextKey)
  }

  ghost function NextFrames(es: seq<Entry>): (r: seq<nat>)
    ensures |r| == |es| && forall i :: 0 <= i < |es| ==> r[i] == es[i].nextFrame
  {
    seq(|es|, i requires 0 <= i < |es| => es[i].nextFrame)
  }

  ghost function KeyHomes(es: seq<Entry>): (r: seq<nat>)
    ensures |r| == |es|
    ensures forall i :: 0 <= i < |es| ==> r[i] == KeyHash(es[i].start, es[i].index, |es|)
  {
    seq(|es|, i requires 0 <= i < |es| => KeyHash(es[i].start, es[i].index, |es|))
  }

  ghost function FrameHomes(es: seq<Entry>): (r: seq<nat>)
    ensures |r| == |es| && forall i :: 0 <= i < |es| ==> r[i] == FrameHash(es[i].frame, |es|)
  {
    seq(|es|, i requires 0 <= i < |es| => FrameHash(es[i].frame, |es|))
  }

  ghost function KeyOf(e: Entry): Option<(nat, nat)>
  {
    if e.start != 0 then Some((e.start, e.index)) else None
  }

  ghost predicate KeysWoven(es: seq<Entry>, heads: seq<nat>, chains: seq<seq<nat>>, K: set<nat>)
  {
    |heads| == |es| && Buckets(heads, chains, NextKeys(es), KeyHomes(es), K)
  }

  ghost predicate FramesWoven(es: seq<Entry>, heads: seq<nat>, chains: seq<seq<nat>>, F: set<nat>)
  {
    |heads| == |es| && Buckets(heads, chains, NextFrames(es), FrameHomes(es), F)
  }

  ghost predicate FreeWoven(es: seq<Entry>, head: nat, chain: seq<nat>, E: set<nat>)
  {
    && (forall i :: i in E ==> i < |es|)
    && Chain(head, chain, NextKeys(es))
    && (forall i :: i in chain <==> i in E)
  }

  /** Which entries belong on which chains, and which entry tracks each tracked frame. */
  ghost predicate Sorted(es: seq<Entry>, K: set<nat>, F: set<nat>, E: set<nat>, at: map<nat, nat>)
  {
    && (forall i :: 0 <= i < |es| ==> (i in F <==> es[i].refs > 0))
    && (forall i :: 0 <= i < |es| ==> (i in E <==> es[i].refs == 0))
    && (forall i :: 0 <= i < |es| ==> (i in K <==> es[i].refs > 0 && es[i].start != 0))
    && (forall f :: f in at ==> at[f] < |es| && at[f] in F && es[at[f]].frame == f)
    && (forall i :: 0 <= i < |es| && i in F ==> es[i].frame in at && at[es[i].frame] == i)
  }

  ghost function PagesOf(es: seq<Entry>, K: set<nat>, F: set<nat>, E: set<nat>, at: map<nat, nat>): Model
    requires Sorted(es, K, F, E, at)
  {
    map f | f in at :: Tracked(es[at[f]].refs, KeyOf(es[at[f]]))
  }

  /** The same entries but for links. */
  ghost predicate LinksOnly(es: seq<Entry>, es': seq<Entry>)
  {
    |es'| == |es| &&
    forall j :: 0 <= j < |es| ==> es'[j] == es[j].(nextKey := es'[j].nextKey, nextFrame := es'[j].nextFrame)
  }

  lemma {:induction false} SortedHas(es: seq<Entry>, K: set<nat>, F: set<nat>, E: set<nat>, at: map<nat, nat>, i: nat)
    requires Sorted(es, K, F, E, at) && i < |es|
    ensures i in K <==> i in F && es[i].start != 0
    ensures i in F <==> i !in E
    ensures i in F ==> es[i].refs > 0 && es[i].frame in at && at[es[i].frame] == i
  {
  }

  lemma {:induction false} PagesHas(es: seq<Entry>, K: set<nat>, F: set<nat>, E: set<nat>, at: map<nat, nat>, f: nat)
    requires Sorted(es, K, F, E, at)
    ensures f in PagesOf(es, K, F, E, at) <==> f in at
    ensures f in at ==> at[f] < |es| && at[f] in F && es[at[f]].frame == f && es[at[f]].refs > 0
    ensures f in at ==> PagesOf(es, K, F, E, at)[f] == Tracked(es[at[f]].refs, KeyOf(es[at[f]]))
  {
  }

  /** Entry i set free. */
  lemma {:induction false} SortedReleased(es: seq<Entry>, K: set<nat>, F: set<nat>, E: set<nat>, at: map<nat, nat>,
      i: nat, es': seq<Entry>)
    requires Sorted(es, K, F, E, at) && i in F && i < |es|
    requires LinksOnly(es[i := es[i].(refs := 0, start := 0)], es')
    ensures Sorted(es', K - {i}, F - {i}, E + {i}, at - {es[i].frame})
    ensures PagesOf(es', K - {i}, F - {i}, E + {i}, at - {es[i].frame}) == PagesOf(es, K, F, E, at) - {es[i].frame}
  {
  }

  /** A free entry i put to use for an untracked frame. */
  lemma {:induction false} SortedTaken(es: seq<Entry>, K: set<nat>, F: set<nat>, E: set<nat>, at: map<nat, nat>, i: nat,
                    start: nat, index: nat, frame: nat, es': seq<Entry>)
    requires Sorted(es, K, F, E, at) && i in E && i < |es| && frame !in at
    requires LinksOnly(es[i := Entry(start, index, frame, 1, 0, 0)], es')
    ensures var K' := if start != 0 then K + {i} else K;
            && Sorted(es', K', F + {i}, E - {i}, at[frame := i])
            && PagesOf(es', K', F + {i}, E - {i}, at[frame := i])
               == PagesOf(es, K, F, E, at)[frame := Tracked(1, if start != 0 then Some((start, index)) else None)]
  {
    SortedAnew(es, K, F, E, at, i, start, index, frame, es');
    OthersSame(es, K, F, E, at, i, Entry(start, index, frame, 1, 0, 0), es');
    hide Sorted, LinksOnly;
  }

  lemma {:induction false} SortedAnew(es: seq<Entry>, K: set<nat>, F: set<nat>, E: set<nat>, at: map<nat, nat>, i: nat,
      start: nat, index: nat, frame: nat, es': seq<Entry>)
    requires Sorted(es, K, F, E, at) && i in E && i < |es| && frame !in at
    requires LinksOnly(es[i := Entry(start, index, frame, 1, 0, 0)], es')
    ensures Sorted(es', if start != 0 then K + {i} else K, F + {i}, E - {i}, at[frame := i])
  {
  }

  /** The other entries count and stand for what they did. */
  lemma {:induction false} OthersSame(es: seq<Entry>, K: set<nat>, F: set<nat>, E: set<nat>, at: map<nat, nat>, i: nat,
      e: Entry, es': seq<Entry>)
    requires Sorted(es, K, F, E, at) && i in E && i < |es| && LinksOnly(es[i := e], es')
    ensures |es'| == |es| && es'[i].refs == e.refs && KeyOf(es'[i]) == KeyOf(e)
    ensures forall f :: f in at ==>
      at[f] < |es| && es'[at[f]].refs == es[at[f]].refs && KeyOf(es'[at[f]]) == KeyOf(es[at[f]])
  {
  }

  /** Entry i no longer a file's. */
  lemma {:induction false} SortedUnkeyed(es: seq<Entry>, K: set<nat>, F: set<nat>, E: set<nat>, at: map<nat, nat>,
      i: nat, es': seq<Entry>)
    requires Sorted(es, K, F, E, at) && i in K && i in F && i < |es|
    requires LinksOnly(es[i := es[i].(start := 0)], es')
    ensures Sorted(es', K - {i}, F, E, at)
    ensures PagesOf(es', K - {i}, F, E, at)
      == (var m := PagesOf(es, K, F, E, at); m[es[i].frame := m[es[i].frame].(key := None)])
  {
  }

  /** A different count for a tracked entry i. */
  lemma {:induction false} SortedCounted(es: seq<Entry>, K: set<nat>, F: set<nat>, E: set<nat>, at: map<nat, nat>,
      i: nat, refs: nat)
    requires Sorted(es, K, F, E, at) && i in F && i < |es| && refs > 0
    ensures Sorted(es[i := es[i].(refs := refs)], K, F, E, at)
    ensures PagesOf(es[i := es[i].(refs := refs)], K, F, E, at)
      == (var m := PagesOf(es, K, F, E, at); m[es[i].frame := m[es[i].frame].(refs := refs)])
  {
  }

  // ---- what the calls do to the map of tracked frames

  ghost function Recount(m: Model, f: nat, refs: nat): Model
    requires f in m
  {
    m[f := m[f].(refs := refs)]
  }

  /** Frame f let go of once: forgotten when that was its last holder. */
  ghost function Dropped(m: Model, f: nat): Model
  {
    if f !in m then m
    else if m[f].refs == 1 then m - {f}
    else if m[f].refs > 1 then Recount(m, f, m[f].refs - 1)
    else m
  }

  ghost predicate IsFilePage(m: Model, f: nat, start: nat, index: nat)
  {
    f in m && m[f].key == Some((start, index))
  }

  /** Pages of the written sectors are no file's any more. */
  ghost function Stale(m: Model, lba: nat, count: nat): Model
  {
    map f | f in m ::
      if m[f].key.Some? && Overlaps(m[f].key.value.0, m[f].key.value.1, lba, count)
      then m[f].(key := None) else m[f]
  }

  // ---- what leaves a family of chains alone

  lemma {:induction false} KeysKept(es: seq<Entry>, es': seq<Entry>, heads: seq<nat>, chains: seq<seq<nat>>,
      K: set<nat>)
    requires KeysWoven(es, heads, chains, K) && |es'| == |es|
    requires forall i :: i in K && i < |es| ==>
      es'[i].start == es[i].start && es'[i].index == es[i].index && es'[i].nextKey == es[i].nextKey
    ensures KeysWoven(es', heads, chains, K)
  {
    hide Buckets, KeyHash;
    BucketsKept(heads, chains, NextKeys(es), KeyHomes(es), K, NextKeys(es'), KeyHomes(es'));
  }

  lemma {:induction false} FramesKept(es: seq<Entry>, es': seq<Entry>, heads: seq<nat>, chains: seq<seq<nat>>,
      F: set<nat>)
    requires FramesWoven(es, heads, chains, F) && |es'| == |es|
    requires forall i :: i in F && i < |es| ==> es'[i].frame == es[i].frame && es'[i].nextFrame == es[i].nextFrame
    ensures FramesWoven(es', heads, chains, F)
  {
    hide Buckets, FrameHash;
    BucketsKept(heads, chains, NextFrames(es), FrameHomes(es), F, NextFrames(es'), FrameHomes(es'));
  }

  lemma {:induction false} FreeKept(es: seq<Entry>, es': seq<Entry>, head: nat, chain: seq<nat>, E: set<nat>)
    requires FreeWoven(es, head, chain, E) && |es'| == |es|
    requires forall i :: i in E && i < |es| ==> es'[i].nextKey == es[i].nextKey
    ensures FreeWoven(es', head, chain, E)
  {
    hide Chain;
    ChainFrame(head, chain, NextKeys(es), NextKeys(es'));
  }

  // ---- one link at a time

  lemma {:induction false} KeyPushed(es: seq<Entry>, heads: seq<nat>, chains: seq<seq<nat>>, K: set<nat>, i: nat)
    requires KeysWoven(es, heads, chains, K) && i < |es| && i !in K
    ensures var b := KeyHash(es[i].start, es[i].index, |es|);
            && |chains| == |es|
            && KeysWoven(es[i := es[i].(nextKey := heads[b])], heads[b := i + 1], chains[b := [i] + chains[b]], K + {i})
  {
    hide KeyHash;
    var b := KeyHash(es[i].start, es[i].index, |es|);
    assert |chains| == |es|;
    hide Buckets;
    BucketPushed(heads, chains, NextKeys(es), KeyHomes(es), K, i);
    var es' := es[i := es[i].(nextKey := heads[b])];
    assert NextKeys(es') == NextKeys(es)[i := heads[b]];
    assert KeyHomes(es') == KeyHomes(es);
  }

  lemma {:induction false} FramePushed(es: seq<Entry>, heads: seq<nat>, chains: seq<seq<nat>>, F: set<nat>, i: nat)
    requires FramesWoven(es, heads, chains, F) && i < |es| && i !in F
    ensures var b := FrameHash(es[i].frame, |es|);
            && |chains| == |es|
            && FramesWoven(es[i := es[i].(nextFrame := heads[b])], heads[b := i + 1], chains[b := [i] + chains[b]],
               F + {i})
  {
    hide FrameHash;
    var b := FrameHash(es[i].frame, |es|);
    assert |chains| == |es|;
    hide Buckets;
    BucketPushed(heads, chains, NextFrames(es), FrameHomes(es), F, i);
    var es' := es[i := es[i].(nextFrame := heads[b])];
    assert NextFrames(es') == NextFrames(es)[i := heads[b]];
    assert FrameHomes(es') == FrameHomes(es);
  }

  lemma {:induction false} FreePushed(es: seq<Entry>, head: nat, chain: seq<nat>, E: set<nat>, i: nat)
    requires FreeWoven(es, head, chain, E) && i < |es| && i !in E
    ensures FreeWoven(es[i := es[i].(nextKey := head)], i + 1, [i] + chain, E + {i})
  {
    hide Chain;
    ChainPush(head, chain, NextKeys(es), i);
    assert NextKeys(es[i := es[i].(nextKey := head)]) == NextKeys(es)[i := head];
  }

  lemma {:induction false} FreeFirst(es: seq<Entry>, head: nat, chain: seq<nat>, E: set<nat>)
    requires FreeWoven(es, head, chain, E) && head != 0
    ensures |chain| > 0 && chain[0] == head - 1 && head - 1 in E && head - 1 < |es| && Distinct(chain)
  {
    assert chain[0] in chain;
  }

  lemma {:induction false} FreePopped(es: seq<Entry>, head: nat, chain: seq<nat>, E: set<nat>)
    requires FreeWoven(es, head, chain, E) && head != 0
    ensures |chain| > 0 && chain[0] == head - 1 && head - 1 in E && head - 1 < |es|
    ensures FreeWoven(es, es[head - 1].nextKey, Without(chain, 0), E - {head - 1})
  {
    FreeFirst(es, head, chain, E);
    hide Chain, Without, Distinct, NextKeys;
    ChainCutFirst(head, chain, NextKeys(es));
    WithoutMembers(chain, 0);
  }

  lemma {:induction false} KeyCut(es: seq<Entry>, heads: seq<nat>, chains: seq<seq<nat>>, K: set<nat>, i: nat, p: nat,
               es': seq<Entry>, heads': seq<nat>)
    requires KeysWoven(es, heads, chains, K) && i in K && |es'| == |es| == |chains| && i < |es|
    requires forall j :: j in K && j != i && j < |es| ==> es'[j].start == es[j].start && es'[j].index == es[j].index
    requires var b := KeyHash(es[i].start, es[i].index, |es|);
             && p < |chains[b]| && chains[b][p] == i
             && (if p == 0 then heads' == heads[b := es[i].nextKey] && NextKeys(es') == NextKeys(es)
                 else chains[b][p - 1] < |es| && heads' == heads &&
                      NextKeys(es') == NextKeys(es)[chains[b][p - 1] := es[i].nextKey])
    ensures var b := KeyHash(es[i].start, es[i].index, |es|);
            KeysWoven(es', heads', chains[b := Without(chains[b], p)], K - {i})
  {
    hide KeyHash, Buckets;
    BucketCut(heads, chains, NextKeys(es), KeyHomes(es), K, i, p, heads', NextKeys(es'), KeyHomes(es'));
  }

  lemma {:induction false} FrameCut(es: seq<Entry>, heads: seq<nat>, chains: seq<seq<nat>>, F: set<nat>, i: nat, p: nat,
                 es': seq<Entry>, heads': seq<nat>)
    requires FramesWoven(es, heads, chains, F) && i in F && |es'| == |es| == |chains| && i < |es|
    requires forall j :: j in F && j != i && j < |es| ==> es'[j].frame == es[j].frame
    requires var b := FrameHash(es[i].frame, |es|);
             && p < |chains[b]| && chains[b][p] == i
             && (if p == 0 then heads' == heads[b := es[i].nextFrame] && NextFrames(es') == NextFrames(es)
                 else chains[b][p - 1] < |es| && heads' == heads &&
                      NextFrames(es') == NextFrames(es)[chains[b][p - 1] := es[i].nextFrame])
    ensures var b := FrameHash(es[i].frame, |es|);
            FramesWoven(es', heads', chains[b := Without(chains[b], p)], F - {i})
  {
    hide FrameHash, Buckets;
    BucketCut(heads, chains, NextFrames(es), FrameHomes(es), F, i, p, heads', NextFrames(es'), FrameHomes(es'));
  }

  lemma {:induction false} NothingWoven()
    ensures KeysWoven([], [], [], {}) && FramesWoven([], [], [], {}) && FreeWoven([], 0, [], {})
  {
    assert NextKeys([]) == [] && NextFrames([]) == [] && KeyHomes([]) == [] && FrameHomes([]) == [];
  }

  /** A table with room for nothing. */
  lemma {:induction false} NothingYet(t: SharedPages)
    requires t.entries == [] && t.byKey == [] && t.byFrame == [] && t.freeHead == 0 && t.used == 0
    requires t.keyChains == [] && t.frameChains == [] && t.freeChain == []
    requires t.K == {} && t.F == {} && t.E == {} && t.at == map[]
    ensures t.Valid() && t.Pages() == map[]
  {
    hide KeysWoven, FramesWoven, FreeWoven;
    NothingWoven();
  }

  class SharedPages {
    var entries: seq<Entry>
    var byKey: seq<nat>
    var byFrame: seq<nat>
    var freeHead: nat
    var used: nat

    ghost var keyChains: seq<seq<nat>>
    ghost var frameChains: seq<seq<nat>>
    ghost var freeChain: seq<nat>
    ghost var K: set<nat>             // entries on a key chain
    ghost var F: set<nat>             // entries on a frame chain
    ghost var E: set<nat>             // entries on the free chain
    ghost var at: map<nat, nat>       // the entry that tracks each tracked frame

    /** The three families of chains, whatever they hold; no entry uses its key link twice. */
    ghost predicate Woven()
      reads this`entries, this`byKey, this`byFrame, this`freeHead
      reads this`keyChains, this`frameChains, this`freeChain, this`K, this`F, this`E
    {
      && |byKey| == |keyChains| == |byFrame| == |frameChains| == |entries|
      && KeysWoven(entries, byKey, keyChains, K)
      && FramesWoven(entries, byFrame, frameChains, F)
      && FreeWoven(entries, freeHead, freeChain, E)
      && K !! E
    }

    ghost predicate Valid()
      reads this
    {
      Woven() && Sorted(entries, K, F, E, at) && used == |F|
    }

    /** The table as a map from tracked frames. */
    ghost function Pages(): Model
      requires Valid()
      reads this
    {
      PagesOf(entries, K, F, E, at)
    }

    constructor ()
      ensures Valid() && Pages() == map[] && entries == []
    {
      hide *;
      entries, byKey, byFrame, freeHead, used := [], [], [], 0, 0;
      keyChains, frameChains, freeChain := [], [], [];
      K, F, E, at := {}, {}, {}, map[];
      new;
      NothingYet(this);
    }

    method LinkKey(i: nat)
      requires Woven() && i < |entries| && i !in K && i !in E
      modifies this`entries, this`byKey, this`keyChains, this`K
      ensures Woven() && K == old(K) + {i} && |entries| == |old(entries)|
      ensures entries == old(entries)[i := old(entries)[i].(nextKey := entries[i].nextKey)]
    {
      hide KeysWoven, FramesWoven, FreeWoven, KeyHash;
      var b := KeyHash(entries[i].start, entries[i].index, |entries|);
      KeyPushed(entries, byKey, keyChains, K, i);
      entries := entries[i := entries[i].(nextKey := byKey[b])];
      byKey := byKey[b := i + 1];
      keyChains := keyChains[b := [i] + keyChains[b]];
      K := K + {i};
      FramesKept(old(entries), entries, byFrame, frameChains, F);
      FreeKept(old(entries), entries, freeHead, freeChain, E);
    }

    method LinkFrame(i: nat)
      requires Woven() && i < |entries| && i !in F
      modifies this`entries, this`byFrame, this`frameChains, this`F
      ensures Woven() && F == old(F) + {i} && |entries| == |old(entries)|
      ensures entries == old(entries)[i := old(entries)[i].(nextFrame := entries[i].nextFrame)]
    {
      hide KeysWoven, FramesWoven, FreeWoven, FrameHash;
      var b := FrameHash(entries[i].frame, |entries|);
      FramePushed(entries, byFrame, frameChains, F, i);
      entries := entries[i := entries[i].(nextFrame := byFrame[b])];
      byFrame := byFrame[b := i + 1];
      frameChains := frameChains[b := [i] + frameChains[b]];
      F := F + {i};
      KeysKept(old(entries), entries, byKey, keyChains, K);
      FreeKept(old(entries), entries, freeHead, freeChain, E);
    }

    method PushFree(i: nat)
      requires Woven() && i < |entries| && i !in K && i !in E
      modifies this`entries, this`freeHead, this`freeChain, this`E
      ensures Woven() && E == old(E) + {i} && |entries| == |old(entries)|
      ensures entries == old(entries)[i := old(entries)[i].(nextKey := entries[i].nextKey)]
    {
      hide KeysWoven, FramesWoven, FreeWoven;
      FreePushed(entries, freeHead, freeChain, E, i);
      entries := entries[i := entries[i].(nextKey := freeHead)];
      freeHead := i + 1;
      freeChain := [i] + freeChain;
      E := E + {i};
      KeysKept(old(entries), entries, byKey, keyChains, K);
      FramesKept(old(entries), entries, byFrame, frameChains, F);
    }

    method PopFree() returns (i: nat)
      requires Woven() && freeHead != 0
      modifies this`freeHead, this`freeChain, this`E
      ensures Woven() && i in old(E) && E == old(E) - {i} && i < |entries|
    {
      hide KeysWoven, FramesWoven, FreeWoven;
      FreePopped(entries, freeHead, freeChain, E);
      i := freeHead - 1;
      freeHead := entries[i].nextKey;
      freeChain := Without(freeChain, 0);
      E := E - {i};
    }

    /** The link that leads to entry i in its key bucket: an entry, one-based, or 0 for the head. */
    method KeyLink(i: nat) returns (from: nat, ghost p: nat)
      requires Woven() && i in K && i < |entries|
      ensures var c := keyChains[KeyHash(entries[i].start, entries[i].index, |entries|)];
              && p < |c| && c[p] == i && from == (if p == 0 then 0 else c[p - 1] + 1) && from <= |entries|
    {
      hide FramesWoven, FreeWoven, Sorted;
      var b := KeyHash(entries[i].start, entries[i].index, |entries|);
      ghost var c := keyChains[b];
      hide KeyHash;
      BucketMember(byKey, keyChains, NextKeys(entries), KeyHomes(entries), K, i);
      BucketAt(byKey, keyChains, NextKeys(entries), KeyHomes(entries), K, b);
      p :| 0 <= p < |c| && c[p] == i;
      var link := byKey[b];
      from := 0;
      ghost var k := 0;
      assert link == LinkTo(c, 0);
      hide *;
      while link != 0 && link != i + 1
        invariant 0 <= k <= p
        invariant link == LinkTo(c, k)
        invariant from == (if k == 0 then 0 else c[k - 1] + 1) && from <= |entries|
        decreases p - k
      {
        LinkIs(c, k, p, i);
        ChainStep(byKey[b], c, NextKeys(entries), k);
        from := link;
        link := entries[link - 1].nextKey;
        k := k + 1;
      }
      LinkIs(c, k, p, i);
      LinkFound(byKey[b], c, NextKeys(entries), k, p, i);
    }

    method UnlinkKey(i: nat)
      requires Woven() && i in K && i < |entries|
      modifies this`entries, this`byKey, this`keyChains, this`K
      ensures Woven() && K == old(K) - {i}
      ensures KeyLinksOnly(old(entries)[i := old(entries)[i].(start := 0)], entries)
    {
      hide KeysWoven, FramesWoven, FreeWoven, KeyHash, Without;
      var b := KeyHash(entries[i].start, entries[i].index, |entries|);
      var from, p := KeyLink(i);
      ghost var es, heads := entries, byKey;
      if from == 0 {
        byKey := byKey[b := entries[i].nextKey];
      } else {
        entries := entries[from - 1 := entries[from - 1].(nextKey := entries[i].nextKey)];
      }
      entries := entries[i := entries[i].(start := 0)];
      KeyInside(es, heads, keyChains, K, b, p);
      KeyRelinked(es, i, from, entries);
      KeyCut(es, heads, keyChains, K, i, p, entries, byKey);
      FramesKept(es, entries, byFrame, frameChains, F);
      FreeKept(es, entries, freeHead, freeChain, E);
      keyChains := keyChains[b := Without(keyChains[b], p)];
      K := K - {i};
    }

    /** The entry for a frame, one-based, or 0; and the link that leads to it. */
    method OfFrame(frame: nat) returns (found: nat, from: nat, ghost p: nat)
      requires Valid() && |entries| > 0
      ensures found == 0 <==> frame !in at
      ensures found != 0 ==>
        var c := frameChains[FrameHash(frame, |entries|)];
        && found - 1 == at[frame]
        && p < |c| && c[p] == found - 1 && from == (if p == 0 then 0 else c[p - 1] + 1) && from <= |entries|
    {
      hide *;
      FrameBucketIs(this, frame);
      var b := FrameHash(frame, |entries|);
      ghost var c := frameChains[b];
      var link := byFrame[b];
      from := 0;
      p := 0;
      while link != 0 && entries[link - 1].frame != frame
        invariant 0 <= p <= |c|
        invariant link == LinkTo(c, p) && link <= |entries|
        invariant from == (if p == 0 then 0 else c[p - 1] + 1) && from <= |entries|
        invariant forall j :: 0 <= j < p ==> c[j] < |entries| && entries[c[j]].frame != frame
        decreases |c| - p
      {
        LinkSplit(c, p);
        ChainStep(byFrame[b], c, NextFrames(entries), p);
        from := link;
        link := entries[link - 1].nextFrame;
        p := p + 1;
        LinkSplit(c, p);
        if p < |c| { ChainStep(byFrame[b], c, NextFrames(entries), p); }
      }
      LinkSplit(c, p);
      found := link;
      if found != 0 { assert c[p] in c; }
    }

    method CutFrame(i: nat, from: nat, ghost p: nat)
      requires Woven() && i in F && i < |entries|
      requires var c := frameChains[FrameHash(entries[i].frame, |entries|)];
               && p < |c| && c[p] == i && from == (if p == 0 then 0 else c[p - 1] + 1) && from <= |entries|
      modifies this`entries, this`byFrame, this`frameChains, this`F
      ensures Woven() && F == old(F) - {i} && FrameLinksOnly(old(entries), entries)
    {
      hide KeysWoven, FramesWoven, FreeWoven, FrameHash, Without;
      var b := FrameHash(entries[i].frame, |entries|);
      ghost var es, heads := entries, byFrame;
      if from == 0 {
        byFrame := byFrame[b := entries[i].nextFrame];
      } else {
        entries := entries[from - 1 := entries[from - 1].(nextFrame := entries[i].nextFrame)];
      }
      FrameRelinked(es, i, from, entries);
      FrameCut(es, heads, frameChains, F, i, p, entries, byFrame);
      KeysKept(es, entries, byKey, keyChains, K);
      FreeKept(es, entries, freeHead, freeChain, E);
      frameChains := frameChains[b := Without(frameChains[b], p)];
      F := F - {i};
    }

    method SetRefs(i: nat, refs: nat)
      requires Woven() && i < |entries|
      modifies this`entries
      ensures Woven() && entries == old(entries)[i := old(entries)[i].(refs := refs)]
    {
      hide KeysWoven, FramesWoven, FreeWoven;
      entries := entries[i := entries[i].(refs := refs)];
      KeysKept(old(entries), entries, byKey, keyChains, K);
      FramesKept(old(entries), entries, byFrame, frameChains, F);
      FreeKept(old(entries), entries, freeHead, freeChain, E);
    }

    /** Entry i's frame is no longer tracked: off its chains and onto the free one. */
    method Release(i: nat, from: nat, ghost p: nat)
      requires Valid() && i in F && i < |entries|
      requires var c := frameChains[FrameHash(entries[i].frame, |entries|)];
               && p < |c| && c[p] == i && from == (if p == 0 then 0 else c[p - 1] + 1) && from <= |entries|
      modifies this
      ensures Valid() && |entries| == |old(entries)|
      ensures Pages() == old(Pages()) - {old(entries)[i].frame}
    {
      hide FrameHash, Sorted, PagesOf, Woven;
      SortedHas(entries, K, F, E, at, i);
      CutFrame(i, from, p);
      if entries[i].start != 0 {
        UnlinkKey(i);
      }
      SetRefs(i, 0);
      PushFree(i);
      used := used - 1;
      at := at - {old(entries)[i].frame};
      assert K == old(K) - {i} && F == old(F) - {i} && E == old(E) + {i};
      SortedReleased(old(entries), old(K), old(F), old(E), old(at), i, entries);
    }

    method Take(frame: nat) returns (ok: bool)
      requires Valid() && |entries| > 0
      modifies this
      ensures Valid() && |entries| > 0
      ensures ok <==> frame in old(Pages()) && old(Pages())[frame].refs == 1
      ensures Pages() == if ok then old(Pages()) - {frame} else old(Pages())
    {
      hide Woven, FrameHash, Without;
      var found, from, p := OfFrame(frame);
      if found == 0 || entries[found - 1].refs != 1 {
        return false;
      }
      Release(found - 1, from, p);
      ok := true;
    }

    method Hold(frame: nat)
      requires Valid() && |entries| > 0
      modifies this
      ensures Valid() && |entries| > 0
      ensures Pages() == var m := old(Pages()); if frame in m then Recount(m, frame, m[frame].refs + 1) else m
    {
      hide Woven, FrameHash;
      var found, from, p := OfFrame(frame);
      if found != 0 {
        SortedCounted(entries, K, F, E, at, found - 1, entries[found - 1].refs + 1);
        SetRefs(found - 1, entries[found - 1].refs + 1);
      }
    }

    /** freed: the page was handed back to the page allocator. */
    method Drop(frame: nat) returns (freed: bool)
      requires Valid() && |entries| > 0
      modifies this
      ensures Valid() && |entries| > 0
      ensures Pages() == Dropped(old(Pages()), frame)
      ensures freed <==> frame in old(Pages()) && frame !in Pages()
    {
      hide Woven, FrameHash, Sorted, PagesOf, KeyOf;
      var found, from, p := OfFrame(frame);
      PagesHas(entries, K, F, E, at, frame);
      if found == 0 {
        return false;
      }
      if entries[found - 1].refs - 1 > 0 {
        SortedCounted(entries, K, F, E, at, found - 1, entries[found - 1].refs - 1);
        SetRefs(found - 1, entries[found - 1].refs - 1);
        return false;
      }
      Release(found - 1, from, p);
      freed := true;
    }

    /** A used entry i onto its frame's chain, and its key's if it is a file's. */
    method LinkBoth(i: nat)
      requires Woven() && i < |entries| && i !in K && i !in F && i !in E
      modifies this`entries, this`byKey, this`byFrame, this`keyChains, this`frameChains, this`K, this`F
      ensures Woven() && LinksOnly(old(entries), entries) && |entries| == |old(entries)|
      ensures F == old(F) + {i} && K == if old(entries)[i].start != 0 then old(K) + {i} else old(K)
    {
      hide Woven;
      if entries[i].start != 0 {
        LinkKey(i);
      }
      LinkFrame(i);
    }

    /** Entry i onto the chains it belongs on. */
    method Relink(i: nat, ghost base: seq<Entry>)
      requires Woven() && LinksOnly(base, entries) && i < |entries| && RebuiltFrom(base, i + 1, K, F, E)
      modifies this`entries, this`byKey, this`byFrame, this`freeHead
      modifies this`keyChains, this`frameChains, this`freeChain, this`K, this`F, this`E
      ensures Woven() && LinksOnly(base, entries) && RebuiltFrom(base, i, K, F, E)
      ensures |entries| == |old(entries)|
    {
      hide Woven;
      if entries[i].refs == 0 {
        PushFree(i);
      } else {
        LinkBoth(i);
      }
    }

    /** The entries kept and room made, on no chain. */
    method Clear(bigger: nat)
      requires |entries| <= bigger
      modifies this`entries, this`byKey, this`byFrame, this`freeHead
      modifies this`keyChains, this`frameChains, this`freeChain, this`K, this`F, this`E
      ensures entries == old(entries) + Blanks(bigger - |old(entries)|)
      ensures Woven() && K == F == E == {}
    {
      hide *;
      entries := entries + Blanks(bigger - |entries|);
      byKey, byFrame, freeHead := Zeros(bigger), Zeros(bigger), 0;
      keyChains, frameChains, freeChain := Empties(bigger), Empties(bigger), [];
      K, F, E := {}, {}, {};
      Unwoven(this);
    }

    /** Room for twice as many, with every chain built again. memory: the three arrays could be had. */
    method Grow(memory: bool) returns (ok: bool)
      requires Valid()
      modifies this
      ensures Valid() && ok == memory && Pages() == old(Pages())
      ensures ok ==> freeHead != 0
    {
      hide *;
      if !memory {
        return false;
      }
      var room := |entries|;
      var bigger := Bigger(room);
      TableUnfold(this);
      Clear(bigger);
      ghost var base := entries;
      RebuiltNone(base);
      var i := bigger;
      while i > 0
        invariant 0 <= i <= bigger == |entries|
        invariant Woven() && LinksOnly(base, entries)
        invariant RebuiltFrom(base, i, K, F, E)
        invariant at == old(at) && used == old(used)
      {
        i := i - 1;
        Relink(i, base);
      }
      SortedRebuilt(old(entries), old(K), old(F), old(E), at, base, entries, K, F, E);
      TableFold(this);
      FreeHeadIs(this, room);
      ok := true;
    }

    /** The common part of Add and Adopt: a free entry for a page held once. */
    method Place(start: nat, index: nat, frame: nat, memory: bool) returns (ok: bool)
      requires Valid() && frame !in Pages()
      modifies this
      ensures Valid() && ok == (old(freeHead) != 0 || memory)
      ensures ok ==> |entries| > 0
      ensures Pages() == if ok then old(Pages())[frame := Tracked(1, if start != 0 then Some((start, index)) else None)]
                         else old(Pages())
    {
      hide *;
      if freeHead == 0 {
        var grown := Grow(memory);
        if !grown {
          return false;
        }
      }
      ok := true;
      Occupy(start, index, frame);
    }

    method Occupy(start: nat, index: nat, frame: nat)
      requires Valid() && frame !in Pages() && freeHead != 0
      modifies this
      ensures Valid() && |entries| > 0
      ensures Pages() == old(Pages())[frame := Tracked(1, if start != 0 then Some((start, index)) else None)]
    {
      hide *;
      TableUnfold(this);
      PagesHas(entries, K, F, E, at, frame);
      ghost var es, K0, F0, E0, at0 := entries, K, F, E, at;
      var i := PopFree();
      SortedHas(es, K0, F0, E0, at0, i);
      Blank(i, start, index, frame);
      LinkBoth(i);
      used := used + 1;
      at := at[frame := i];
      SortedTaken(es, K0, F0, E0, at0, i, start, index, frame, entries);
      TableFold(this);
    }

    /** Fills in an entry that is on no chain. */
    method Blank(i: nat, start: nat, index: nat, frame: nat)
      requires Woven() && i < |entries| && i !in K && i !in F && i !in E
      modifies this`entries
      ensures Woven() && entries == old(entries)[i := Entry(start, index, frame, 1, 0, 0)]
    {
      hide KeysWoven, FramesWoven, FreeWoven;
      entries := entries[i := Entry(start, index, frame, 1, 0, 0)];
      KeysKept(old(entries), entries, byKey, keyChains, K);
      FramesKept(old(entries), entries, byFrame, frameChains, F);
      FreeKept(old(entries), entries, freeHead, freeChain, E);
    }

    /** A page read from a file. A file never starts at sector 0, and the page is nobody's yet. */
    method Add(start: nat, index: nat, frame: nat, memory: bool) returns (ok: bool)
      requires Valid() && frame !in Pages() && start != 0
      modifies this
      ensures Valid() && ok == (old(freeHead) != 0 || memory)
      ensures ok ==> |entries| > 0
      ensures Pages() == if ok then old(Pages())[frame := Tracked(1, Some((start, index)))] else old(Pages())
    {
      ok := Place(start, index, frame, memory);
    }

    /** A process's own page, with no file behind it. */
    method Adopt(frame: nat, memory: bool) returns (ok: bool)
      requires Valid() && frame !in Pages()
      modifies this
      ensures Valid() && ok == (old(freeHead) != 0 || memory)
      ensures ok ==> |entries| > 0
      ensures Pages() == if ok then old(Pages())[frame := Tracked(1, None)] else old(Pages())
    {
      ok := Place(0, 0, frame, memory);
    }

    /** The entry that is page index of the file at start, one-based; 0 if none is. */
    method Lookup(start: nat, index: nat) returns (link: nat)
      requires Valid()
      ensures link == 0 ==> forall f :: !IsFilePage(Pages(), f, start, index)
      ensures link != 0 ==> link - 1 < |entries| && link - 1 in K &&
                            entries[link - 1].start == start && entries[link - 1].index == index
    {
      hide *;
      if |entries| == 0 {
        NobodyTracked(this, start, index);
        return 0;
      }
      KeyBucketIs(this, start, index);
      var b := KeyHash(start, index, |entries|);
      ghost var c := keyChains[b];
      link := byKey[b];
      ghost var p := 0;
      while link != 0 && !(entries[link - 1].start == start && entries[link - 1].index == index)
        invariant 0 <= p <= |c|
        invariant link == LinkTo(c, p) && link <= |entries|
        invariant forall j :: 0 <= j < p && c[j] < |entries| ==>
          entries[c[j]].start != start || entries[c[j]].index != index
        decreases |c| - p
      {
        LinkSplit(c, p);
        ChainStep(byKey[b], c, NextKeys(entries), p);
        link := entries[link - 1].nextKey;
        p := p + 1;
        LinkSplit(c, p);
        if p < |c| { ChainStep(byKey[b], c, NextKeys(entries), p); }
      }
      LinkSplit(c, p);
      if link == 0 {
        NotFound(this, start, index);
      } else {
        assert c[p] in c;
      }
    }

    /** The frame that is page index of the file at start, counted once more; None if no frame is. */
    method Find(start: nat, index: nat) returns (page: Option<nat>)
      requires Valid()
      modifies this
      ensures Valid() && |entries| == |old(entries)|
      ensures page.None? ==> Pages() == old(Pages()) && forall f :: !IsFilePage(old(Pages()), f, start, index)
      ensures page.Some? ==>
        var m := old(Pages());
        IsFilePage(m, page.value, start, index) && Pages() == Recount(m, page.value, m[page.value].refs + 1)
    {
      hide *;
      var link := Lookup(start, index);
      if link == 0 {
        return None;
      }
      var e := entries[link - 1];
      FoundIs(this, link - 1, start, index);
      SetRefs(link - 1, e.refs + 1);
      TableFold(this);
      page := Some(e.frame);
    }

    /** Sectors lba .. lba + count were written: nothing new gets the pages read from them. */
    method Written(lba: nat, count: nat)
      requires Valid()
      modifies this
      ensures Valid() && |entries| == |old(entries)| && Pages() == Stale(old(Pages()), lba, count)
    {
      var i := 0;
      hide *;
      NoneStale(this, lba, count);
      while i < |entries|
        invariant 0 <= i <= |entries| == |old(entries)|
        invariant Valid()
        invariant StaleBelow(old(Pages()), Pages(), at, i, lba, count)
      {
        var e := entries[i];
        ghost var m := Pages();
        KeyKnown(this, i);
        TableUnfold(this);
        if e.refs != 0 && e.start != 0 && Overlaps(e.start, e.index, lba, count) {
          ghost var es, K0 := entries, K;
          UnlinkKey(i);
          UnkeyedLinks(es, i, entries);
          SortedUnkeyed(es, K0, F, E, at, i, entries);
          TableFold(this);
        }
        StaleStep(old(Pages()), m, Pages(), at, i, lba, count, e);
        i := i + 1;
      }
      AllStale(this, old(Pages()), lba, count);
    }
  }

  /** m0 with the pages tracked by entries below i gone stale where they overlap. */
  ghost predicate StaleBelow(m0: Model, m: Model, at: map<nat, nat>, i: nat, lba: nat, count: nat)
  {
    && m.Keys == m0.Keys == at.Keys
    && forall f :: f in m0 ==>
         m[f] == if at[f] < i && m0[f].key.Some? && Overlaps(m0[f].key.value.0, m0[f].key.value.1, lba, count)
                 then m0[f].(key := None) else m0[f]
  }

  lemma {:induction false} NoneStale(t: SharedPages, lba: nat, count: nat)
    requires t.Valid()
    ensures t.Woven() && StaleBelow(t.Pages(), t.Pages(), t.at, 0, lba, count)
  {
    hide SharedPages.Woven;
  }

  lemma {:induction false} StaleStep(m0: Model, m: Model, m': Model, at: map<nat, nat>, i: nat, lba: nat, count: nat,
      e: Entry)
    requires StaleBelow(m0, m, at, i, lba, count)
    requires forall f :: f in at && at[f] == i ==> e.refs != 0 && f == e.frame
    requires e.refs != 0 ==> e.frame in at && e.frame in m && at[e.frame] == i &&
                             m[e.frame].key == if e.start != 0 then Some((e.start, e.index)) else None
    requires m' == if e.refs != 0 && e.start != 0 && Overlaps(e.start, e.index, lba, count)
                   then m[e.frame := m[e.frame].(key := None)] else m
    ensures StaleBelow(m0, m', at, i + 1, lba, count)
  {
    hide Overlaps;
  }

  lemma {:induction false} AllStale(t: SharedPages, m0: Model, lba: nat, count: nat)
    requires t.Valid() && StaleBelow(m0, t.Pages(), t.at, |t.entries|, lba, count)
    ensures t.Pages() == Stale(m0, lba, count)
  {
    hide SharedPages.Woven, Overlaps;
  }

  lemma {:induction false} UnkeyedLinks(es: seq<Entry>, i: nat, es': seq<Entry>)
    requires i < |es| && KeyLinksOnly(es[i := es[i].(start := 0)], es')
    ensures LinksOnly(es[i := es[i].(start := 0)], es') && |es'| == |es|
  {
  }

  lemma {:induction false} NobodyTracked(t: SharedPages, start: nat, index: nat)
    requires t.Valid() && |t.entries| == 0
    ensures forall f :: !IsFilePage(t.Pages(), f, start, index)
  {
    hide SharedPages.Woven;
  }

  /** What the table says about the frame of entry i, and that no other entry tracks it. */
  lemma {:induction false} KeyKnown(t: SharedPages, i: nat)
    requires t.Valid() && i < |t.entries|
    ensures i in t.F <==> t.entries[i].refs != 0
    ensures i in t.K <==> t.entries[i].refs != 0 && t.entries[i].start != 0
    ensures i in t.F ==> t.entries[i].frame in t.Pages() && t.at[t.entries[i].frame] == i
    ensures i in t.F ==>
              t.Pages()[t.entries[i].frame].key ==
              if t.entries[i].start != 0 then Some((t.entries[i].start, t.entries[i].index)) else None
    ensures forall f :: f in t.at && t.at[f] == i ==> i in t.F && f == t.entries[i].frame
    ensures t.Pages().Keys == t.at.Keys
  {
    hide SharedPages.Woven;
  }

  /** The bucket of a key: it holds every page with that key. */
  lemma {:induction false} KeyBucketIs(t: SharedPages, start: nat, index: nat)
    requires t.Valid() && |t.entries| > 0
    ensures var b := KeyHash(start, index, |t.entries|);
            && |t.byKey| == |t.keyChains| == |t.entries|
            && Chain(t.byKey[b], t.keyChains[b], NextKeys(t.entries))
            && t.byKey[b] == LinkTo(t.keyChains[b], 0) <= |t.entries|
            && (forall i :: i in t.keyChains[b] ==> i < |t.entries| && i in t.K)
            && (forall i :: i in t.K && i < |t.entries| && t.entries[i].start == start && t.entries[i].index == index
                  ==> i in t.keyChains[b])
  {
    hide KeyHash, FramesWoven, FreeWoven, Sorted;
    var b := KeyHash(start, index, |t.entries|);
    BucketAt(t.byKey, t.keyChains, NextKeys(t.entries), KeyHomes(t.entries), t.K, b);
    hide Buckets;
  }

  lemma {:induction false} FoundIs(t: SharedPages, i: nat, start: nat, index: nat)
    requires t.Valid() && i in t.K && i < |t.entries|
    requires t.entries[i].start == start && t.entries[i].index == index
    ensures var e := t.entries[i];
            && t.Woven() && t.used == |t.F|
            && IsFilePage(t.Pages(), e.frame, start, index) && t.Pages()[e.frame].refs == e.refs
            && Sorted(t.entries[i := e.(refs := e.refs + 1)], t.K, t.F, t.E, t.at)
            && PagesOf(t.entries[i := e.(refs := e.refs + 1)], t.K, t.F, t.E, t.at)
               == Recount(t.Pages(), e.frame, e.refs + 1)
  {
    hide SharedPages.Woven;
    SortedCounted(t.entries, t.K, t.F, t.E, t.at, i, t.entries[i].refs + 1);
  }

  lemma {:induction false} NotFound(t: SharedPages, start: nat, index: nat)
    requires t.Valid() && |t.entries| > 0 && |t.keyChains| == |t.entries|
    requires var c := t.keyChains[KeyHash(start, index, |t.entries|)];
             forall j :: 0 <= j < |c| && c[j] < |t.entries| ==>
               t.entries[c[j]].start != start || t.entries[c[j]].index != index
    ensures forall f :: !IsFilePage(t.Pages(), f, start, index)
  {
    KeyBucketIs(t, start, index);
    hide KeyHash, SharedPages.Woven;
    forall f | f in t.Pages()
      ensures !IsFilePage(t.Pages(), f, start, index)
    {
      var i, c := t.at[f], t.keyChains[KeyHash(start, index, |t.entries|)];
      if i in c {
        var j :| 0 <= j < |c| && c[j] == i;
      }
    }
  }

  /** No chains at all yet, over any entries. */
  lemma {:induction false} Unwoven(t: SharedPages)
    requires |t.byKey| == |t.keyChains| == |t.byFrame| == |t.frameChains| == |t.entries|
    requires forall b :: 0 <= b < |t.entries| ==> t.byKey[b] == 0 && t.keyChains[b] == []
    requires forall b :: 0 <= b < |t.entries| ==> t.byFrame[b] == 0 && t.frameChains[b] == []
    requires t.freeHead == 0 && t.freeChain == [] && t.K == {} && t.F == {} && t.E == {}
    ensures t.Woven()
  {
    NoBuckets(t.byKey, t.keyChains, NextKeys(t.entries), KeyHomes(t.entries));
    NoBuckets(t.byFrame, t.frameChains, NextFrames(t.entries), FrameHomes(t.entries));
    hide Buckets;
  }

  /** Entries from i on are on the chains they belong on, the ones before it on none. */
  ghost predicate RebuiltFrom(es: seq<Entry>, i: nat, K: set<nat>, F: set<nat>, E: set<nat>)
  {
    && (forall j :: j in F <==> i <= j < |es| && es[j].refs > 0)
    && (forall j :: j in E <==> i <= j < |es| && es[j].refs == 0)
    && (forall j :: j in K <==> i <= j < |es| && es[j].refs > 0 && es[j].start != 0)
  }

  lemma {:induction false} RebuiltNone(es: seq<Entry>)
    ensures LinksOnly(es, es) && RebuiltFrom(es, |es|, {}, {}, {})
  {
  }

  lemma {:induction false} SortedRebuilt(es: seq<Entry>, K: set<nat>, F: set<nat>, E: set<nat>, at: map<nat, nat>,
                      base: seq<Entry>, es': seq<Entry>, K': set<nat>, F': set<nat>, E': set<nat>)
    requires Sorted(es, K, F, E, at) && (forall j :: j in F ==> j < |es|) && |es| <= |es'|
    requires base == es + Blanks(|es'| - |es|)
    requires LinksOnly(base, es') && RebuiltFrom(base, 0, K', F', E')
    ensures Sorted(es', K', F', E', at) && PagesOf(es', K', F', E', at) == PagesOf(es, K, F, E, at)
    ensures F' == F
    ensures |es| < |es'| ==> es'[|es|].refs == 0
  {
  }

  lemma {:induction false} TableUnfold(t: SharedPages)
    requires t.Valid()
    ensures t.Woven() && Sorted(t.entries, t.K, t.F, t.E, t.at) && t.used == |t.F|
    ensures forall j :: j in t.F ==> j < |t.entries|
    ensures t.Pages() == PagesOf(t.entries, t.K, t.F, t.E, t.at)
  {
  }

  lemma {:induction false} TableFold(t: SharedPages)
    requires t.Woven() && Sorted(t.entries, t.K, t.F, t.E, t.at) && t.used == |t.F|
    ensures t.Valid() && t.Pages() == PagesOf(t.entries, t.K, t.F, t.E, t.at)
  {
  }

  /** With an entry free there is one to hand out. */
  lemma {:induction false} FreeHeadIs(t: SharedPages, i: nat)
    requires t.Valid() && i < |t.entries| && t.entries[i].refs == 0
    ensures t.freeHead != 0
  {
    hide KeysWoven, FramesWoven;
    assert i in t.freeChain;
  }

  function Bigger(room: nat): (r: nat)
    ensures r > room
  {
    if room == 0 then FIRST_ROOM else room * 2
  }

  function Zeros(n: nat): (r: seq<nat>)
    ensures |r| == n && forall i :: 0 <= i < n ==> r[i] == 0
  {
    seq(n, _ => 0)
  }

  function Blanks(n: nat): (r: seq<Entry>)
    ensures |r| == n && forall i :: 0 <= i < n ==> r[i] == BLANK
  {
    seq(n, _ => BLANK)
  }

  ghost function Empties(n: nat): (r: seq<seq<nat>>)
    ensures |r| == n && forall i :: 0 <= i < n ==> r[i] == []
  {
    seq(n, _ => [])
  }

  /** The bucket of a frame: where its entry is, if it has one. */
  lemma {:induction false} FrameBucketIs(t: SharedPages, frame: nat)
    requires t.Valid() && |t.entries| > 0
    ensures var b := FrameHash(frame, |t.entries|);
            && |t.byFrame| == |t.frameChains| == |t.entries|
            && Chain(t.byFrame[b], t.frameChains[b], NextFrames(t.entries))
            && t.byFrame[b] == LinkTo(t.frameChains[b], 0) <= |t.entries|
            && (frame in t.at ==> t.at[frame] in t.frameChains[b])
            && (forall i :: i in t.frameChains[b] ==>
                  i < |t.entries| && t.entries[i].frame in t.at && t.at[t.entries[i].frame] == i)
            && (frame in t.at ==> t.at[frame] < |t.entries| && t.entries[t.at[frame]].frame == frame)
  {
    hide FrameHash, KeysWoven, FreeWoven;
    var b := FrameHash(frame, |t.entries|);
    BucketAt(t.byFrame, t.frameChains, NextFrames(t.entries), FrameHomes(t.entries), t.F, b);
    hide Buckets;
    if frame in t.at {
      BucketMember(t.byFrame, t.frameChains, NextFrames(t.entries), FrameHomes(t.entries), t.F, t.at[frame]);
    }
  }

  lemma {:induction false} LinkSplit(c: seq<nat>, k: nat)
    requires k <= |c|
    ensures LinkTo(c, k) == if k < |c| then c[k] + 1 else 0
  {
  }

  lemma {:induction false} LinkIs(c: seq<nat>, k: nat, p: nat, i: nat)
    requires k <= p < |c| && c[p] == i
    ensures LinkTo(c, k) == c[k] + 1
    ensures LinkTo(c, k) != i + 1 ==> k < p
  {
  }

  lemma {:induction false} LinkFound(head: nat, c: seq<nat>, next: seq<nat>, k: nat, p: nat, i: nat)
    requires Chain(head, c, next) && k <= p < |c| && c[k] == c[p] == i
    ensures k == p
  {
  }

  /** Position p of key bucket b and the one before it are entries of K. */
  lemma {:induction false} KeyInside(es: seq<Entry>, heads: seq<nat>, chains: seq<seq<nat>>, K: set<nat>, b: nat,
      p: nat)
    requires KeysWoven(es, heads, chains, K) && b < |es| == |chains| && p < |chains[b]|
    ensures p > 0 ==> chains[b][p - 1] < |es| && chains[b][p - 1] in K
  {
    hide Chain, KeyHash;
    BucketAt(heads, chains, NextKeys(es), KeyHomes(es), K, b);
    if p > 0 { assert chains[b][p - 1] in chains[b]; }
  }

  /** What unlinking entry i through the link at `from` does to the entries. */
  lemma {:induction false} KeyRelinked(es: seq<Entry>, i: nat, from: nat, es': seq<Entry>)
    requires i < |es| && from <= |es|
    requires es' == (var t := if from == 0 then es else es[from - 1 := es[from - 1].(nextKey := es[i].nextKey)];
                     t[i := t[i].(start := 0)])
    ensures KeyLinksOnly(es[i := es[i].(start := 0)], es')
    ensures NextKeys(es') == if from == 0 then NextKeys(es) else NextKeys(es)[from - 1 := es[i].nextKey]
    ensures forall j :: 0 <= j < |es| && j + 1 != from ==> es'[j].nextKey == es[j].nextKey
    ensures forall j :: 0 <= j < |es| ==> es'[j].frame == es[j].frame && es'[j].nextFrame == es[j].nextFrame
    ensures forall j :: 0 <= j < |es| && j != i ==> es'[j].start == es[j].start && es'[j].index == es[j].index
  {
  }

  /** The same entries but for key links. */
  ghost predicate KeyLinksOnly(es: seq<Entry>, es': seq<Entry>)
  {
    |es'| == |es| && forall j :: 0 <= j < |es| ==> es'[j] == es[j].(nextKey := es'[j].nextKey)
  }

  /** The same entries but for frame links. */
  ghost predicate FrameLinksOnly(es: seq<Entry>, es': seq<Entry>)
  {
    |es'| == |es| && forall j :: 0 <= j < |es| ==> es'[j] == es[j].(nextFrame := es'[j].nextFrame)
  }

  lemma {:induction false} FrameRelinked(es: seq<Entry>, i: nat, from: nat, es': seq<Entry>)
    requires i < |es| && from <= |es|
    requires es' == if from == 0 then es else es[from - 1 := es[from - 1].(nextFrame := es[i].nextFrame)]
    ensures FrameLinksOnly(es, es')
    ensures NextFrames(es') == if from == 0 then NextFrames(es) else NextFrames(es)[from - 1 := es[i].nextFrame]
  {
  }

  /** A table that tracks a frame has room for entries. */
  lemma {:induction false} TrackedRoom(t: SharedPages, f: nat)
    requires t.Valid() && f in t.Pages()
    ensures |t.entries| > 0
  {
    hide SharedPages.Woven;
  }
}
