/**
 * Singly linked chains threaded through an array by one-based indices, with 0
 * as the end of a chain. `next[i]` is the link stored in element i.
 */
module Chains {

  ghost predicate Distinct(c: seq<nat>)
  {
    forall j, k :: 0 <= j < k < |c| ==> c[j] != c[k]
  }

  /** The link that stands before position k of chain c. */
  ghost function LinkTo(c: seq<nat>, k: nat): nat
    requires k <= |c|
  {
    if k < |c| then c[k] + 1 else 0
  }

  /** Following the links from head visits exactly c, in order, and ends. */
  ghost predicate Chain(head: nat, c: seq<nat>, next: seq<nat>)
  {
    && Distinct(c)
    && (forall k :: 0 <= k < |c| ==> c[k] < |next|)
    && head == LinkTo(c, 0)
    && (forall j, k :: 0 <= j && k == j + 1 && k < |c| ==> next[c[j]] == c[k] + 1)
    && (|c| > 0 ==> next[c[|c| - 1]] == 0)
  }

  /** One step along a chain. */
  lemma {:induction false} ChainStep(head: nat, c: seq<nat>, next: seq<nat>, k: nat)
    requires Chain(head, c, next) && k < |c|
    ensures c[k] < |next| && next[c[k]] == LinkTo(c, k + 1)
  {
  }

  /** Chain c without its element at position k. */
  ghost function Without(c: seq<nat>, k: nat): (r: seq<nat>)
    requires k < |c|
  {
    c[..k] + c[k + 1..]
  }

  lemma {:induction false} WithoutMembers(c: seq<nat>, k: nat)
    requires k < |c| && Distinct(c)
    ensures Distinct(Without(c, k))
    ensures forall i :: i in Without(c, k) <==> i in c && i != c[k]
  {
  }

  /** A chain depends only on the links of its own elements. */
  lemma {:induction false} ChainFrame(head: nat, c: seq<nat>, next: seq<nat>, next': seq<nat>)
    requires Chain(head, c, next)
    requires |next| <= |next'|
    requires forall i :: i in c && i < |next| ==> next'[i] == next[i]
    ensures Chain(head, c, next')
  {
  }

  /** Pushing a new element at the front. */
  lemma {:induction false} ChainPush(head: nat, c: seq<nat>, next: seq<nat>, i: nat)
    requires Chain(head, c, next) && i < |next| && i !in c
    ensures Chain(i + 1, [i] + c, next[i := head])
  {
  }

  /** Cutting out the first element: the head takes over its link. */
  lemma {:induction false} ChainCutFirst(head: nat, c: seq<nat>, next: seq<nat>)
    requires Chain(head, c, next) && |c| > 0
    ensures Chain(next[c[0]], Without(c, 0), next)
  {
    var w := Without(c, 0);
    assert w == c[1..];
    hide Without;
    assert forall i :: 0 <= i < |w| ==> w[i] == c[i + 1];
  }

  /** Cutting out a later element: the one before it takes over its link. */
  lemma {:induction false} ChainCut(head: nat, c: seq<nat>, next: seq<nat>, k: nat)
    requires Chain(head, c, next) && 0 < k < |c|
    ensures Chain(head, Without(c, k), next[c[k - 1] := next[c[k]]])
  {
    var w, next' := Without(c, k), next[c[k - 1] := next[c[k]]];
    forall i, j | 0 <= i && j == i + 1 && j < |w|
      ensures next'[w[i]] == w[j] + 1
    {
      if i == k - 1 { assert w[j] == c[k + 1]; }
    }
  }

  /** An element at position p cut out: the link before it takes over its link. */
  lemma {:induction false} CutChain(head: nat, c: seq<nat>, next: seq<nat>, p: nat, head': nat, next': seq<nat>)
    requires Chain(head, c, next) && p < |c|
    requires if p == 0 then head' == next[c[0]] && next' == next
             else head' == head && next' == next[c[p - 1] := next[c[p]]]
    ensures Chain(head', Without(c, p), next')
    ensures forall i :: i in Without(c, p) <==> i in c && i != c[p]
  {
    hide Without;
    if p == 0 { ChainCutFirst(head, c, next); } else { ChainCut(head, c, next, p); }
    WithoutMembers(c, p);
  }

  // ---- hash buckets: one chain per head, each element in the chain of its home bucket

  ghost predicate Holds(c: seq<nat>, home: seq<nat>, M: set<nat>, b: nat)
  {
    forall i :: i in c <==> i in M && i < |home| && home[i] == b
  }

  /** The chains from heads hold exactly the elements of M, element i in bucket home[i]. */
  ghost predicate Buckets(heads: seq<nat>, chains: seq<seq<nat>>, next: seq<nat>, home: seq<nat>, M: set<nat>)
  {
    && |heads| == |chains| && |next| == |home|
    && (forall i :: i in M ==> i < |home| && home[i] < |heads|)
    && (forall b :: 0 <= b < |heads| ==> Chain(heads[b], chains[b], next) && Holds(chains[b], home, M, b))
  }

  lemma {:induction false} BucketAt(heads: seq<nat>, chains: seq<seq<nat>>, next: seq<nat>, home: seq<nat>, M: set<nat>,
      b: nat)
    requires Buckets(heads, chains, next, home, M) && b < |heads|
    ensures |heads| == |chains| && |next| == |home|
    ensures Chain(heads[b], chains[b], next) && Holds(chains[b], home, M, b)
  {
    hide Chain, Holds;
  }

  /** Element i of M is on the chain of its home bucket. */
  lemma {:induction false} BucketMember(heads: seq<nat>, chains: seq<seq<nat>>, next: seq<nat>, home: seq<nat>,
      M: set<nat>, i: nat)
    requires Buckets(heads, chains, next, home, M) && i in M
    ensures i < |home| && home[i] < |heads| == |chains| && i in chains[home[i]]
  {
    hide Chain;
  }

  /** Buckets see only the links and homes of their own elements. */
  lemma {:induction false} BucketsKept(heads: seq<nat>, chains: seq<seq<nat>>, next: seq<nat>, home: seq<nat>,
      M: set<nat>, next': seq<nat>, home': seq<nat>)
    requires Buckets(heads, chains, next, home, M)
    requires |next'| == |home'| == |home|
    requires forall i :: i in M && i < |home| ==> next'[i] == next[i] && home'[i] == home[i]
    ensures Buckets(heads, chains, next', home', M)
  {
    forall b | 0 <= b < |heads|
      ensures Chain(heads[b], chains[b], next') && Holds(chains[b], home', M, b)
    {
      hide Chain;
      BucketAt(heads, chains, next, home, M, b);
      ChainFrame(heads[b], chains[b], next, next');
    }
  }

  lemma {:induction false} BucketPushed(heads: seq<nat>, chains: seq<seq<nat>>, next: seq<nat>, home: seq<nat>,
      M: set<nat>, i: nat)
    requires Buckets(heads, chains, next, home, M)
    requires i !in M && i < |home| && home[i] < |heads|
    ensures var a := home[i];
            Buckets(heads[a := i + 1], chains[a := [i] + chains[a]], next[i := heads[a]], home, M + {i})
  {
    var a := home[i];
    var heads', chains', next', M' := heads[a := i + 1], chains[a := [i] + chains[a]], next[i := heads[a]], M + {i};
    forall b | 0 <= b < |heads'|
      ensures Chain(heads'[b], chains'[b], next') && Holds(chains'[b], home, M', b)
    {
      hide Chain;
      BucketAt(heads, chains, next, home, M, b);
      if b == a {
        ChainPush(heads[b], chains[b], next, i);
      } else {
        ChainFrame(heads[b], chains[b], next, next');
      }
    }
  }

  lemma {:induction false} HoldsApart(c: seq<nat>, d: seq<nat>, home: seq<nat>, M: set<nat>, a: nat, b: nat)
    requires Holds(c, home, M, a) && Holds(d, home, M, b) && a != b
    ensures forall i :: i in c ==> i !in d
  {
  }

  lemma {:induction false} HoldsCut(c: seq<nat>, c': seq<nat>, home: seq<nat>, home': seq<nat>, M: set<nat>, i: nat,
      b: nat)
    requires Holds(c, home, M, b) && |home'| == |home|
    requires forall j :: j in M && j != i && j < |home| ==> home'[j] == home[j]
    requires forall j :: j in c' <==> j in c && j != i
    ensures Holds(c', home', M - {i}, b)
  {
  }

  lemma {:induction false} BucketCut(heads: seq<nat>, chains: seq<seq<nat>>, next: seq<nat>, home: seq<nat>,
      M: set<nat>, i: nat, p: nat, heads': seq<nat>, next': seq<nat>, home': seq<nat>)
    requires Buckets(heads, chains, next, home, M) && i in M
    requires |home'| == |home| && forall j :: j in M && j != i && j < |home| ==> home'[j] == home[j]
    requires var a := home[i];
             && p < |chains[a]| && chains[a][p] == i
             && (if p == 0 then heads' == heads[a := next[i]] && next' == next
                 else heads' == heads && next' == next[chains[a][p - 1] := next[i]])
    ensures var a := home[i];
            Buckets(heads', chains[a := Without(chains[a], p)], next', home', M - {i})
  {
    var a := home[i];
    var chains' := chains[a := Without(chains[a], p)];
    forall b | 0 <= b < |heads'|
      ensures Chain(heads'[b], chains'[b], next') && Holds(chains'[b], home', M - {i}, b)
    {
      hide *;
      BucketAt(heads, chains, next, home, M, a);
      BucketAt(heads, chains, next, home, M, b);
      if b == a {
        CutChain(heads[a], chains[a], next, p, heads'[a], next');
        HoldsCut(chains[a], chains'[a], home, home', M, i, a);
      } else {
        HoldsApart(chains[a], chains[b], home, M, a, b);
        HoldsCut(chains[b], chains[b], home, home', M, i, b);
        if p > 0 { assert chains[a][p - 1] in chains[a]; }
        ChainFrame(heads[b], chains[b], next, next');
      }
    }
  }

  lemma {:induction false} NoBuckets(heads: seq<nat>, chains: seq<seq<nat>>, next: seq<nat>, home: seq<nat>)
    requires |heads| == |chains| && |next| == |home|
    requires forall b :: 0 <= b < |heads| ==> heads[b] == 0 && chains[b] == []
    ensures Buckets(heads, chains, next, home, {})
  {
  }
}
