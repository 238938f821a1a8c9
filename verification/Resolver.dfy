/**
 * Choosing packages (src/tuxpac/tuxpac.c): one pass over the index finds the best line
 * for each want, and rounds of that close the plan under dependencies.
 */
module Resolver {
  import opened Base
  import opened Versions

  const PLAN: nat := 1024
  const WANTS: nat := 2048
  const WTEXT: nat := 65536
  const NAMES: nat := 32768
  /** No line found yet. */
  const NONE: nat := 255

  /** Alternatives, any of which will do. */
  type Group = seq<string>

  datatype Line = Line(name: string, ver: Text, offers: seq<string>, deps: seq<Group>)
  datatype Installed = Installed(name: string, ver: Text, offers: seq<string>, gone: bool, flag: char)
  datatype Kind = Dep | Target | Upgrade
  datatype Want = Want(group: Group, kind: Kind, rank: nat, off: nat, ver: Text)
  datatype Planned = Planned(off: nat, name: string, flag: char)

  // ---- the best line for a want

  /**
   * How well a line answers alternatives from the k-th on: 2 k by name, 2 k + 1 by what it
   * provides, as far as 8 bits go.
   */
  function RankFrom(l: Line, g: Group, kind: Kind, k: nat): (r: nat)
    decreases |g| - k
  {
    if k >= |g| || 2 * k > NONE then NONE
    else if g[k] == l.name then 2 * k
    else if kind != Upgrade && g[k] in l.offers && 2 * k + 1 < NONE then 2 * k + 1
    else RankFrom(l, g, kind, k + 1)
  }

  function Rank(l: Line, g: Group, kind: Kind): (r: nat)
  {
    RankFrom(l, g, kind, 0)
  }

  /** Line l is what alternative a asks for. */
  ghost predicate Suits(l: Line, kind: Kind, a: string)
  {
    l.name == a || (kind != Upgrade && a in l.offers)
  }

  /** A line has a rank exactly if it is what one of the first 127 alternatives asks for, or the 128th names it. */
  lemma {:induction false} RankFound(l: Line, g: Group, kind: Kind)
    ensures Rank(l, g, kind) < NONE <==>
      exists k :: 0 <= k < |g| && ((k < 127 && Suits(l, kind, g[k])) || (k == 127 && g[k] == l.name))
  {
    if Rank(l, g, kind) < NONE {
      var k := RankHit(l, g, kind, 0);
      assert (k < 127 && Suits(l, kind, g[k])) || (k == 127 && g[k] == l.name);
    }
    if exists k :: 0 <= k < |g| && ((k < 127 && Suits(l, kind, g[k])) || (k == 127 && g[k] == l.name)) {
      var k :| 0 <= k < |g| && ((k < 127 && Suits(l, kind, g[k])) || (k == 127 && g[k] == l.name));
      RankOf(l, g, kind, k, 0);
    }
  }

  lemma {:induction false} RankOf(l: Line, g: Group, kind: Kind, k: nat, i: nat)
    requires i <= k < |g| && ((k < 127 && Suits(l, kind, g[k])) || (k == 127 && g[k] == l.name))
    ensures RankFrom(l, g, kind, i) < NONE
    decreases |g| - i
  {
    if i < k { RankOf(l, g, kind, k, i + 1); }
  }

  lemma {:induction false} RankHit(l: Line, g: Group, kind: Kind, i: nat) returns (k: nat)
    requires RankFrom(l, g, kind, i) < NONE
    ensures k < |g| && ((k < 127 && Suits(l, kind, g[k])) || (k == 127 && g[k] == l.name))
    decreases |g| - i
  {
    if g[i] == l.name || (kind != Upgrade && g[i] in l.offers && i < 127) { k := i; }
      else { k := RankHit(l, g, kind, i + 1); }
  }

  /** A version as it is copied out of a line. */
  function Cut(v: Text): (r: Text)
    ensures r <= v && |r| == if |v| < 39 then |v| else 39
  {
    if |v| < VER then v else v[..VER - 1]
  }

  /** Of the first n lines, the one found for x: of least rank, and of those none is newer. */
  ghost predicate Best(lines: seq<Line>, n: nat, x: Want)
  {
    && n <= |lines| && x.rank <= NONE
    && (forall i :: 0 <= i < n ==> x.rank <= Rank(lines[i], x.group, x.kind))
    && (x.rank < NONE ==>
        && x.off < n && Rank(lines[x.off], x.group, x.kind) == x.rank && x.ver == Cut(lines[x.off].ver)
        && forall i :: 0 <= i < n ==> NotNewer(lines[i], x))
  }

  ghost predicate NotNewer(l: Line, x: Want)
  {
    Rank(l, x.group, x.kind) == x.rank ==> Compare(Cut(l.ver), x.ver) <= 0
  }

  /** Whether a line replaces the one found. */
  ghost predicate Beats(l: Line, x: Want)
  {
    var r := Rank(l, x.group, x.kind);
    r < x.rank || (r == x.rank < NONE && Compare(Cut(l.ver), x.ver) > 0)
  }

  lemma {:induction false} RankBound(l: Line, g: Group, kind: Kind, k: nat)
    ensures var r := RankFrom(l, g, kind, k); r == NONE || 2 * k <= r < NONE
    decreases |g| - k
  {
    if k < |g| { RankBound(l, g, kind, k + 1); }
  }

  /** One more line looked at. */
  lemma {:induction false} BestNext(lines: seq<Line>, n: nat, x: Want)
    requires Best(lines, n, x) && n < |lines|
    ensures var l := lines[n]; var r := Rank(l, x.group, x.kind);
      Best(lines, n + 1, if Beats(l, x) then x.(rank := r, off := n, ver := Cut(l.ver)) else x)
  {
    hide Compare, RankFrom;
    var l := lines[n];
    var y := x.(rank := Rank(l, x.group, x.kind), off := n, ver := Cut(l.ver));
    RankBound(l, x.group, x.kind, 0);
    if Beats(l, x) {
      forall i | 0 <= i < n + 1 ensures NotNewer(lines[i], y) {
        if i < n && Rank(lines[i], x.group, x.kind) == y.rank { NoNewer(lines[i], l, x); }
        VersionLaws(Cut(l.ver), Cut(l.ver));
      }
    } else {
      forall i | 0 <= i < n + 1 && x.rank < NONE ensures NotNewer(lines[i], x) {
        if i < n { assert NotNewer(lines[i], x); }
      }
    }
  }

  lemma {:induction false} NoNewer(m: Line, l: Line, x: Want)
    requires Rank(m, x.group, x.kind) == Rank(l, x.group, x.kind) && x.rank <= Rank(m, x.group, x.kind)
      && NotNewer(m, x) && Beats(l, x)
    ensures Compare(Cut(m.ver), Cut(l.ver)) <= 0
  {
    hide Compare, Rank;
    VersionLaws(Cut(l.ver), x.ver);
    VersionChain(Cut(m.ver), x.ver, Cut(l.ver));
  }

  /** What a line leaves of a want: of one without a rank the place and version mean nothing. */
  ghost predicate Matched(l: Line, at: nat, x: Want, x': Want)
  {
    if Beats(l, x) then x' == x.(rank := Rank(l, x.group, x.kind), off := at, ver := Cut(l.ver))
    else x' == x || (x.rank == NONE && x' == x.(off := x'.off, ver := x'.ver))
  }

  lemma {:induction false} BestMatched(lines: seq<Line>, n: nat, x: Want, x': Want)
    requires Best(lines, n, x) && n < |lines| && Matched(lines[n], n, x, x')
    ensures Best(lines, n + 1, x')
  {
    BestNext(lines, n, x);
    hide Rank, Compare;
  }

  /** A line held against a want. */
  method Match(l: Line, at: nat, x: Want) returns (x': Want)
    requires x.rank <= NONE
    ensures Matched(l, at, x, x')
  {
    hide Compare;
    var k: nat := 0;
    while k < |x.group| && 2 * k <= x.rank
      invariant k <= |x.group|
      invariant Rank(l, x.group, x.kind) == RankFrom(l, x.group, x.kind, k)
        || (Rank(l, x.group, x.kind) > x.rank && 2 * k > x.rank)
    {
      if x.group[k] == l.name {
        x' := Better(l, at, x, 2 * k);
        return;
      }
      if x.kind != Upgrade && 2 * k + 1 <= x.rank && x.group[k] in l.offers {
        x' := Better(l, at, x, 2 * k + 1);
        return;
      }
      RankBound(l, x.group, x.kind, k);
      RankBound(l, x.group, x.kind, k + 1);
      k := k + 1;
    }
    RankBound(l, x.group, x.kind, k);
    x' := x;
  }

  /** Taken if the rank is better, or as good and the version newer. */
  method Better(l: Line, at: nat, x: Want, r: nat) returns (x': Want)
    requires r <= x.rank
    ensures x' == if r < x.rank || Compare(Cut(l.ver), x.ver) > 0
                  then x.(rank := r, off := at, ver := Cut(l.ver)) else x
  {
    hide Compare;
    var c := Vcmp(Cut(l.ver), x.ver);
    if r < x.rank || c > 0 {
      x' := x.(rank := r, off := at, ver := Cut(l.ver));
    } else {
      x' := x;
    }
  }

  // ---- the plan

  function Plans(plan: seq<Planned>, name: string): (r: bool)
  {
    exists i :: 0 <= i < |plan| && plan[i].name == name
  }

  /** Installed package p is what a names, by its name or by what it provides. */
  function Answers(p: Installed, a: string): (r: bool)
  {
    !p.gone && (p.name == a || a in p.offers)
  }

  function Has(db: seq<Installed>, name: string): (r: bool)
  {
    exists i :: 0 <= i < |db| && !db[i].gone && db[i].name == name
  }

  /** An alternative is installed or about to be. */
  ghost predicate Satisfied(db: seq<Installed>, plan: seq<Planned>, g: Group)
  {
    exists k :: 0 <= k < |g| && (Plans(plan, g[k]) || exists i :: 0 <= i < |db| && Answers(db[i], g[k]))
  }

  /** A planned line answers the group, by its name or by what it provides itself. */
  ghost predicate PlanAnswers(lines: seq<Line>, plan: seq<Planned>, g: Group)
  {
    exists i :: 0 <= i < |plan| && LineAnswers(lines, plan[i].off, g)
  }

  ghost predicate LineAnswers(lines: seq<Line>, off: nat, g: Group)
  {
    off < |lines| && exists k :: 0 <= k < |g| && Suits(lines[off], Dep, g[k])
  }

  /** An installed package does, by its name or by what its record says it provides. */
  ghost predicate DbAnswers(db: seq<Installed>, g: Group)
  {
    exists k :: 0 <= k < |g| && exists i :: 0 <= i < |db| && Answers(db[i], g[k])
  }

  ghost predicate Answered(lines: seq<Line>, db: seq<Installed>, plan: seq<Planned>, g: Group)
  {
    PlanAnswers(lines, plan, g) || DbAnswers(db, g)
  }

  const CURL: string := "curl"
  const CERTIFICATES: string := "ca-certificates"

  /** What a package needs: what it says, and what Debian does not. */
  function Needs(l: Line): (r: seq<Group>)
  {
    l.deps + if l.name == CURL then [[CERTIFICATES]] else []
  }

  lemma {:induction false} NeedsAre(l: Line, g: Group)
    ensures g in Needs(l) <==> g in l.deps || (l.name == "curl" && g == ["ca-certificates"])
  {
  }

  ghost predicate Distinct(plan: seq<Planned>)
  {
    forall i, j :: 0 <= i < j < |plan| ==> plan[i].name != plan[j].name
  }

  /** Each planned package is a line of the index. */
  ghost predicate FromIndex(lines: seq<Line>, plan: seq<Planned>)
  {
    forall i :: 0 <= i < |plan| ==> plan[i].off < |lines| && plan[i].name == lines[plan[i].off].name
  }

  /** A group that nobody has to look for any more, or that somebody still will. */
  ghost predicate Cared(lines: seq<Line>, db: seq<Installed>, plan: seq<Planned>, missing: set<Group>, open: set<Group>,
      g: Group)
  {
    g == [] || Answered(lines, db, plan, g) || g in missing || g in open
  }

  /** That is so of every need of every planned package. */
  ghost predicate Closed(lines: seq<Line>, db: seq<Installed>, plan: seq<Planned>, missing: set<Group>,
      open: set<Group>)
  {
    FromIndex(lines, plan) && forall i :: 0 <= i < |plan| ==>
      CaredAll(lines, db, plan, missing, open, lines[plan[i].off])
  }

  ghost predicate CaredAll(lines: seq<Line>, db: seq<Installed>, plan: seq<Planned>, missing: set<Group>,
      open: set<Group>, l: Line)
  {
    forall k :: 0 <= k < |Needs(l)| ==> Cared(lines, db, plan, missing, open, Needs(l)[k])
  }

  // ---- more in the plan, and what is open settled

  lemma {:induction false} PlansMore(plan: seq<Planned>, p: Planned, name: string)
    ensures Plans(plan + [p], name) <==> Plans(plan, name) || name == p.name
  {
    var all := plan + [p];
    if Plans(plan, name) {
      var i :| 0 <= i < |plan| && plan[i].name == name;
      assert all[i].name == name;
    }
    assert all[|plan|] == p;
    if Plans(all, name) {
      var i :| 0 <= i < |all| && all[i].name == name;
      if i < |plan| { assert plan[i].name == name; }
    }
  }

  lemma {:induction false} PlanAnswersMore(lines: seq<Line>, plan: seq<Planned>, plan': seq<Planned>, g: Group)
    requires PlanAnswers(lines, plan, g) && plan <= plan'
    ensures PlanAnswers(lines, plan', g)
  {
    hide LineAnswers;
    var i :| 0 <= i < |plan| && LineAnswers(lines, plan[i].off, g);
    assert LineAnswers(lines, plan'[i].off, g);
  }

  lemma {:induction false} AnsweredMore(lines: seq<Line>, db: seq<Installed>, plan: seq<Planned>, p: Planned, g: Group)
    requires Answered(lines, db, plan, g)
    ensures Answered(lines, db, plan + [p], g)
  {
    hide PlanAnswers, DbAnswers;
    if PlanAnswers(lines, plan, g) { PlanAnswersMore(lines, plan, plan + [p], g); }
  }

  /** A want's line planned answers its group. */
  lemma {:induction false} FoundAnswers(lines: seq<Line>, plan: seq<Planned>, p: Planned, x: Want)
    requires Best(lines, |lines|, x) && x.rank < NONE && x.kind != Upgrade && p.off == x.off
    ensures PlanAnswers(lines, plan + [p], x.group)
  {
    hide Compare;
    var k := RankHit(lines[x.off], x.group, x.kind, 0);
    hide RankFrom;
    assert (plan + [p])[|plan|] == p;
    assert Suits(lines[x.off], Dep, x.group[k]);
    assert LineAnswers(lines, (plan + [p])[|plan|].off, x.group);
  }

  lemma {:induction false} CaredMore(lines: seq<Line>, db: seq<Installed>, plan: seq<Planned>, p: Planned,
      missing: set<Group>, open: set<Group>, l: Line)
    requires CaredAll(lines, db, plan, missing, open, l)
    ensures CaredAll(lines, db, plan + [p], missing, open, l)
  {
    hide Answered;
    forall k | 0 <= k < |Needs(l)| ensures Cared(lines, db, plan + [p], missing, open, Needs(l)[k]) {
      var g := Needs(l)[k];
      assert Cared(lines, db, plan, missing, open, g);
      if Answered(lines, db, plan, g) { AnsweredMore(lines, db, plan, p, g); }
    }
  }

  lemma {:induction false} CaredWider(lines: seq<Line>, db: seq<Installed>, plan: seq<Planned>, missing: set<Group>,
      open: set<Group>, missing': set<Group>, open': set<Group>, l: Line)
    requires CaredAll(lines, db, plan, missing, open, l) && missing <= missing'
    requires forall g :: g in open ==> g in open' || g in missing' || Answered(lines, db, plan, g)
    ensures CaredAll(lines, db, plan, missing', open', l)
  {
    hide Answered;
    forall k | 0 <= k < |Needs(l)| ensures Cared(lines, db, plan, missing', open', Needs(l)[k]) {
      assert Cared(lines, db, plan, missing, open, Needs(l)[k]);
    }
  }

  lemma {:induction false} ClosedWider(lines: seq<Line>, db: seq<Installed>, plan: seq<Planned>, missing: set<Group>,
      open: set<Group>, missing': set<Group>, open': set<Group>)
    requires Closed(lines, db, plan, missing, open) && missing <= missing'
    requires forall g :: g in open ==> g in open' || g in missing' || Answered(lines, db, plan, g)
    ensures Closed(lines, db, plan, missing', open')
  {
    hide Answered, CaredAll;
    forall i | 0 <= i < |plan| ensures CaredAll(lines, db, plan, missing', open', lines[plan[i].off]) {
      CaredWider(lines, db, plan, missing, open, missing', open', lines[plan[i].off]);
    }
  }

  /** One more package, all whose needs are cared for. */
  lemma {:induction false} ClosedMore(lines: seq<Line>, db: seq<Installed>, plan: seq<Planned>, p: Planned,
      missing: set<Group>, open: set<Group>)
    requires Closed(lines, db, plan, missing, open) && Distinct(plan) && p.off < |lines| && p.name == lines[p.off].name
      && !Plans(plan, p.name)
    requires CaredAll(lines, db, plan + [p], missing, open, lines[p.off])
    ensures Closed(lines, db, plan + [p], missing, open) && Distinct(plan + [p])
  {
    hide Answered, CaredAll;
    var all := plan + [p];
    forall i | 0 <= i < |all| ensures all[i].off < |lines| && all[i].name == lines[all[i].off].name
      && CaredAll(lines, db, all, missing, open, lines[all[i].off]) {
      if i < |plan| {
        assert all[i] == plan[i];
        CaredMore(lines, db, plan, p, missing, open, lines[plan[i].off]);
      }
    }
    forall i, j | 0 <= i < j < |all| ensures all[i].name != all[j].name {
      if j < |plan| { assert plan[i].name != plan[j].name; } else { assert plan[i].name != p.name; }
    }
  }

  /**
   * What a want comes to: a target is answered by a line of the plan, a dependency by one or
   * by what is installed, or it was reported, and an upgrade is planned unless it is no newer.
   */
  ghost predicate Met(lines: seq<Line>, db: seq<Installed>, plan: seq<Planned>, missing: set<Group>, x: Want)
  {
    match x.kind
    case Target => PlanAnswers(lines, plan, x.group)
    case Dep => Answered(lines, db, plan, x.group) || x.group in missing
    case Upgrade => x.rank < NONE ==> x.off < |lines| && (Plans(plan, lines[x.off].name) || UpToDate(db, lines[x.off]))
  }

  /** A package of the name chosen is planned, or installed where that is enough. */
  ghost predicate Taken(lines: seq<Line>, db: seq<Installed>, plan: seq<Planned>, x: Want)
  {
    && x.rank < NONE && x.off < |lines|
    && (Plans(plan, lines[x.off].name) || (x.kind == Dep && Has(db, lines[x.off].name)))
  }

  /** That is so, and it is not one that answers. */
  ghost predicate Slips(lines: seq<Line>, db: seq<Installed>, plan: seq<Planned>, x: Want)
  {
    Taken(lines, db, plan, x) && !Met(lines, db, plan, {}, x)
  }

  /** No line has a rank for these groups. */
  ghost predicate Unfindable(lines: seq<Line>, missing: set<Group>)
  {
    forall g, i :: g in missing && 0 <= i < |lines| ==> Rank(lines[i], g, Dep) == NONE
  }

  lemma {:induction false} UnfindableMore(lines: seq<Line>, missing: set<Group>, x: Want)
    requires Unfindable(lines, missing) && Best(lines, |lines|, x) && x.rank == NONE
    ensures Unfindable(lines, missing + Own(x))
  {
    hide RankFrom, Compare, NotNewer;
    forall g, i | g in missing + Own(x) && 0 <= i < |lines| ensures Rank(lines[i], g, Dep) == NONE {
      if g in Own(x) { RankBound(lines[i], g, Dep, 0); }
    }
  }

  /** What a line was found for was not reported. */
  lemma {:induction false} NotReported(lines: seq<Line>, db: seq<Installed>, plan: seq<Planned>, missing: set<Group>,
      x: Want)
    requires Unfindable(lines, missing) && Best(lines, |lines|, x) && x.rank < NONE
    ensures Met(lines, db, plan, missing, x) <==> Met(lines, db, plan, {}, x)
  {
    hide RankFrom, Compare, NotNewer, Answered, PlanAnswers, UpToDate;
  }

  /** The first installed package of a name, or one past the last. */
  function Held(db: seq<Installed>, name: string, k: nat): (i: nat)
    decreases |db| - k
  {
    if k >= |db| then |db| else if !db[k].gone && db[k].name == name then k else Held(db, name, k + 1)
  }

  /** The installed package is as new as the line. */
  ghost predicate UpToDate(db: seq<Installed>, l: Line)
  {
    var k := Held(db, l.name, 0);
    k < |db| && Compare(l.ver, db[k].ver) <= 0
  }

  /** How a package is marked: as asked for, or as it was, or as pulled in. */
  ghost function FlagOf(db: seq<Installed>, kind: Kind, name: string): char
  {
    var k := Held(db, name, 0);
    if kind == Target then 'm' else if k < |db| then db[k].flag else 'a'
  }

  lemma {:induction false} HeldFrom(db: seq<Installed>, name: string, i: nat, k: int)
    requires i <= |db| && -1 <= k < |db| && (k >= 0 ==> i <= k && !db[k].gone && db[k].name == name)
    requires forall j :: i <= j < (if k >= 0 then k else |db|) ==> db[j].gone || db[j].name != name
    ensures Held(db, name, i) == if k >= 0 then k else |db|
    decreases |db| - i
  {
    if i < |db| && i != k { HeldFrom(db, name, i + 1, k); }
  }

  lemma {:induction false} HeldIs(db: seq<Installed>, name: string, k: int)
    requires -1 <= k < |db| && (k >= 0 ==> !db[k].gone && db[k].name == name) && (k < 0 ==> !Has(db, name))
    requires forall j :: 0 <= j < |db| && j < k ==> db[j].gone || db[j].name != name
    ensures Held(db, name, 0) == if k >= 0 then k else |db|
    ensures forall kind :: FlagOf(db, kind, name) == if kind == Target then 'm' else if k >= 0 then db[k].flag else 'a'
  {
    HeldFrom(db, name, 0, k);
  }

  /** A want that makes a package be planned. */
  ghost predicate Anew(lines: seq<Line>, db: seq<Installed>, plan: seq<Planned>, x: Want)
  {
    && x.rank < NONE && x.off < |lines| && !Taken(lines, db, plan, x)
    && (x.kind == Upgrade ==> !UpToDate(db, lines[x.off]))
  }

  lemma {:induction false} SignIs(x: int)
    ensures x <= 0 <==> Sign(x) <= 0
  {
  }

  lemma {:induction false} OffFits(lines: seq<Line>, x: Want)
    requires Best(lines, |lines|, x)
    ensures x.rank < NONE ==> x.off < |lines|
  {
  }

  lemma {:induction false} MetMore(lines: seq<Line>, db: seq<Installed>, plan: seq<Planned>, plan': seq<Planned>,
      missing: set<Group>, missing': set<Group>, x: Want)
    requires Met(lines, db, plan, missing, x) && plan <= plan' && missing <= missing'
    ensures Met(lines, db, plan', missing', x)
  {
    hide UpToDate, PlanAnswers, DbAnswers;
    if PlanAnswers(lines, plan, x.group) { PlanAnswersMore(lines, plan, plan', x.group); }
    if x.kind == Upgrade && x.rank < NONE && Plans(plan, lines[x.off].name) {
      var i :| 0 <= i < |plan| && plan[i].name == lines[x.off].name;
      assert plan'[i].name == lines[x.off].name;
    }
  }

  /** A want without a line: a dependency is reported, and an upgrade there is none of. */
  lemma {:induction false} NoLine(lines: seq<Line>, db: seq<Installed>, plan: seq<Planned>, missing: set<Group>,
      x: Want)
    requires x.rank == NONE
    ensures !Slips(lines, db, plan, x) && !Anew(lines, db, plan, x)
    ensures x.kind != Target ==> Met(lines, db, plan, missing + Own(x), x)
  {
    hide Answered;
  }

  /** A want whose package is not planned anew. */
  lemma {:induction false} PassedBy(lines: seq<Line>, db: seq<Installed>, plan: seq<Planned>, missing: set<Group>,
      x: Want, k: int, newer: int)
    requires Unfindable(lines, missing) && Best(lines, |lines|, x)
    requires x.rank < NONE && x.off < |lines| && -1 <= k < |db| && (k >= 0 <==> Has(db, lines[x.off].name))
    requires k >= 0 ==> Held(db, lines[x.off].name, 0) == k && Sign(newer) == Compare(lines[x.off].ver, db[k].ver)
    requires Plans(plan, lines[x.off].name) || (x.kind == Dep && k >= 0) || (x.kind == Upgrade && k >= 0 && newer <= 0)
    ensures Met(lines, db, plan, missing, x) <==> !Slips(lines, db, plan, x)
    ensures !Anew(lines, db, plan, x)
  {
    NotReported(lines, db, plan, missing, x);
    hide Compare, Plans, Answered, PlanAnswers, Best, Held;
    if x.kind == Upgrade && k >= 0 && newer <= 0 { assert UpToDate(db, lines[x.off]); }
  }

  /** A want whose line is planned. */
  lemma {:induction false} PlannedAnew(lines: seq<Line>, db: seq<Installed>, plan: seq<Planned>, p: Planned,
      missing: set<Group>, x: Want, k: int, newer: int)
    requires Best(lines, |lines|, x) && x.rank < NONE && x.off < |lines| && p.off == x.off
      && p.name == lines[x.off].name
    requires -1 <= k < |db| && (k >= 0 <==> Has(db, p.name)) && Held(db, p.name, 0) == (if k >= 0 then k else |db|)
    requires k >= 0 ==> Sign(newer) == Compare(lines[x.off].ver, db[k].ver)
    requires !(Plans(plan, p.name) || (x.kind == Dep && k >= 0) || (x.kind == Upgrade && k >= 0 && newer <= 0))
    ensures Met(lines, db, plan + [p], missing, x) && !Slips(lines, db, plan, x) && Anew(lines, db, plan, x)
  {
    if x.kind != Upgrade { FoundAnswers(lines, plan, p, x); }
    PlansMore(plan, p, p.name);
    hide Best, Plans, PlanAnswers, DbAnswers, Has, Compare, Held;
  }

  /** The lines of a name provide the same, and an installed package all that its lines do. */
  ghost predicate Uniform(lines: seq<Line>, db: seq<Installed>)
  {
    && (forall i, j :: 0 <= i < |lines| && 0 <= j < |lines| && lines[i].name == lines[j].name ==>
       Alike(lines[i].offers, lines[j].offers))
    && (forall i, k :: 0 <= i < |lines| && 0 <= k < |db| && !db[k].gone && db[k].name == lines[i].name ==>
       Alike(lines[i].offers, db[k].offers))
  }

  ghost predicate Alike(some: seq<string>, more: seq<string>)
  {
    forall a :: a in some ==> a in more
  }

  /** Where that is so nothing slips. */
  lemma {:induction false} UniformHolds(lines: seq<Line>, db: seq<Installed>, plan: seq<Planned>, x: Want)
    requires Uniform(lines, db) && FromIndex(lines, plan) && Best(lines, |lines|, x)
    ensures !Slips(lines, db, plan, x)
  {
    hide Compare;
    if x.rank < NONE && x.off < |lines| && x.kind != Upgrade {
      var l := lines[x.off];
      var k := RankHit(l, x.group, x.kind, 0);
      hide RankFrom;
      if Plans(plan, l.name) {
        var i :| 0 <= i < |plan| && plan[i].name == l.name;
        assert Alike(l.offers, lines[plan[i].off].offers);
        assert Suits(lines[plan[i].off], Dep, x.group[k]);
        assert LineAnswers(lines, plan[i].off, x.group);
      } else if Has(db, l.name) {
        var i :| 0 <= i < |db| && !db[i].gone && db[i].name == l.name;
        assert Alike(l.offers, db[i].offers);
        assert Answers(db[i], x.group[k]);
      }
    }
  }

  // ---- where a want comes from

  /** Some planned package needs the group. */
  ghost predicate Needed(lines: seq<Line>, plan: seq<Planned>, g: Group)
  {
    exists i :: 0 <= i < |plan| && NeededBy(lines, plan[i].off, g)
  }

  ghost predicate NeededBy(lines: seq<Line>, off: nat, g: Group)
  {
    off < |lines| && g in Needs(lines[off])
  }

  lemma {:induction false} NeededMore(lines: seq<Line>, plan: seq<Planned>, plan': seq<Planned>, g: Group)
    requires Needed(lines, plan, g) && plan <= plan'
    ensures Needed(lines, plan', g)
  {
    hide NeededBy;
    var i :| 0 <= i < |plan| && NeededBy(lines, plan[i].off, g);
    assert NeededBy(lines, plan'[i].off, g);
  }

  /** Dependencies of the plan, all of them. */
  ghost predicate AllNeeded(lines: seq<Line>, plan: seq<Planned>, wants: seq<Want>)
  {
    forall i :: 0 <= i < |wants| ==> NeededWant(lines, plan, wants[i])
  }

  ghost predicate NeededWant(lines: seq<Line>, plan: seq<Planned>, x: Want)
  {
    x.kind == Dep && x.group != [] && Needed(lines, plan, x.group)
  }

  lemma {:induction false} AllNeededMore(lines: seq<Line>, plan: seq<Planned>, plan': seq<Planned>, wants: seq<Want>)
    requires AllNeeded(lines, plan, wants) && plan <= plan'
    ensures AllNeeded(lines, plan', wants)
  {
    hide Needed;
    forall i | 0 <= i < |wants| ensures NeededWant(lines, plan', wants[i]) {
      assert NeededWant(lines, plan, wants[i]);
      NeededMore(lines, plan, plan', wants[i].group);
    }
  }

  lemma {:induction false} SameNeeded(lines: seq<Line>, plan: seq<Planned>, a: seq<Want>, b: seq<Want>)
    requires SameWants(a, b) && AllNeeded(lines, plan, a)
    ensures AllNeeded(lines, plan, b)
  {
    hide Needed;
    forall i | 0 <= i < |b| ensures NeededWant(lines, plan, b[i]) { assert NeededWant(lines, plan, a[i]); }
  }

  /** Every want that slipped was asked for, or is a dependency of the plan. */
  ghost predicate Origins(lines: seq<Line>, plan: seq<Planned>, asked: seq<Want>, slips: seq<Want>)
  {
    forall i :: 0 <= i < |slips| ==> slips[i] in asked || NeededWant(lines, plan, slips[i])
  }

  /** A want that was asked for, or that a planned package has. */
  ghost predicate Wanted(lines: seq<Line>, plan: seq<Planned>, asked: seq<Want>, x: Want)
  {
    x in asked || NeededWant(lines, plan, x)
  }

  /** Nothing installed answers these. */
  ghost predicate Lacked(db: seq<Installed>, wants: seq<Want>)
  {
    forall i :: 0 <= i < |wants| ==> !DbAnswers(db, wants[i].group)
  }

  lemma {:induction false} SameLacked(db: seq<Installed>, a: seq<Want>, b: seq<Want>)
    requires SameWants(a, b) && Lacked(db, a)
    ensures Lacked(db, b)
  {
    hide DbAnswers;
  }

  /** Each of these has a line, and a package of that name is planned or, where that is enough, installed. */
  ghost predicate AllTaken(lines: seq<Line>, db: seq<Installed>, plan: seq<Planned>, wants: seq<Want>)
  {
    forall i :: 0 <= i < |wants| ==> Best(lines, |lines|, wants[i]) && Taken(lines, db, plan, wants[i])
  }

  lemma {:induction false} AllTakenMore(lines: seq<Line>, db: seq<Installed>, plan: seq<Planned>, p: Planned,
      wants: seq<Want>)
    requires AllTaken(lines, db, plan, wants)
    ensures AllTaken(lines, db, plan + [p], wants)
  {
    hide Best, Plans, Has;
    forall i | 0 <= i < |wants| ensures Best(lines, |lines|, wants[i]) && Taken(lines, db, plan + [p], wants[i]) {
      PlansMore(plan, p, lines[wants[i].off].name);
    }
  }

  lemma {:induction false} AllTakenOne(lines: seq<Line>, db: seq<Installed>, plan: seq<Planned>, wants: seq<Want>,
      x: Want)
    requires AllTaken(lines, db, plan, wants) && Best(lines, |lines|, x)
    ensures Slips(lines, db, plan, x) ==> AllTaken(lines, db, plan, wants + [x])
  {
    hide Best, Taken, Met;
  }

  /** Package p is planned for x: its best line, marked for why it is there. */
  ghost predicate Earns(lines: seq<Line>, db: seq<Installed>, x: Want, p: Planned)
  {
    && Best(lines, |lines|, x) && x.rank < NONE && x.off < |lines|
    && p == Planned(x.off, lines[x.off].name, FlagOf(db, x.kind, lines[x.off].name))
  }

  /** That is so of something asked for, or of something a planned package needs and nothing installed is. */
  ghost predicate Earned(lines: seq<Line>, db: seq<Installed>, plan: seq<Planned>, asked: seq<Want>, p: Planned)
  {
    exists x :: Wanted(lines, plan, asked, x) && Earns(lines, db, x, p) && (x in asked || !DbAnswers(db, x.group))
  }

  ghost predicate AllEarned(lines: seq<Line>, db: seq<Installed>, plan: seq<Planned>, asked: seq<Want>)
  {
    forall i :: 0 <= i < |plan| ==> Earned(lines, db, plan, asked, plan[i])
  }

  /** The packages of the plan from the n-th on are planned for wants of this round. */
  ghost predicate EarnedHere(lines: seq<Line>, db: seq<Installed>, plan: seq<Planned>, n: nat, round: seq<Want>)
  {
    forall i :: n <= i < |plan| ==> exists j :: 0 <= j < |round| && Earns(lines, db, round[j], plan[i])
  }

  lemma {:induction false} EarnedHereMore(lines: seq<Line>, db: seq<Installed>, plan: seq<Planned>,
      plan': seq<Planned>, n: nat, round: seq<Want>, k: nat)
    requires EarnedHere(lines, db, plan, n, round) && k < |round| && Best(lines, |lines|, round[k])
    requires plan' == plan || (Anew(lines, db, plan, round[k]) && plan' == plan + [PlannedFor(lines, db, round[k])])
    ensures EarnedHere(lines, db, plan', n, round)
  {
    hide Best, Taken, UpToDate, FlagOf;
    forall i | n <= i < |plan'| ensures exists j :: 0 <= j < |round| && Earns(lines, db, round[j], plan'[i]) {
      if i < |plan| { assert plan'[i] == plan[i]; } else { assert Earns(lines, db, round[k], plan'[i]); }
    }
  }

  /** The package that a want with a line comes to. */
  ghost function PlannedFor(lines: seq<Line>, db: seq<Installed>, x: Want): Planned
    requires x.off < |lines|
  {
    Planned(x.off, lines[x.off].name, FlagOf(db, x.kind, lines[x.off].name))
  }

  lemma {:induction false} AllEarnedMore(lines: seq<Line>, db: seq<Installed>, plan: seq<Planned>,
      plan': seq<Planned>, asked: seq<Want>, round: seq<Want>)
    requires AllEarned(lines, db, plan, asked) && plan <= plan' && EarnedHere(lines, db, plan', |plan|, round)
    requires round == asked || (AllNeeded(lines, plan', round) && Lacked(db, round))
    ensures AllEarned(lines, db, plan', asked)
  {
    hide Earns, Needed, DbAnswers;
    forall i | 0 <= i < |plan'| ensures Earned(lines, db, plan', asked, plan'[i]) {
      if i < |plan| {
        assert plan'[i] == plan[i];
        EarnedMore(lines, db, plan, plan', asked, plan[i]);
      } else {
        var j :| 0 <= j < |round| && Earns(lines, db, round[j], plan'[i]);
        assert round != asked ==> NeededWant(lines, plan', round[j]);
        assert Wanted(lines, plan', asked, round[j]);
      }
    }
  }

  lemma {:induction false} EarnedMore(lines: seq<Line>, db: seq<Installed>, plan: seq<Planned>, plan': seq<Planned>,
      asked: seq<Want>, p: Planned)
    requires Earned(lines, db, plan, asked, p) && plan <= plan'
    ensures Earned(lines, db, plan', asked, p)
  {
    hide Earns, Needed, DbAnswers;
    var x :| Wanted(lines, plan, asked, x) && Earns(lines, db, x, p) && (x in asked || !DbAnswers(db, x.group));
    if NeededWant(lines, plan, x) { NeededMore(lines, plan, plan', x.group); }
    assert Wanted(lines, plan', asked, x);
  }

  /** What was reported: the dependencies of a round for which there is no line. */
  ghost function Unfound(wants: seq<Want>, n: nat): (s: set<Group>)
    requires n <= |wants|
  {
    if n == 0 then {} else Unfound(wants, n - 1) + if wants[n - 1].rank == NONE then Own(wants[n - 1]) else {}
  }

  /** Every group reported was asked for, or is a need of a planned package. */
  ghost predicate Reports(lines: seq<Line>, plan: seq<Planned>, asked: seq<Want>, missing: set<Group>)
  {
    forall g :: g in missing ==> exists x :: Wanted(lines, plan, asked, x) && x.kind == Dep && x.group == g
  }

  lemma {:induction false} UnfoundAt(wants: seq<Want>, n: nat, g: Group) returns (i: nat)
    requires n <= |wants| && g in Unfound(wants, n)
    ensures i < n && wants[i].kind == Dep && wants[i].group == g
  {
    if g in Unfound(wants, n - 1) { i := UnfoundAt(wants, n - 1, g); } else { i := n - 1; }
  }

  lemma {:induction false} ReportsMore(lines: seq<Line>, plan: seq<Planned>, plan': seq<Planned>, asked: seq<Want>,
      missing: set<Group>, missing': set<Group>, round: seq<Want>)
    requires Reports(lines, plan, asked, missing) && plan <= plan' && missing' == missing + Unfound(round, |round|)
    requires round == asked || AllNeeded(lines, plan', round)
    ensures Reports(lines, plan', asked, missing')
  {
    hide Needed, Unfound;
    forall g | g in missing' ensures exists x :: Wanted(lines, plan', asked, x) && x.kind == Dep && x.group == g {
      if g in missing {
        var x :| Wanted(lines, plan, asked, x) && x.kind == Dep && x.group == g;
        if NeededWant(lines, plan, x) { NeededMore(lines, plan, plan', g); }
        assert Wanted(lines, plan', asked, x);
      } else {
        var i := UnfoundAt(round, |round|, g);
        assert round != asked ==> NeededWant(lines, plan', round[i]);
        assert Wanted(lines, plan', asked, round[i]);
      }
    }
  }

  /** Every target of the first n has a line. */
  ghost predicate TargetsFound(wants: seq<Want>, n: nat)
  {
    n <= |wants| && forall i :: 0 <= i < n && wants[i].kind == Target ==> wants[i].rank < NONE
  }

  lemma {:induction false} TargetsMore(wants: seq<Want>, n: nat)
    requires TargetsFound(wants, n) && n < |wants| && wants[n].rank <= NONE
    ensures !(wants[n].kind == Target && wants[n].rank == NONE) ==> TargetsFound(wants, n + 1)
  {
  }

  /** More wants slipped, all of them of this round. */
  ghost predicate SlipsOf(slips: seq<Want>, slips': seq<Want>, round: seq<Want>)
  {
    slips <= slips' && forall i :: |slips| <= i < |slips'| ==> slips'[i] in round
  }

  lemma {:induction false} SlipsPrefix(slips: seq<Want>, slips': seq<Want>, round: seq<Want>)
    requires SlipsOf(slips, slips', round)
    ensures slips <= slips'
  {
  }

  lemma {:induction false} SlipsOfMore(slips: seq<Want>, slips': seq<Want>, round: seq<Want>, i: nat)
    requires SlipsOf(slips, slips', round) && i < |round|
    ensures SlipsOf(slips, slips' + [round[i]], round)
  {
  }

  lemma {:induction false} OriginsMore(lines: seq<Line>, plan: seq<Planned>, plan': seq<Planned>, asked: seq<Want>,
      slips: seq<Want>, slips': seq<Want>, round: seq<Want>)
    requires Origins(lines, plan, asked, slips) && plan <= plan' && SlipsOf(slips, slips', round)
    requires round == asked || AllNeeded(lines, plan', round)
    ensures Origins(lines, plan', asked, slips')
  {
    hide Needed;
    forall i | 0 <= i < |slips'| && slips'[i] !in asked ensures NeededWant(lines, plan', slips'[i]) {
      if i < |slips| {
        assert slips'[i] == slips[i];
        NeededMore(lines, plan, plan', slips[i].group);
      } else {
        var j :| 0 <= j < |round| && round[j] == slips'[i];
        assert NeededWant(lines, plan', round[j]);
      }
    }
  }

  // ---- what the whole of it comes to

  /** Of the first n wants those that did not slip are met. */
  ghost predicate MetOrSlipped(lines: seq<Line>, db: seq<Installed>, plan: seq<Planned>, missing: set<Group>,
      slips: seq<Want>, wants: seq<Want>, n: nat)
  {
    n <= |wants| && forall i :: 0 <= i < n ==> Met(lines, db, plan, missing, wants[i]) || wants[i] in slips
  }

  lemma {:induction false} MetOrSlippedMore(lines: seq<Line>, db: seq<Installed>, plan: seq<Planned>,
      plan': seq<Planned>, missing: set<Group>, missing': set<Group>, slips: seq<Want>, slips': seq<Want>,
      wants: seq<Want>, n: nat)
    requires MetOrSlipped(lines, db, plan, missing, slips, wants, n) && plan <= plan' && missing <= missing'
      && slips <= slips'
    ensures MetOrSlipped(lines, db, plan', missing', slips', wants, n)
    ensures n < |wants| && (Met(lines, db, plan', missing', wants[n]) || wants[n] in slips') ==>
      MetOrSlipped(lines, db, plan', missing', slips', wants, n + 1)
  {
    hide Met;
    forall i | 0 <= i < n ensures Met(lines, db, plan', missing', wants[i]) || wants[i] in slips' {
      if Met(lines, db, plan, missing, wants[i]) { MetMore(lines, db, plan, plan', missing, missing', wants[i]); }
    }
  }

  /** An installed package answers, and the plan does not put another in its place. */
  ghost predicate DbKeeps(db: seq<Installed>, plan: seq<Planned>, g: Group)
  {
    exists k, i :: 0 <= k < |g| && 0 <= i < |db| && Answers(db[i], g[k]) && !Plans(plan, db[i].name)
  }

  /** Once the plan is installed something answers. */
  ghost predicate Lasts(lines: seq<Line>, db: seq<Installed>, plan: seq<Planned>, g: Group)
  {
    PlanAnswers(lines, plan, g) || DbKeeps(db, plan, g)
  }

  /** What a want comes to once the plan is installed. */
  ghost predicate Kept(lines: seq<Line>, db: seq<Installed>, plan: seq<Planned>, missing: set<Group>, x: Want)
  {
    if x.kind == Dep then Lasts(lines, db, plan, x.group) || x.group in missing
    else Met(lines, db, plan, missing, x)
  }

  /** Everything asked for and every need of every planned package is answered for good, or was reported. */
  ghost predicate Fulfilled(lines: seq<Line>, db: seq<Installed>, plan: seq<Planned>, missing: set<Group>,
      asked: seq<Want>)
  {
    forall x :: Wanted(lines, plan, asked, x) ==> Kept(lines, db, plan, missing, x)
  }

  /** The line found for x is not planned, but a package of its name is, or is installed. */
  ghost predicate PassedOver(lines: seq<Line>, db: seq<Installed>, plan: seq<Planned>, x: Want)
  {
    && Best(lines, |lines|, x) && Taken(lines, db, plan, x)
    && forall i :: 0 <= i < |plan| ==> plan[i].off != x.off
  }

  /** An installed package answers x, and the plan puts another in its place. */
  ghost predicate Leans(db: seq<Installed>, plan: seq<Planned>, x: Want)
  {
    x.kind == Dep && exists k, i ::
      0 <= k < |x.group| && 0 <= i < |db| && Answers(db[i], x.group[k]) && Plans(plan, db[i].name)
  }

  /** The two ways not to be, though wanted, do not come about. */
  ghost predicate NoneLost(lines: seq<Line>, db: seq<Installed>, plan: seq<Planned>, missing: set<Group>,
      asked: seq<Want>)
  {
    forall x :: Wanted(lines, plan, asked, x) && (PassedOver(lines, db, plan, x) || Leans(db, plan, x)) ==>
      Kept(lines, db, plan, missing, x)
  }

  /** What is met is kept, or leans on a package that is replaced. */
  lemma {:induction false} MetIsKept(lines: seq<Line>, db: seq<Installed>, plan: seq<Planned>, missing: set<Group>,
      x: Want)
    requires Met(lines, db, plan, missing, x)
    ensures Kept(lines, db, plan, missing, x) || Leans(db, plan, x)
  {
    hide PlanAnswers, Answers, Plans, UpToDate;
    if x.kind == Dep && DbAnswers(db, x.group) {
      var k :| 0 <= k < |x.group| && exists i :: 0 <= i < |db| && Answers(db[i], x.group[k]);
      var i :| 0 <= i < |db| && Answers(db[i], x.group[k]);
      assert Plans(plan, db[i].name) || DbKeeps(db, plan, x.group);
    }
  }

  /** A want whose own line is planned is kept. */
  lemma {:induction false} OwnLineKeeps(lines: seq<Line>, db: seq<Installed>, plan: seq<Planned>,
      missing: set<Group>, x: Want)
    requires Best(lines, |lines|, x) && Taken(lines, db, plan, x) && FromIndex(lines, plan)
    ensures Kept(lines, db, plan, missing, x) || PassedOver(lines, db, plan, x)
  {
    if i :| 0 <= i < |plan| && plan[i].off == x.off {
      hide Compare;
      var k := RankHit(lines[x.off], x.group, x.kind, 0);
      hide RankFrom;
      if x.kind != Upgrade {
        assert Suits(lines[plan[i].off], Dep, x.group[k]);
        assert LineAnswers(lines, plan[i].off, x.group);
      } else {
        assert plan[i].name == lines[x.off].name;
      }
    }
  }

  /** Everything is fulfilled exactly if none of the two comes about. */
  lemma {:induction false} FulfilledIff(lines: seq<Line>, db: seq<Installed>, plan: seq<Planned>, missing: set<Group>,
      slips: seq<Want>, asked: seq<Want>)
    requires Closed(lines, db, plan, missing + Open(slips, 0), {})
      && MetOrSlipped(lines, db, plan, missing, slips, asked, |asked|)
    requires Origins(lines, plan, asked, slips) && AllTaken(lines, db, plan, slips)
    ensures Fulfilled(lines, db, plan, missing, asked) <==> NoneLost(lines, db, plan, missing, asked)
  {
    if NoneLost(lines, db, plan, missing, asked) {
      forall x | Wanted(lines, plan, asked, x) ensures Kept(lines, db, plan, missing, x) {
        WantedIsKept(lines, db, plan, missing, slips, asked, x);
      }
    }
  }

  lemma {:induction false} WantedIsKept(lines: seq<Line>, db: seq<Installed>, plan: seq<Planned>, missing: set<Group>,
      slips: seq<Want>, asked: seq<Want>, x: Want)
    requires Closed(lines, db, plan, missing + Open(slips, 0), {})
      && MetOrSlipped(lines, db, plan, missing, slips, asked, |asked|)
    requires Origins(lines, plan, asked, slips) && AllTaken(lines, db, plan, slips)
    requires NoneLost(lines, db, plan, missing, asked) && Wanted(lines, plan, asked, x)
    ensures Kept(lines, db, plan, missing, x)
  {
    hide Met, Open, Needed;
    SlipsKept(lines, db, plan, missing, slips, asked);
    if x in asked {
      var i :| 0 <= i < |asked| && asked[i] == x;
      if Met(lines, db, plan, missing, x) { MetIsKept(lines, db, plan, missing, x); }
    } else {
      NeededMet(lines, db, plan, missing + Open(slips, 0), x);
      NarrowMet(lines, db, plan, missing, Open(slips, 0), x);
      if Met(lines, db, plan, missing, x) {
        MetIsKept(lines, db, plan, missing, x);
      } else {
        var i := OpenAt(slips, 0, x.group);
        SameKept(lines, db, plan, missing, slips[i], x);
      }
    }
  }

  lemma {:induction false} SlipsKept(lines: seq<Line>, db: seq<Installed>, plan: seq<Planned>, missing: set<Group>,
      slips: seq<Want>, asked: seq<Want>)
    requires FromIndex(lines, plan) && Origins(lines, plan, asked, slips) && AllTaken(lines, db, plan, slips)
    requires NoneLost(lines, db, plan, missing, asked)
    ensures forall i :: 0 <= i < |slips| ==> Kept(lines, db, plan, missing, slips[i])
  {
    forall i | 0 <= i < |slips| ensures Kept(lines, db, plan, missing, slips[i]) {
      OwnLineKeeps(lines, db, plan, missing, slips[i]);
      hide Kept, PassedOver, Leans, NeededWant;
      assert Wanted(lines, plan, asked, slips[i]);
    }
  }

  lemma {:induction false} SameKept(lines: seq<Line>, db: seq<Installed>, plan: seq<Planned>, missing: set<Group>,
      x: Want, y: Want)
    requires x.kind == y.kind == Dep && x.group == y.group && Kept(lines, db, plan, missing, x)
    ensures Kept(lines, db, plan, missing, y)
  {
  }

  lemma {:induction false} NarrowMet(lines: seq<Line>, db: seq<Installed>, plan: seq<Planned>, missing: set<Group>,
      more: set<Group>, x: Want)
    requires Met(lines, db, plan, missing + more, x) && x.kind == Dep
    ensures Met(lines, db, plan, missing, x) || x.group in more
  {
    hide Answered;
  }

  /** The lines of a name provide what an installed package of that name does. */
  ghost predicate Steady(lines: seq<Line>, db: seq<Installed>)
  {
    forall i, k :: 0 <= i < |lines| && 0 <= k < |db| && !db[k].gone && db[k].name == lines[i].name ==>
      Alike(db[k].offers, lines[i].offers)
  }

  /** Where everything of one name provides the same nothing is lost. */
  lemma {:induction false} SteadyHolds(lines: seq<Line>, db: seq<Installed>, plan: seq<Planned>, missing: set<Group>,
      asked: seq<Want>)
    requires Uniform(lines, db) && Steady(lines, db) && FromIndex(lines, plan)
    ensures NoneLost(lines, db, plan, missing, asked)
  {
    forall x | Wanted(lines, plan, asked, x) && (PassedOver(lines, db, plan, x) || Leans(db, plan, x))
      ensures Kept(lines, db, plan, missing, x) {
      if PassedOver(lines, db, plan, x) {
        UniformHolds(lines, db, plan, x);
        MetMore(lines, db, plan, plan, {}, missing, x);
        MetIsKept(lines, db, plan, missing, x);
      }
      if Leans(db, plan, x) { LeansHolds(lines, db, plan, x); }
    }
  }

  lemma {:induction false} LeansHolds(lines: seq<Line>, db: seq<Installed>, plan: seq<Planned>, x: Want)
    requires Steady(lines, db) && FromIndex(lines, plan) && Leans(db, plan, x)
    ensures PlanAnswers(lines, plan, x.group)
  {
    var k, i :| 0 <= k < |x.group| && 0 <= i < |db| && Answers(db[i], x.group[k]) && Plans(plan, db[i].name);
    var j :| 0 <= j < |plan| && plan[j].name == db[i].name;
    assert Alike(db[i].offers, lines[plan[j].off].offers);
    assert Suits(lines[plan[j].off], Dep, x.group[k]);
    assert LineAnswers(lines, plan[j].off, x.group);
  }

  lemma {:induction false} OpenAt(wants: seq<Want>, from: nat, g: Group) returns (i: nat)
    requires g in Open(wants, from)
    ensures i < |wants| && wants[i].kind == Dep && wants[i].group == g
    decreases |wants| - from
  {
    if g in Own(wants[from]) { i := from; } else { i := OpenAt(wants, from + 1, g); }
  }

  lemma {:induction false} NeededMet(lines: seq<Line>, db: seq<Installed>, plan: seq<Planned>, missing: set<Group>,
      x: Want)
    requires Closed(lines, db, plan, missing, {}) && NeededWant(lines, plan, x)
    ensures Met(lines, db, plan, missing, x)
  {
    hide Answered;
    var i :| 0 <= i < |plan| && NeededBy(lines, plan[i].off, x.group);
    var l := lines[plan[i].off];
    assert CaredAll(lines, db, plan, missing, {}, l);
    var k :| 0 <= k < |Needs(l)| && Needs(l)[k] == x.group;
    assert Cared(lines, db, plan, missing, {}, Needs(l)[k]);
  }

  // ---- the rounds

  /** Length of a group as it is written, its alternatives parted by a bar. */
  function TextOf(g: Group): (n: nat)
  {
    if g == [] then 0 else |g[0]| + if |g| == 1 then 0 else 1 + TextOf(g[1..])
  }

  function TextAll(wants: seq<Want>): (n: nat)
  {
    if wants == [] then 0 else TextAll(wants[..|wants| - 1]) + TextOf(wants[|wants| - 1].group)
  }

  lemma {:induction false} TextSame(a: seq<Want>, b: seq<Want>)
    requires SameWants(a, b)
    ensures TextAll(a) == TextAll(b)
    decreases |a|
  {
    if a != [] { TextSame(a[..|a| - 1], b[..|b| - 1]); }
  }

  lemma {:induction false} TextMore(wants: seq<Want>, x: Want)
    ensures TextAll(wants + [x]) == TextAll(wants) + TextOf(x.group)
  {
    assert (wants + [x])[..|wants|] == wants;
  }

  function NamesOf(plan: seq<Planned>): (n: nat)
  {
    if plan == [] then 0 else NamesOf(plan[..|plan| - 1]) + |plan[|plan| - 1].name| + 1
  }

  lemma {:induction false} NamesMore(plan: seq<Planned>, p: Planned)
    ensures NamesOf(plan + [p]) == NamesOf(plan) + |p.name| + 1
  {
    assert (plan + [p])[..|plan|] == plan;
  }

  ghost function Groups(wants: seq<Want>, from: nat): (s: set<Group>)
  {
    set i | from <= i < |wants| :: wants[i].group
  }

  ghost predicate AllBest(lines: seq<Line>, wants: seq<Want>, n: nat)
  {
    forall i :: 0 <= i < |wants| ==> Best(lines, n, wants[i])
  }

  /** A want as it starts. */
  ghost predicate Fresh(x: Want)
  {
    x.rank == NONE
  }

  ghost predicate SameWants(a: seq<Want>, b: seq<Want>)
  {
    |a| == |b| && forall i :: 0 <= i < |a| ==> a[i].group == b[i].group && a[i].kind == b[i].kind
  }

  /** One line held against every want of the round. */
  method MatchAll(lines: seq<Line>, at: nat, wants: seq<Want>) returns (wants': seq<Want>)
    requires at < |lines| && AllBest(lines, wants, at)
    ensures SameWants(wants, wants') && AllBest(lines, wants', at + 1)
  {
    hide Best, Matched, Rank;
    wants' := wants;
    for i := 0 to |wants|
      invariant SameWants(wants, wants')
      invariant forall j :: 0 <= j < i ==> Best(lines, at + 1, wants'[j])
      invariant forall j :: i <= j < |wants| ==> wants'[j] == wants[j]
    {
      BestRank(lines, at, wants[i]);
      var x := Match(lines[at], at, wants'[i]);
      BestMatched(lines, at, wants[i], x);
      MatchedSame(lines[at], at, wants[i], x);
      BestRank(lines, at + 1, x);
      wants' := wants'[i := x];
    }
  }

  lemma {:induction false} MatchedSame(l: Line, at: nat, x: Want, x': Want)
    requires Matched(l, at, x, x')
    ensures x'.group == x.group && x'.kind == x.kind
  {
  }

  lemma {:induction false} BestRank(lines: seq<Line>, n: nat, x: Want)
    requires Best(lines, n, x)
    ensures x.rank <= NONE && (x.rank < NONE ==> x.off < n <= |lines|)
  {
  }

  /** A pass over the whole index leaves every want of the round with the best line there is. */
  method Scan(lines: seq<Line>, wants: seq<Want>) returns (wants': seq<Want>)
    requires forall i :: 0 <= i < |wants| ==> Fresh(wants[i])
    ensures SameWants(wants, wants') && AllBest(lines, wants', |lines|)
  {
    wants' := wants;
    hide RankFrom, Compare;
    assert AllBest(lines, wants', 0);
    hide Best;
    for at := 0 to |lines|
      invariant SameWants(wants, wants') && AllBest(lines, wants', at)
    {
      wants' := MatchAll(lines, at, wants');
    }
  }

  method Planning(plan: seq<Planned>, name: string) returns (r: bool)
    ensures r == Plans(plan, name)
  {
    for i := 0 to |plan|
      invariant forall j :: 0 <= j < i ==> plan[j].name != name
    {
      if plan[i].name == name {
        return true;
      }
    }
    r := false;
  }

  /** The installed package of a name, or -1. */
  method FindInstalled(db: seq<Installed>, name: string) returns (k: int)
    ensures -1 <= k < |db| && (k >= 0 <==> Has(db, name)) && (k >= 0 ==> !db[k].gone && db[k].name == name)
    ensures forall j :: 0 <= j < |db| && j < k ==> db[j].gone || db[j].name != name
  {
    for i := 0 to |db|
      invariant forall j :: 0 <= j < i ==> db[j].gone || db[j].name != name
    {
      if !db[i].gone && db[i].name == name {
        return i;
      }
    }
    k := -1;
  }

  method IsSatisfied(db: seq<Installed>, plan: seq<Planned>, g: Group) returns (r: bool)
    ensures r == Satisfied(db, plan, g)
  {
    hide Plans;
    for k := 0 to |g|
      invariant forall j :: 0 <= j < k ==> !Plans(plan, g[j]) && forall i :: 0 <= i < |db| ==> !Answers(db[i], g[j])
    {
      var planned := Planning(plan, g[k]);
      if planned {
        return true;
      }
      for i := 0 to |db|
        invariant forall j :: 0 <= j < i ==> !Answers(db[j], g[k])
      {
        if Answers(db[i], g[k]) {
          return true;
        }
      }
    }
    r := false;
  }

  datatype Result = Done | NotFound | TooMany

  class Plan {
    const lines: seq<Line>
    const db: seq<Installed>
    var wants: seq<Want>
    /** Wants for the next round. */
    var next: seq<Want>
    var text: nat
    var plan: seq<Planned>
    var names: nat
    /** Groups reported as not found. */
    ghost var missing: set<Group>
    /** Wants passed over for a package of the name chosen that does not answer them. */
    ghost var slips: seq<Want>

    ghost predicate Valid()
      reads this
    {
      && |plan| <= PLAN && Distinct(plan) && FromIndex(lines, plan)
      && (forall i :: 0 <= i < |next| ==> Fresh(next[i])) && AllNeeded(lines, plan, next) && Lacked(db, next)
      && Unfindable(lines, missing) && AllTaken(lines, db, plan, slips)
      && names == NamesOf(plan) && text == TextAll(wants) + TextAll(next)
    }

    /** No more packages, names, wants or text of wants fit. */
    ghost predicate Full()
      reads this
    {
      || |plan| == PLAN || |wants| + |next| >= WANTS
      || (exists i :: 0 <= i < |lines| && NamesOf(plan) + |lines[i].name| + 1 > NAMES)
      || (exists g :: Needed(lines, plan, g) && TextAll(wants) + TextAll(next) + TextOf(g) > WTEXT)
    }

    /** Groups nobody looks for any more. */
    ghost function Out(): set<Group>
      reads this`missing, this`slips
    {
      missing + Open(slips, 0)
    }

    constructor (lines: seq<Line>, db: seq<Installed>, wants: seq<Want>)
      ensures Valid() && this.lines == lines && this.db == db && this.wants == wants
      ensures plan == [] && next == [] && missing == {} && slips == []
    {
      this.lines, this.db, this.wants := lines, db, wants;
      next, plan, text, names, missing, slips := [], [], TextAll(wants), 0, {}, [];
    }

    /** A group to look for in the next round, unless it is among them already. */
    method Look(g: Group) returns (ok: bool)
      requires Valid() && g != [] && Needed(lines, plan, g) && !DbAnswers(db, g)
      modifies this`next, this`text
      ensures Valid()
      ensures ok <==>
        || g in Groups(old(next), 0)
        || (|wants| + |old(next)| < WANTS && TextAll(wants) + TextAll(old(next)) + TextOf(g) <= WTEXT)
      ensures next == if ok && g !in Groups(old(next), 0) then old(next) + [Want(g, Dep, NONE, 0, [])] else old(next)
    {
      hide *;
      ValidParts(this);
      for i := 0 to |next|
        invariant Valid() && next == old(next) && forall j :: 0 <= j < i ==> next[j].group != g
      {
        GroupIn(next, i);
        if next[i].group == g {
          return true;
        }
      }
      GroupOut(next, g);
      ValidParts(this);
      if |wants| + |next| >= WANTS || text + TextOf(g) > WTEXT {
        return false;
      }
      var x := Want(g, Dep, NONE, 0, []);
      TextMore(next, x);
      ghost var was := next;
      next := next + [x];
      text := text + TextOf(g);
      FreshNeed(lines, plan, g);
      NextMore(lines, db, plan, was, x);
      ValidAgain(this);
      ok := true;
    }

    /** Everything a planned package needs is there, is planned, or will be looked for. */
    method LookAll(l: Line, ghost at: nat, ghost rest: set<Group>) returns (ok: bool)
      requires Valid() && at < |plan| && plan[at].off < |lines| && lines[plan[at].off] == l
      modifies this`next, this`text
      ensures Valid() && Groups(old(next), 0) <= Groups(next, 0)
      ensures ok ==> CaredAll(lines, db, plan, Out(), rest + Groups(next, 0), l)
      ensures !ok ==> Full()
    {
      hide *;
      var needs := Needs(l);
      CaredNone(lines, db, plan, Out(), rest + Groups(next, 0), needs);
      for k := 0 to |needs|
        invariant Valid() && Groups(old(next), 0) <= Groups(next, 0)
        invariant CaredTo(lines, db, plan, Out(), rest + Groups(next, 0), needs, k)
      {
        ghost var was := next;
        CaredEmpty(lines, db, plan, Out(), rest + Groups(next, 0), needs, k);
        if needs[k] != [] {
          var met := IsSatisfied(db, plan, needs[k]);
          ValidParts(this);
          SatisfiedAnswers(lines, db, plan, needs[k]);
          NeedIs(lines, plan, at, k);
          if !met {
            var fine := Look(needs[k]);
            if !fine {
              FullText(this, needs[k]);
              return false;
            }
            Looked(was, next, needs[k]);
            OutIs(this);
          }
          CaredNext(lines, db, plan, Out(), rest, was, next, needs, k);
        }
      }
      CaredEnd(lines, db, plan, Out(), rest + Groups(next, 0), l);
      ok := true;
    }

    /**
     * One want of the round turned into a package of the plan, if it has to be, or reported. It
     * is met afterwards if and only if it does not slip.
     */
    method Choose(x: Want, ghost rest: set<Group>) returns (r: Option<Result>)
      requires Valid() && Best(lines, |lines|, x)
      requires Closed(lines, db, plan, Out(), rest + Own(x) + Groups(next, 0))
      modifies this`next, this`text, this`plan, this`names, this`missing, this`slips
      ensures Valid() && (plan == old(plan) ==> next == old(next))
      ensures missing == old(missing) + if x.rank == NONE then Own(x) else {}
      ensures slips == if Slips(lines, db, old(plan), x) then old(slips) + [x] else old(slips)
      ensures r.None? ==> Closed(lines, db, plan, Out(), rest + Groups(next, 0))
      ensures r.None? ==> (Met(lines, db, plan, missing, x) <==> !Slips(lines, db, old(plan), x))
      ensures r.None? ==>
        plan == if Anew(lines, db, old(plan), x) then old(plan) + [PlannedFor(lines, db, x)] else old(plan)
      ensures plan == old(plan) || (Anew(lines, db, old(plan), x) && plan == old(plan) + [PlannedFor(lines, db, x)])
      ensures r.Some? ==> r.value != Done && (r.value == TooMany ==> Full())
      ensures r == Some(NotFound) <==> x.kind == Target && x.rank == NONE
    {
      hide *;
      OutIs(this);
      OffFits(lines, x);
      BestRank(lines, |lines|, x);
      ValidParts(this);
      OwnIs(x);
      if x.rank == NONE {
        NoLine(lines, db, plan, missing, x);
        if x.kind == Target {
          return Some(NotFound);
        }
        if x.kind == Dep {
          UnfindableMore(lines, missing, x);
          missing := missing + {x.group};
        }
        ValidAgain(this);
        Reported(this, old(missing), x, rest);
        return None;
      }
      var l := lines[x.off];
      var k := FindInstalled(db, l.name);
      HeldIs(db, l.name, k);
      var planned := Planning(plan, l.name);
      var newer := 1;
      if k >= 0 {
        newer := Vcmp(l.ver, db[k].ver);
        SignIs(newer);
      }
      if planned || (x.kind == Dep && k >= 0) || (x.kind == Upgrade && k >= 0 && newer <= 0) {
        PassedBy(lines, db, plan, missing, x, k, newer);
        AllTakenOne(lines, db, plan, slips, x);
        if Slips(lines, db, plan, x) { slips := slips + [x]; }
        ValidAgain(this);
        Passed(this, old(slips), x, rest);
        return None;
      }
      var p := Planned(x.off, l.name, if x.kind == Target then 'm' else if k >= 0 then db[k].flag else 'a');
      PlannedAnew(lines, db, plan, p, missing, x, k, newer);
      if |plan| == PLAN || names + |l.name| + 1 > NAMES {
        FullPlan(this, x.off);
        return Some(TooMany);
      }
      Adding(this, p);
      ghost var plan0, next0 := plan, next;
      AllTakenMore(lines, db, plan, p, slips);
      NamesMore(plan, p);
      PlannedForIs(lines, db, x);
      plan := plan + [p];
      names := names + |l.name| + 1;
      ValidAgain(this);
      var fine := LookAll(l, |plan0|, rest);
      if !fine {
        return Some(TooMany);
      }
      Added(this, plan0, next0, p, x, rest);
      r := None;
    }

    /** Wants of a round: the best line for each, and what those need. */
    method Round() returns (r: Option<Result>, ghost round: seq<Want>)
      requires Valid() && next == [] && (forall i :: 0 <= i < |wants| ==> Fresh(wants[i]))
      requires Closed(lines, db, plan, Out(), Open(wants, 0))
      modifies this
      ensures Valid() && old(plan) <= plan && SameWants(old(wants), round) && AllBest(lines, round, |lines|)
      ensures EarnedHere(lines, db, plan, |old(plan)|, round) && SlipsOf(old(slips), slips, round)
      ensures Uniform(lines, db) && old(slips) == [] ==> slips == []
      ensures r == Some(NotFound) ==> !TargetsFound(round, |round|)
      ensures r == Some(TooMany) ==> Full()
      ensures r.None? ==>
        && next == [] && (forall i :: 0 <= i < |wants| ==> Fresh(wants[i])) && (wants != [] ==> |old(plan)| < |plan|)
        && Closed(lines, db, plan, Out(), Open(wants, 0)) && AllNeeded(lines, plan, wants) && Lacked(db, wants)
        && MetOrSlipped(lines, db, plan, missing, slips, round, |round|)
        && missing == old(missing) + Unfound(round, |round|) && TargetsFound(round, |round|)
      ensures r.Some? ==> r.value != Done
    {
      hide *;
      ghost var plan0, slips0, missing0 := plan, slips, missing;
      var found := Scan(lines, wants);
      round := found;
      OpenSame(wants, found);
      TextSame(wants, found);
      var base := TextAll(wants);
      ValidParts(this);
      wants := found;
      ValidAgain(this);
      OpenStart(this, found);
      RoundStart(lines, db, plan, missing, slips, found);
      for i := 0 to |found|
        invariant Valid() && plan0 <= plan && (plan == plan0 ==> next == []) && wants == found
        invariant EarnedHere(lines, db, plan, |plan0|, found) && SlipsOf(slips0, slips, found)
        invariant Uniform(lines, db) && slips0 == [] ==> slips == []
        invariant Closed(lines, db, plan, Out(), Open(found, i) + Groups(next, 0))
        invariant MetOrSlipped(lines, db, plan, missing, slips, found, i)
        invariant missing == missing0 + Unfound(found, i) && TargetsFound(found, i)
      {
        OneBest(lines, found, i);
        OpenNext(found, i);
        UnfoundNext(missing0, found, i);
        Regrouped(Open(found, i + 1), Own(found[i]), Groups(next, 0));
        ghost var plan1, missing1, slips1 := plan, missing, slips;
        if Uniform(lines, db) { ValidParts(this); UniformHolds(lines, db, plan, found[i]); }
        SlipsOfMore(slips0, slips, found, i);
        TargetsMore(found, i);
        r := Choose(found[i], Open(found, i + 1));
        EarnedHereMore(lines, db, plan1, plan, |plan0|, found, i);
        if r.Some? {
          NotFoundHere(found, i);
          return;
        }
        MetOrSlippedMore(lines, db, plan1, plan, missing1, missing, slips1, slips, found, i);
      }
      OpenEnd(this, found);
      ValidParts(this);
      NothingNext(lines, db, plan);
      wants, next, text := next, [], text - base;
      ValidAgain(this);
      r := None;
    }

    /**
     * Rounds until nothing more is wanted. The packages planned are distinct and each was earned;
     * what was reported has no line; and all is fulfilled if and only if nothing that is wanted was
     * passed over, or leans on a package replaced, without being answered otherwise.
     */
    method Resolve() returns (r: Result, ghost rounds: nat, ghost asked: seq<Want>)
      requires Valid() && plan == [] && next == [] && missing == {} && slips == []
      requires forall i :: 0 <= i < |wants| ==> Fresh(wants[i])
      modifies this
      ensures rounds <= PLAN + 1 && Distinct(plan) && FromIndex(lines, plan) && AllEarned(lines, db, plan, asked)
      ensures SameWants(old(wants), asked) && (asked != [] ==> AllBest(lines, asked, |lines|))
      ensures Unfindable(lines, missing) && (r == Done ==> Reports(lines, plan, asked, missing))
      ensures r == Done ==> Closed(lines, db, plan, Out(), {}) && TargetsFound(asked, |asked|)
      ensures r == Done ==> Origins(lines, plan, asked, slips) && AllTaken(lines, db, plan, slips)
      ensures r == Done ==>
        (Fulfilled(lines, db, plan, missing, asked) <==> NoneLost(lines, db, plan, missing, asked))
      ensures r == Done && Uniform(lines, db) ==> slips == []
      ensures r == Done && Uniform(lines, db) && Steady(lines, db) ==> Fulfilled(lines, db, plan, missing, asked)
      ensures r == NotFound ==> !TargetsFound(asked, |asked|)
      ensures r == TooMany ==> Full()
    {
      hide *;
      rounds := 0;
      asked := wants;
      SameSelf(wants);
      ClosedStart(this);
      AllStart(lines, db, plan, missing, slips, wants);
      ValidParts(this);
      while wants != []
        invariant Valid() && next == [] && (forall i :: 0 <= i < |wants| ==> Fresh(wants[i]))
        invariant Closed(lines, db, plan, Out(), Open(wants, 0)) && Origins(lines, plan, asked, slips)
        invariant SameWants(old(wants), asked)
        invariant rounds == 0 ==> asked == wants == old(wants) && slips == [] && plan == [] && missing == {}
        invariant rounds > 0 ==>
          AllBest(lines, asked, |lines|) && MetOrSlipped(lines, db, plan, missing, slips, asked, |asked|)
        invariant rounds > 0 ==> AllNeeded(lines, plan, wants) && Lacked(db, wants) && TargetsFound(asked, |asked|)
        invariant AllEarned(lines, db, plan, asked) && Reports(lines, plan, asked, missing)
        invariant Uniform(lines, db) ==> slips == []
        invariant |plan| <= PLAN && rounds + (PLAN - |plan|) + (if wants == [] then 0 else 1) <= PLAN + 1
        decreases PLAN - |plan| + if wants == [] then 0 else 1
      {
        ghost var plan0, missing0, slips0, wants0, round := plan, missing, slips, wants, [];
        var bad;
        bad, round := Round();
        if rounds == 0 {
          asked := round;
          AllStart(lines, db, plan0, missing0, slips0, asked);
        } else {
          SlipsPrefix(slips0, slips, round);
          MetOrSlippedMore(lines, db, plan0, plan, missing0, missing0 + Unfound(round, |round|), slips0, slips, asked,
            |asked|);
          SameNeeded(lines, plan0, wants0, round);
          SameLacked(db, wants0, round);
          AllNeededMore(lines, plan0, plan, round);
          NeededAreFound(lines, plan, round);
        }
        OriginsMore(lines, plan0, plan, asked, slips0, slips, round);
        AllEarnedMore(lines, db, plan0, plan, asked, round);
        rounds := rounds + 1;
        ValidParts(this);
        if bad.Some? {
          return bad.value, rounds, asked;
        }
        ReportsMore(lines, plan0, plan, asked, missing0, missing, round);
      }
      ValidParts(this);
      NoneOpen(wants);
      NoneAsked(lines, db, plan, missing, slips, asked);
      OutIs(this);
      FulfilledIff(lines, db, plan, missing, slips, asked);
      if Uniform(lines, db) && Steady(lines, db) { SteadyHolds(lines, db, plan, missing, asked); }
      r := Done;
    }
  }

  // ---- what is still to be looked for

  /** The group of a want that is a dependency. */
  ghost function Own(x: Want): (s: set<Group>)
  {
    if x.kind == Dep then {x.group} else {}
  }

  ghost function Open(wants: seq<Want>, from: nat): (s: set<Group>)
    decreases |wants| - from
  {
    if from >= |wants| then {} else Own(wants[from]) + Open(wants, from + 1)
  }

  lemma {:induction false} OwnIs(x: Want)
    ensures Own(x) == if x.kind == Dep then {x.group} else {}
    ensures forall s: set<Group> {:trigger s + Own(x)} :: x.kind != Dep ==> s + Own(x) == s
  {
  }

  lemma {:induction false} OpenSameFrom(a: seq<Want>, b: seq<Want>, from: nat)
    requires SameWants(a, b)
    ensures Open(a, from) == Open(b, from)
    decreases |a| - from
  {
    if from < |a| { OpenSameFrom(a, b, from + 1); }
  }

  lemma {:induction false} OpenSame(a: seq<Want>, b: seq<Want>)
    requires SameWants(a, b)
    ensures Open(a, 0) == Open(b, 0)
  {
    OpenSameFrom(a, b, 0);
  }

  lemma {:induction false} SameSelf(wants: seq<Want>)
    ensures SameWants(wants, wants)
  {
  }

  lemma {:induction false} OpenNext(wants: seq<Want>, i: nat)
    requires i < |wants|
    ensures Open(wants, i) == Own(wants[i]) + Open(wants, i + 1)
  {
  }

  lemma {:induction false} NoneOpen(wants: seq<Want>)
    ensures wants == [] ==> Open(wants, 0) == {}
  {
  }

  lemma {:induction false} Regrouped(rest: set<Group>, own: set<Group>, next: set<Group>)
    ensures own + rest + next == rest + own + next
  {
  }

  lemma {:induction false} OpenStart(f: Plan, round: seq<Want>)
    requires f.next == [] && Closed(f.lines, f.db, f.plan, f.Out(), Open(round, 0))
    ensures Closed(f.lines, f.db, f.plan, f.Out(), Open(round, 0) + Groups(f.next, 0))
  {
    assert Groups(f.next, 0) == {};
    assert Open(round, 0) + Groups(f.next, 0) == Open(round, 0);
  }

  lemma {:induction false} OpenEnd(f: Plan, round: seq<Want>)
    requires f.Valid() && Closed(f.lines, f.db, f.plan, f.Out(), Open(round, |round|) + Groups(f.next, 0))
    ensures Closed(f.lines, f.db, f.plan, f.Out(), Open(f.next, 0)) && AllNeeded(f.lines, f.plan, f.next)
    ensures forall i :: 0 <= i < |f.next| ==> Fresh(f.next[i])
  {
    hide Closed, FromIndex, Distinct, Fresh, Needed;
    forall i | 0 <= i < |f.next| ensures f.next[i].kind == Dep { assert NeededWant(f.lines, f.plan, f.next[i]); }
    GroupsOpen(f.next, 0);
    assert Open(round, |round|) + Groups(f.next, 0) == Open(f.next, 0);
  }

  lemma {:induction false} OpenSnoc(wants: seq<Want>, x: Want, from: nat)
    requires from <= |wants|
    ensures Open(wants + [x], from) == Open(wants, from) + Own(x)
    decreases |wants| - from
  {
    if from < |wants| {
      OpenSnoc(wants, x, from + 1);
      assert (wants + [x])[from] == wants[from];
    } else {
      assert Open(wants + [x], from + 1) == {};
    }
  }

  lemma {:induction false} GroupsOpen(wants: seq<Want>, from: nat)
    requires forall i :: 0 <= i < |wants| ==> wants[i].kind == Dep
    ensures Groups(wants, from) == Open(wants, from)
    decreases |wants| - from
  {
    if from < |wants| {
      GroupsOpen(wants, from + 1);
      assert Groups(wants, from) == {wants[from].group} + Groups(wants, from + 1);
    }
  }

  lemma {:induction false} OneBest(lines: seq<Line>, wants: seq<Want>, i: nat)
    requires AllBest(lines, wants, |lines|) && i < |wants|
    ensures Best(lines, |lines|, wants[i])
  {
  }

  // ---- steps of a round

  lemma {:induction false} ValidParts(f: Plan)
    requires f.Valid()
    ensures |f.plan| <= PLAN && Distinct(f.plan) && FromIndex(f.lines, f.plan)
    ensures (forall i :: 0 <= i < |f.next| ==> Fresh(f.next[i])) && AllNeeded(f.lines, f.plan, f.next)
    ensures Lacked(f.db, f.next) && Unfindable(f.lines, f.missing) && AllTaken(f.lines, f.db, f.plan, f.slips)
    ensures f.names == NamesOf(f.plan) && f.text == TextAll(f.wants) + TextAll(f.next)
  {
  }

  lemma {:induction false} ValidAgain(f: Plan)
    requires |f.plan| <= PLAN && Distinct(f.plan) && FromIndex(f.lines, f.plan)
    requires (forall i :: 0 <= i < |f.next| ==> Fresh(f.next[i])) && AllNeeded(f.lines, f.plan, f.next)
    requires Lacked(f.db, f.next) && Unfindable(f.lines, f.missing) && AllTaken(f.lines, f.db, f.plan, f.slips)
    requires f.names == NamesOf(f.plan) && f.text == TextAll(f.wants) + TextAll(f.next)
    ensures f.Valid()
  {
  }

  lemma {:induction false} NothingNext(lines: seq<Line>, db: seq<Installed>, plan: seq<Planned>)
    ensures AllNeeded(lines, plan, []) && Lacked(db, []) && TextAll([]) == 0
  {
  }

  lemma {:induction false} GroupIn(wants: seq<Want>, i: nat)
    requires i < |wants|
    ensures wants[i].group in Groups(wants, 0)
  {
  }

  lemma {:induction false} GroupOut(wants: seq<Want>, g: Group)
    requires forall j :: 0 <= j < |wants| ==> wants[j].group != g
    ensures g !in Groups(wants, 0)
  {
  }

  /** One more want for the next round. */
  lemma {:induction false} NextMore(lines: seq<Line>, db: seq<Installed>, plan: seq<Planned>, next: seq<Want>, x: Want)
    requires (forall i :: 0 <= i < |next| ==> Fresh(next[i])) && AllNeeded(lines, plan, next) && Lacked(db, next)
    requires Fresh(x) && NeededWant(lines, plan, x) && !DbAnswers(db, x.group)
    ensures (forall i :: 0 <= i < |next + [x]| ==> Fresh((next + [x])[i]))
    ensures AllNeeded(lines, plan, next + [x]) && Lacked(db, next + [x])
  {
    hide NeededWant, DbAnswers;
  }

  lemma {:induction false} FreshNeed(lines: seq<Line>, plan: seq<Planned>, g: Group)
    requires g != [] && Needed(lines, plan, g)
    ensures Fresh(Want(g, Dep, NONE, 0, [])) && NeededWant(lines, plan, Want(g, Dep, NONE, 0, []))
  {
  }

  lemma {:induction false} Looked(was: seq<Want>, next: seq<Want>, g: Group)
    requires next == if g !in Groups(was, 0) then was + [Want(g, Dep, NONE, 0, [])] else was
    ensures Groups(was, 0) <= Groups(next, 0) && g in Groups(next, 0)
  {
    GroupsMore(was, Want(g, Dep, NONE, 0, []));
  }

  lemma {:induction false} FullText(f: Plan, g: Group)
    requires Needed(f.lines, f.plan, g)
    requires |f.wants| + |f.next| >= WANTS || TextAll(f.wants) + TextAll(f.next) + TextOf(g) > WTEXT
    ensures f.Full()
  {
    hide Needed;
  }

  lemma {:induction false} FullPlan(f: Plan, off: nat)
    requires off < |f.lines| && (|f.plan| == PLAN || NamesOf(f.plan) + |f.lines[off].name| + 1 > NAMES)
    ensures f.Full()
  {
  }

  lemma {:induction false} PlannedForIs(lines: seq<Line>, db: seq<Installed>, x: Want)
    requires x.off < |lines|
    ensures PlannedFor(lines, db, x) == Planned(x.off, lines[x.off].name, FlagOf(db, x.kind, lines[x.off].name))
  {
  }

  // ---- the needs of a package, one by one

  ghost predicate CaredTo(lines: seq<Line>, db: seq<Installed>, plan: seq<Planned>, missing: set<Group>,
      open: set<Group>, needs: seq<Group>, n: nat)
  {
    n <= |needs| && forall j :: 0 <= j < n ==> Cared(lines, db, plan, missing, open, needs[j])
  }

  lemma {:induction false} CaredNone(lines: seq<Line>, db: seq<Installed>, plan: seq<Planned>, missing: set<Group>,
      open: set<Group>, needs: seq<Group>)
    ensures CaredTo(lines, db, plan, missing, open, needs, 0)
  {
  }

  lemma {:induction false} CaredEmpty(lines: seq<Line>, db: seq<Installed>, plan: seq<Planned>, missing: set<Group>,
      open: set<Group>, needs: seq<Group>, n: nat)
    requires CaredTo(lines, db, plan, missing, open, needs, n) && n < |needs|
    ensures needs[n] == [] ==> CaredTo(lines, db, plan, missing, open, needs, n + 1)
  {
    hide Answered;
  }

  lemma {:induction false} CaredNext(lines: seq<Line>, db: seq<Installed>, plan: seq<Planned>, missing: set<Group>,
      rest: set<Group>, was: seq<Want>, next: seq<Want>, needs: seq<Group>, n: nat)
    requires CaredTo(lines, db, plan, missing, rest + Groups(was, 0), needs, n) && n < |needs|
    requires Groups(was, 0) <= Groups(next, 0)
    requires Answered(lines, db, plan, needs[n]) || needs[n] in Groups(next, 0)
    ensures CaredTo(lines, db, plan, missing, rest + Groups(next, 0), needs, n + 1)
  {
    hide Answered, Groups;
  }

  lemma {:induction false} CaredEnd(lines: seq<Line>, db: seq<Installed>, plan: seq<Planned>, missing: set<Group>,
      open: set<Group>, l: Line)
    requires CaredTo(lines, db, plan, missing, open, Needs(l), |Needs(l)|)
    ensures CaredAll(lines, db, plan, missing, open, l)
  {
    hide Answered, Needs;
  }

  // ---- how a round and the whole begin and go on

  lemma {:induction false} RoundStart(lines: seq<Line>, db: seq<Installed>, plan: seq<Planned>, missing: set<Group>,
      slips: seq<Want>, round: seq<Want>)
    ensures MetOrSlipped(lines, db, plan, missing, slips, round, 0) && SlipsOf(slips, slips, round)
    ensures EarnedHere(lines, db, plan, |plan|, round) && missing == missing + Unfound(round, 0)
    ensures TargetsFound(round, 0)
  {
  }

  lemma {:induction false} UnfoundNext(missing: set<Group>, wants: seq<Want>, i: nat)
    requires i < |wants|
    ensures missing + Unfound(wants, i) + (if wants[i].rank == NONE then Own(wants[i]) else {}) ==
      missing + Unfound(wants, i + 1)
  {
  }

  lemma {:induction false} NotFoundHere(wants: seq<Want>, i: nat)
    requires i < |wants|
    ensures wants[i].kind == Target && wants[i].rank == NONE ==> !TargetsFound(wants, |wants|)
  {
  }

  lemma {:induction false} AllStart(lines: seq<Line>, db: seq<Installed>, plan: seq<Planned>, missing: set<Group>,
      slips: seq<Want>, asked: seq<Want>)
    ensures plan == [] ==> AllEarned(lines, db, plan, asked)
    ensures missing == {} ==> Reports(lines, plan, asked, missing)
    ensures slips == [] ==> Origins(lines, plan, asked, slips)
  {
  }

  lemma {:induction false} NoneAsked(lines: seq<Line>, db: seq<Installed>, plan: seq<Planned>, missing: set<Group>,
      slips: seq<Want>, asked: seq<Want>)
    ensures asked == [] ==>
      MetOrSlipped(lines, db, plan, missing, slips, asked, |asked|) && TargetsFound(asked, |asked|)
  {
  }

  lemma {:induction false} NeededAreFound(lines: seq<Line>, plan: seq<Planned>, wants: seq<Want>)
    requires AllNeeded(lines, plan, wants)
    ensures TargetsFound(wants, |wants|)
  {
    hide Needed;
    forall i | 0 <= i < |wants| ensures wants[i].kind == Dep { assert NeededWant(lines, plan, wants[i]); }
  }

  lemma {:induction false} GroupsMore(wants: seq<Want>, x: Want)
    ensures Groups(wants + [x], 0) == Groups(wants, 0) + {x.group}
  {
    var all := wants + [x];
    forall i | 0 <= i < |wants| ensures wants[i].group in Groups(all, 0) { assert all[i] == wants[i]; }
    assert all[|wants|] == x;
  }

  lemma {:induction false} ClosedStart(f: Plan)
    requires f.plan == []
    ensures Closed(f.lines, f.db, f.plan, f.Out(), Open(f.wants, 0))
  {
  }

  lemma {:induction false} OutIs(f: Plan)
    ensures f.Out() == f.missing + Open(f.slips, 0)
  {
  }

  lemma {:induction false} NeedIs(lines: seq<Line>, plan: seq<Planned>, at: nat, k: nat)
    requires at < |plan| && plan[at].off < |lines| && k < |Needs(lines[plan[at].off])|
    ensures Needed(lines, plan, Needs(lines[plan[at].off])[k])
  {
    assert NeededBy(lines, plan[at].off, Needs(lines[plan[at].off])[k]);
  }

  lemma {:induction false} SatisfiedAnswers(lines: seq<Line>, db: seq<Installed>, plan: seq<Planned>, g: Group)
    requires FromIndex(lines, plan)
    ensures Satisfied(db, plan, g) ==> Answered(lines, db, plan, g)
    ensures DbAnswers(db, g) ==> Satisfied(db, plan, g)
  {
    if Satisfied(db, plan, g) {
      var k :| 0 <= k < |g| && (Plans(plan, g[k]) || exists i :: 0 <= i < |db| && Answers(db[i], g[k]));
      if Plans(plan, g[k]) {
        var i :| 0 <= i < |plan| && plan[i].name == g[k];
        assert Suits(lines[plan[i].off], Dep, g[k]);
        assert LineAnswers(lines, plan[i].off, g);
      }
    }
  }

  lemma {:induction false} Reported(f: Plan, missing: set<Group>, x: Want, rest: set<Group>)
    requires Closed(f.lines, f.db, f.plan, missing + Open(f.slips, 0), rest + Own(x) + Groups(f.next, 0))
      && f.missing == missing + Own(x)
    ensures Closed(f.lines, f.db, f.plan, f.Out(), rest + Groups(f.next, 0))
  {
    hide Closed, Answered, Own, Groups, Open;
    ClosedWider(f.lines, f.db, f.plan, missing + Open(f.slips, 0), rest + Own(x) + Groups(f.next, 0), f.Out(),
      rest + Groups(f.next, 0));
  }

  lemma {:induction false} Passed(f: Plan, slips: seq<Want>, x: Want, rest: set<Group>)
    requires Closed(f.lines, f.db, f.plan, f.missing + Open(slips, 0), rest + Own(x) + Groups(f.next, 0))
    requires if Met(f.lines, f.db, f.plan, f.missing, x) then f.slips == slips else f.slips == slips + [x]
    ensures Closed(f.lines, f.db, f.plan, f.Out(), rest + Groups(f.next, 0))
  {
    OpenSnoc(slips, x, 0);
    hide Closed, Answered, Groups, Open, PlanAnswers;
    ClosedWider(f.lines, f.db, f.plan, f.missing + Open(slips, 0), rest + Own(x) + Groups(f.next, 0), f.Out(),
      rest + Groups(f.next, 0));
  }

  /** The plan with one more package: distinct still, and all from the index. */
  lemma {:induction false} Adding(f: Plan, p: Planned)
    requires f.Valid() && p.off < |f.lines| && p.name == f.lines[p.off].name && !Plans(f.plan, p.name)
      && |f.plan| < PLAN
    ensures Distinct(f.plan + [p]) && FromIndex(f.lines, f.plan + [p])
    ensures (forall i :: 0 <= i < |f.next| ==> Fresh(f.next[i])) && AllNeeded(f.lines, f.plan + [p], f.next)
  {
    AllNeededMore(f.lines, f.plan, f.plan + [p], f.next);
    hide AllNeeded, Fresh;
    var all := f.plan + [p];
    forall i, j | 0 <= i < j < |all| ensures all[i].name != all[j].name {
      if j < |f.plan| { assert f.plan[i].name != f.plan[j].name; } else { assert f.plan[i].name != p.name; }
    }
  }

  lemma {:induction false} Added(f: Plan, plan: seq<Planned>, next: seq<Want>, p: Planned, x: Want, rest: set<Group>)
    requires Closed(f.lines, f.db, plan, f.Out(), rest + Own(x) + Groups(next, 0))
      && Groups(next, 0) <= Groups(f.next, 0)
    requires Distinct(plan) && !Plans(plan, p.name) && f.plan == plan + [p]
    requires p.off == x.off && p.off < |f.lines| && p.name == f.lines[p.off].name && Best(f.lines, |f.lines|, x)
      && x.rank < NONE
    requires CaredAll(f.lines, f.db, f.plan, f.Out(), rest + Groups(f.next, 0), f.lines[p.off])
    ensures Closed(f.lines, f.db, f.plan, f.Out(), rest + Groups(f.next, 0))
  {
    if x.kind == Dep { FoundAnswers(f.lines, plan, p, x); }
    hide PlanAnswers, DbAnswers, Groups, Best, Plans, Distinct, Open;
    var (a, b, c) := (rest + Own(x) + Groups(next, 0), rest + Own(x) + Groups(f.next, 0), rest + Groups(f.next, 0));
    CaredWider(f.lines, f.db, f.plan, f.Out(), c, f.Out(), b, f.lines[p.off]);
    hide Closed, CaredAll;
    ClosedWider(f.lines, f.db, plan, f.Out(), a, f.Out(), b);
    ClosedMore(f.lines, f.db, plan, p, f.Out(), b);
    ClosedWider(f.lines, f.db, f.plan, f.Out(), b, f.Out(), c);
  }

  // ---- a plan that is not fulfilled

  /** Two versions of a, of which the older provides x, and a package that needs x. */
  function Split(): (lines: seq<Line>)
  {
    [Line("a", [49], ["x"], []), Line("a", [50], [], []), Line("b", [49], [], [["x"]])]
  }

  lemma {:induction false} OlderIsLess()
    ensures Compare([49], [50]) < 0 && Compare([50], [50]) == 0 && Compare([49], [49]) == 0
  {
    VersionLaws([49], [50]);
    VersionLaws([50], [50]);
    OneDigit(49);
    OneDigit(50);
    var x: Text, y: Text := [49], [50];
    hide Parts, CompareParts, Value, Digits, Before;
    NumbersNext(x, y);
  }

  lemma {:induction false} OneDigit(c: Char)
    requires Digit(c)
    ensures var s: Text := [c];
      && Upstream(s) == s && Epoch(s) == 0 && Before(s) == 0 && Digits(s) == 1 && s[..1] == s && Value(s) == Face(c)
  {
    var s: Text := [c];
    assert Digits(s[1..]) == 0;
    assert s[..1] == s && s[1..] == [] && Value(s[..0]) == 0;
  }

  const WANT_A: Want := Want(["a"], Target, 0, 1, [50])
  const WANT_B: Want := Want(["b"], Target, 0, 2, [49])
  const WANT_X: Want := Want(["x"], Dep, 1, 0, [49])
  const SPLIT_PLAN: seq<Planned> := [Planned(1, "a", 'm'), Planned(2, "b", 'm')]

  lemma {:induction false} SplitRanks(kind: Kind)
    requires kind != Upgrade
    ensures var lines := Split();
      && Rank(lines[0], ["a"], kind) == 0 && Rank(lines[1], ["a"], kind) == 0 && Rank(lines[2], ["a"], kind) == NONE
      && Rank(lines[0], ["b"], kind) == NONE && Rank(lines[1], ["b"], kind) == NONE && Rank(lines[2], ["b"], kind) == 0
      && Rank(lines[0], ["x"], kind) == 1 && Rank(lines[1], ["x"], kind) == NONE && Rank(lines[2], ["x"], kind) == NONE
  {
  }

  lemma {:induction false} BestOfThree(lines: seq<Line>, x: Want)
    requires |lines| == 3 && x.rank < NONE && x.off < 3 && Rank(lines[x.off], x.group, x.kind) == x.rank
      && x.ver == Cut(lines[x.off].ver)
    requires x.rank <= Rank(lines[0], x.group, x.kind) && x.rank <= Rank(lines[1], x.group, x.kind)
      && x.rank <= Rank(lines[2], x.group, x.kind)
    requires NotNewer(lines[0], x) && NotNewer(lines[1], x) && NotNewer(lines[2], x)
    ensures Best(lines, 3, x)
  {
    hide NotNewer, Rank, Cut;
  }

  lemma {:induction false} SplitBest()
    ensures Best(Split(), 3, WANT_A) && Best(Split(), 3, WANT_B) && Best(Split(), 3, WANT_X)
  {
    OlderIsLess();
    SplitRanks(Target);
    SplitRanks(Dep);
    hide Compare, Rank, Best;
    BestOfThree(Split(), WANT_A);
    BestOfThree(Split(), WANT_B);
    BestOfThree(Split(), WANT_X);
  }

  lemma {:induction false} SplitPlanned()
    ensures Distinct(SPLIT_PLAN) && FromIndex(Split(), SPLIT_PLAN) && Plans(SPLIT_PLAN, "a")
    ensures PlanAnswers(Split(), SPLIT_PLAN, ["a"]) && PlanAnswers(Split(), SPLIT_PLAN, ["b"])
      && !PlanAnswers(Split(), SPLIT_PLAN, ["x"])
    ensures NeededWant(Split(), SPLIT_PLAN, WANT_X)
  {
    var lines, plan := Split(), SPLIT_PLAN;
    assert ["a"][0] == "a" && ["b"][0] == "b";
    assert Suits(lines[1], Dep, ["a"][0]) && Suits(lines[2], Dep, ["b"][0]);
    assert LineAnswers(lines, plan[0].off, ["a"]) && LineAnswers(lines, plan[1].off, ["b"]);
    assert plan[0].name == "a";
    assert Needs(lines[2])[0] == ["x"];
    assert NeededBy(lines, plan[1].off, ["x"]);
  }

  /**
   * Asked for a and b, the newest a and b are planned; then the older a is found for x, and
   * passed over because an a is planned. x is neither provided nor reported.
   */
  lemma {:induction false} NamesakeSlips()
    ensures Best(Split(), 3, WANT_A) && Best(Split(), 3, WANT_B) && Best(Split(), 3, WANT_X)
    ensures AllEarned(Split(), [], SPLIT_PLAN, [WANT_A, WANT_B]) && NeededWant(Split(), SPLIT_PLAN, WANT_X)
    ensures Slips(Split(), [], SPLIT_PLAN, WANT_X) && PassedOver(Split(), [], SPLIT_PLAN, WANT_X)
    ensures !Fulfilled(Split(), [], SPLIT_PLAN, {}, [WANT_A, WANT_B])
  {
    SplitBest();
    SplitPlanned();
    SplitEarned([]);
    hide Best, PlanAnswers, Plans, NeededWant, AllEarned;
    assert Wanted(Split(), SPLIT_PLAN, [WANT_A, WANT_B], WANT_X);
  }

  const OLD: seq<Installed> := [Installed("a", [49], ["x"], false, 'm')]

  /**
   * With the older a installed x is taken for answered by it, and then the newer a is put in its
   * place.
   */
  lemma {:induction false} ReplacedLeans()
    ensures AllEarned(Split(), OLD, SPLIT_PLAN, [WANT_A, WANT_B]) && NeededWant(Split(), SPLIT_PLAN, WANT_X)
    ensures Satisfied(OLD, SPLIT_PLAN, ["x"]) && Leans(OLD, SPLIT_PLAN, WANT_X)
    ensures !Fulfilled(Split(), OLD, SPLIT_PLAN, {}, [WANT_A, WANT_B])
  {
    SplitBest();
    SplitPlanned();
    SplitEarned(OLD);
    OldAnswers();
    assert WANT_X.group == ["x"];
    hide *;
    NotFulfilled(Split(), OLD, SPLIT_PLAN, [WANT_A, WANT_B], WANT_X);
  }

  lemma {:induction false} OldAnswers()
    ensures Satisfied(OLD, SPLIT_PLAN, ["x"]) && Leans(OLD, SPLIT_PLAN, WANT_X) && !DbKeeps(OLD, SPLIT_PLAN, ["x"])
  {
    assert ["x"][0] == "x" && Answers(OLD[0], ["x"][0]);
    assert Plans(SPLIT_PLAN, OLD[0].name) by { SplitPlanned(); }
    hide Plans;
  }

  lemma {:induction false} NotFulfilled(lines: seq<Line>, db: seq<Installed>, plan: seq<Planned>, asked: seq<Want>,
      x: Want)
    requires NeededWant(lines, plan, x) && !PlanAnswers(lines, plan, x.group) && !DbKeeps(db, plan, x.group)
    ensures !Fulfilled(lines, db, plan, {}, asked)
  {
    hide PlanAnswers, DbKeeps, Needed;
    assert Wanted(lines, plan, asked, x);
  }

  lemma {:induction false} SplitEarned(db: seq<Installed>)
    ensures AllEarned(Split(), db, SPLIT_PLAN, [WANT_A, WANT_B])
  {
    SplitBest();
    hide Best, NeededWant, DbAnswers;
    assert Earns(Split(), db, WANT_A, SPLIT_PLAN[0]) && Earns(Split(), db, WANT_B, SPLIT_PLAN[1]);
    assert Wanted(Split(), SPLIT_PLAN, [WANT_A, WANT_B], WANT_A);
    assert Wanted(Split(), SPLIT_PLAN, [WANT_A, WANT_B], WANT_B);
  }
}
