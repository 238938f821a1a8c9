/**
 * Where a path leads, said without the steps of the walk: parts as they are where there are
 * no links, a link's text in the link's place, and one path after another.
 */
module PathLaws {
  import opened Base
  import opened Paths

  // ---- parts

  /** What stands between the slashes, where anything does. */
  function Split(s: string): (parts: seq<string>)
    decreases |s|
  {
    if s == "" then []
    else
      var n := PartLen(s);
      var rest := if n < |s| then s[n + 1..] else "";
      if n == 0 then Split(rest) else [s[..n]] + Split(rest)
  }

  /** Parts taken after those of here: "." is nothing, and ".." takes one back. */
  function Taken(here: seq<string>, parts: seq<string>): (r: seq<string>)
    decreases |parts|
  {
    if parts == [] then here
    else if parts[0] == "." then Taken(here, parts[1..])
    else if parts[0] == ".." then Taken(if here == [] then [] else here[..|here| - 1], parts[1..])
    else Taken(here + [parts[0]], parts[1..])
  }

  lemma {:induction false} TakenBoth(here: seq<string>, a: seq<string>, b: seq<string>)
    ensures Taken(here, a + b) == Taken(Taken(here, a), b)
    decreases |a|
  {
    if a == [] {
      assert a + b == b;
    } else {
      assert (a + b)[1..] == a[1..] + b;
      var next := if a[0] == "." then here
                  else if a[0] == ".." then (if here == [] then [] else here[..|here| - 1]) else here + [a[0]];
      TakenBoth(next, a[1..], b);
    }
  }

  /** Normal parts are taken as they are; "." may be left out, and ".." with the normal part before it. */
  lemma {:induction false} TakenLaws(here: seq<string>, a: seq<string>, x: string, b: seq<string>)
    requires Normal(x)
    ensures AllNormal(a) ==> Taken(here, a) == here + a
    ensures Taken(here, a + ["."] + b) == Taken(here, a + b)
    ensures Taken(here, a + [x, ".."] + b) == Taken(here, a + b)
    ensures Taken([], [".."] + b) == Taken([], b)
  {
    if AllNormal(a) { TakenNormal(here, a); }
    var h := Taken(here, a);
    assert a + ["."] + b == a + (["."] + b) && a + [x, ".."] + b == a + ([x] + ([".."] + b));
    TakenBoth(here, a, b);
    TakenBoth(here, a, ["."] + b);
    TakenBoth(here, a, [x] + ([".."] + b));
    assert (["."] + b)[1..] == b && ([".."] + b)[1..] == b && ([x] + ([".."] + b))[1..] == [".."] + b;
    assert (h + [x])[..|h|] == h;
  }

  lemma {:induction false} TakenNormal(here: seq<string>, a: seq<string>)
    requires AllNormal(a)
    ensures Taken(here, a) == here + a
    decreases |a|
  {
    if a == [] {
      assert here + a == here;
    } else {
      assert Normal(a[0]);
      TakenNormal(here + [a[0]], a[1..]);
      assert (here + [a[0]]) + a[1..] == here + a;
    }
  }

  /** A folder's name splits into its parts again. */
  lemma {:induction false} JoinSplits(parts: seq<string>, s: string)
    requires AllNormal(parts)
    ensures Split(Join(parts) + s) == parts + Split(s)
    decreases |parts|
  {
    hide Split, Normal;
    if parts == [] {
      assert Join(parts) + s == s;
    } else {
      var m := |parts| - 1;
      JoinLast(parts, s);
      JoinSplits(parts[..m], parts[m] + "/" + s);
      SplitFirst(parts[m], s);
      hide Join;
      AllButLast(parts, Split(s));
    }
  }

  lemma {:induction false} JoinLast(parts: seq<string>, s: string)
    requires parts != []
    ensures Join(parts) + s == Join(parts[..|parts| - 1]) + (parts[|parts| - 1] + "/" + s)
  {
  }

  lemma {:induction false} AllButLast(parts: seq<string>, more: seq<string>)
    requires parts != []
    ensures parts[..|parts| - 1] + ([parts[|parts| - 1]] + more) == parts + more
  {
  }

  lemma {:induction false} SplitFirst(x: string, s: string)
    requires Normal(x)
    ensures Split(x + "/" + s) == [x] + Split(s)
  {
    var t := x + "/" + s;
    FirstLen(x, s);
    assert t[..|x|] == x && t[|x| + 1..] == s;
  }

  lemma {:induction false} FirstLen(x: string, s: string)
    requires forall i :: 0 <= i < |x| ==> x[i] != '/'
    ensures PartLen(x + "/" + s) == |x|
  {
    hide PartLen;
    var t := x + "/" + s;
    assert t[|x|] == '/' && forall i :: 0 <= i < |x| ==> t[i] == x[i];
  }

  // ---- without links

  /** The parts of a place. */
  function PartsOf(p: Place): (parts: seq<string>)
  {
    p.folder + if p.entry.Some? then [p.entry.value] else []
  }

  /** Each part still fits where it comes. */
  predicate Fits(here: seq<string>, parts: seq<string>)
    decreases |parts|
  {
    parts == [] ||
    if parts[0] == "." then Fits(here, parts[1..])
    else if parts[0] == ".." then Fits(if here == [] then [] else here[..|here| - 1], parts[1..])
    else |Join(here)| + |parts[0]| + 2 <= NAME_LEN && Fits(here + [parts[0]], parts[1..])
  }

  /** A path that ends in a part of its own, not a slash, "." or "..". */
  predicate Named(path: string)
  {
    path != "" && path[|path| - 1] != '/' && Split(path) != [] && var x := Split(path)[|Split(path)| - 1];
    x != "." && x != ".."
  }

  /** Without links a path leads to its parts, if they fit: to an entry if it names one, else to a folder. */
  lemma {:induction false} NoLinksLead(follow: bool, s: Stage)
    ensures var r := Walk(map[], follow, s);
      if Fits(s.here, Split(s.todo)) then
        r.Found? && PartsOf(r.place) == Taken(s.here, Split(s.todo)) && (r.place.entry.Some? <==> Named(s.todo))
      else r == Failed(Invalid)
    decreases |s.todo|
  {
    hide *;
    WalkEnds(map[], follow, s.here);
    NoParts(s);
    if s.todo != "" {
      var n := PartLen(s.todo);
      PartFits(s.todo);
      WalkOn(map[], follow, s);
      SplitOne(s.todo, n);
      var part, rest := s.todo[..n], if n < |s.todo| then s.todo[n + 1..] else "";
      FirstPart(s.here, part, Split(rest));
      if n == 0 || part == "." {
        StepDots(map[], follow, s, n);
        NoLinksLead(follow, Stage(s.here, rest, s.left));
      } else if part == ".." {
        StepDots(map[], follow, s, n);
        NoLinksLead(follow, Stage(Up(s.here), rest, s.left));
      } else {
        StepPart(map[], follow, s, n);
        if n < |s.todo| {
          NoLinksLead(follow, Stage(s.here + [part], rest, s.left));
        } else {
          PlaceParts(s.here, part);
        }
      }
    }
  }

  lemma {:induction false} NoParts(s: Stage)
    ensures s.todo == "" ==> Split(s.todo) == [] && !Named(s.todo)
    ensures Fits(s.here, []) && Taken(s.here, []) == s.here && PartsOf(Place(s.here, None)) == s.here
    ensures s == Stage(s.here, s.todo, s.left)
  {
  }

  lemma {:induction false} PartFits(s: string)
    ensures PartLen(s) <= |s|
  {
  }

  lemma {:induction false} PlaceParts(here: seq<string>, part: string)
    ensures PartsOf(Place(here, Some(part))) == here + [part] && Split("") == []
    ensures Fits(here + [part], []) && Taken(here + [part], []) == here + [part]
  {
  }

  lemma {:induction false} FirstPart(here: seq<string>, part: string, parts: seq<string>)
    ensures var p := [part] + parts;
      && Taken(here, p) == Taken(if part == "." then here else if part == ".." then Up(here) else here + [part], parts)
      && (Fits(here, p) <==>
            Fits(if part == "." then here else if part == ".." then Up(here) else here + [part], parts) &&
            (part == "." || part == ".." || |Join(here)| + |part| + 2 <= NAME_LEN))
    ensures [] + parts == parts
  {
    hide Join;
    assert ([part] + parts)[1..] == parts;
  }

  lemma {:induction false} SplitOne(s: string, n: nat)
    requires s != "" && n == PartLen(s)
    ensures var part, rest := s[..n], if n < |s| then s[n + 1..] else "";
      && Split(s) == (if n == 0 then [] else [part]) + Split(rest)
      && (n == 0 ==> rest == s[1..])
      && (n < |s| ==> (Named(s) <==> Named(rest)))
      && (n == |s| ==> !Named(rest) && (Named(s) <==> part != "." && part != ".."))
  {
    hide PartLen, Named;
    SplitParts(s, n);
    if n < |s| { NamedLater(s, n); } else { NamedNow(s); }
  }

  lemma {:induction false} SplitParts(s: string, n: nat)
    requires s != "" && n == PartLen(s)
    ensures n <= |s| && (n < |s| ==> s[n] == '/')
    ensures Split(s) == (if n == 0 then [] else [s[..n]]) + Split(if n < |s| then s[n + 1..] else "")
  {
    hide PartLen;
  }

  lemma {:induction false} NamedLater(s: string, n: nat)
    requires s != "" && n == PartLen(s) && n < |s|
    ensures Named(s) <==> Named(s[n + 1..])
  {
    hide PartLen, Split;
    SplitParts(s, n);
    var rest := s[n + 1..];
    if rest == "" {
      assert s[|s| - 1] == '/';
    } else {
      assert s[|s| - 1] == rest[|rest| - 1];
      if rest[|rest| - 1] != '/' {
        SplitSome(rest);
        LastSame(if n == 0 then [] else [s[..n]], Split(rest));
      }
    }
  }

  lemma {:induction false} LastSame(a: seq<string>, b: seq<string>)
    requires b != []
    ensures a + b != [] && (a + b)[|a + b| - 1] == b[|b| - 1]
  {
  }

  lemma {:induction false} NamedNow(s: string)
    requires s != "" && PartLen(s) == |s|
    ensures !Named("") && (Named(s) <==> s[..|s|] != "." && s[..|s|] != "..")
  {
    SplitParts(s, |s|);
    hide PartLen;
    assert Split("") == [];
  }

  lemma {:induction false} SplitSome(s: string)
    requires s != "" && s[|s| - 1] != '/'
    ensures Split(s) != []
    decreases |s|
  {
    var n := PartLen(s);
    if n == 0 { SplitSome(s[1..]); }
  }

  // ---- through a link

  /** The path goes on after a part: with a slash, or not at all. */
  predicate Goes(rest: string)
  {
    rest == "" || rest[0] == '/'
  }

  /**
   * A path that comes to a link leads where the link's text and the rest of the path lead: from the
   * folder the link is in if the text is relative, and from the root if it is not.
   */
  lemma {:induction false} LinkLeads(links: map<string, string>, follow: bool, here: seq<string>, part: string,
      rest: string, left: nat)
    requires Normal(part) && Goes(rest) && (rest == "" ==> follow)
    requires Join(here) + part in links && |Join(here)| + |part| + 2 <= 120 && left > 0
    ensures var t := links[Join(here) + part];
      && (|t| + |rest| + 1 > 248 ==> Walk(links, follow, Stage(here, part + rest, left)) == Failed(Invalid))
      && (|t| + |rest| + 1 <= 248 && t != "" && t[0] != '/' ==>
            Walk(links, follow, Stage(here, part + rest, left)) == Walk(links, follow, Stage(here, t + rest, left - 1)))
      && (|t| + |rest| + 1 <= 248 && t != "" && t[0] == '/' ==>
            Walk(links, follow, Stage(here, part + rest, left)) == Walk(links, follow, Stage([], t + rest, left - 1)))
  {
    var s := Stage(here, part + rest, left);
    var n := |part|;
    PartFirst(part, rest);
    hide Walk, StepFrom, Join, PartLen, Normal;
    WalkOn(links, follow, s);
    StepPart(links, follow, s, n);
  }

  lemma {:induction false} PartFirst(part: string, rest: string)
    requires Normal(part) && Goes(rest)
    ensures var s := part + rest;
      && s != "" && PartLen(s) == |part| && s[..|part|] == part && s[|part|..] == rest
      && part != "" && part != "." && part != ".." && (|part| < |s| <==> rest != "")
  {
    hide PartLen;
    var s := part + rest;
    assert forall i :: 0 <= i < |part| ==> s[i] == part[i];
    assert rest != "" ==> s[|part|] == rest[0];
  }

  /** After the last link that may be followed another is one too many. */
  lemma {:induction false} LinkLoops(links: map<string, string>, follow: bool, here: seq<string>, part: string,
      rest: string)
    requires Normal(part) && Goes(rest) && (rest == "" ==> follow)
    requires Join(here) + part in links && |Join(here)| + |part| + 2 <= 120
    ensures Walk(links, follow, Stage(here, part + rest, 0)) == Failed(Loop)
  {
    var s := Stage(here, part + rest, 0);
    PartFirst(part, rest);
    hide Walk, StepFrom, Join, PartLen, Normal;
    WalkOn(links, follow, s);
    StepPart(links, follow, s, |part|);
  }

  // ---- one path after another

  /** The folder a walk ends in and the links left then, if it ends in one. */
  ghost function EndOf(links: map<string, string>, follow: bool, s: Stage): (r: Option<(seq<string>, nat)>)
    decreases s.left, |s.todo|
  {
    if s.todo == "" then Some((s.here, s.left))
    else
      var step := StepFrom(links, follow, s);
      if step.Stop? then None else EndOf(links, follow, step.next)
  }

  /** The most there is to go after a link is followed, with one character more. */
  ghost function Widest(links: map<string, string>, follow: bool, s: Stage): (w: nat)
    decreases s.left, |s.todo|
  {
    if s.todo == "" then 0
    else
      var step := StepFrom(links, follow, s);
      if step.Stop? then 0
      else
        var w := Widest(links, follow, step.next);
        if step.next.left < s.left && |step.next.todo| + 1 > w then |step.next.todo| + 1 else w
  }

  lemma {:induction false} EndOn(links: map<string, string>, follow: bool, s: Stage)
    requires s.todo != ""
    ensures var step := StepFrom(links, follow, s);
      && EndOf(links, follow, s) == (if step.Stop? then None else EndOf(links, follow, step.next))
      && (step.On? ==> var w := Widest(links, follow, step.next);
          Widest(links, follow, s) ==
            if step.next.left < s.left && |step.next.todo| + 1 > w then |step.next.todo| + 1 else w)
  {
    hide StepFrom;
  }

  ghost predicate Slashed(x: string)
  {
    x == "" || x[|x| - 1] == '/'
  }

  /**
   * A path that ends in a slash, and another after it, lead where the other leads from the folder
   * the first leads to, with the links left; unless what a link leaves to go gets too long.
   */
  lemma {:induction false} WalkAppend(links: map<string, string>, follow: bool, s: Stage, q: string)
    requires Slashed(s.todo) && EndOf(links, follow, s).Some?
    ensures var (h, l) := EndOf(links, follow, s).value; var r := Walk(links, follow, s.(todo := s.todo + q));
      var w := Widest(links, follow, s);
      if w == 0 || w + |q| <= WALK then r == Walk(links, follow, Stage(h, q, l)) else r == Failed(Invalid)
    decreases s.left, |s.todo|
  {
    hide *;
    if s.todo == "" {
      NothingBefore(links, follow, s, q);
    } else {
      EndOn(links, follow, s);
      var step := StepFrom(links, follow, s);
      StepAppend(links, follow, s, q);
      WalkOn(links, follow, s.(todo := s.todo + q));
      StepShorter(links, follow, s);
      WalkAppend(links, follow, step.next, q);
    }
  }

  /** One step of the longer path is the same step, but for the length after a link. */
  lemma {:induction false} StepAppend(links: map<string, string>, follow: bool, s: Stage, q: string)
    requires s.todo != "" && Slashed(s.todo) && StepFrom(links, follow, s).On?
    ensures s.todo + q != "" && var (step, more) := (StepFrom(links, follow, s).next, s.(todo := s.todo + q));
      && Slashed(step.todo) && step.left <= s.left
      && StepFrom(links, follow, more) ==
         if step.left < s.left && |step.todo| + 1 + |q| > WALK then Stop(Failed(Invalid))
         else On(step.(todo := step.todo + q))
  {
    hide *;
    var n := PartLen(s.todo);
    LenAppend(s.todo, q);
    Rests(s.todo, q, n);
    var more := Stage(s.here, s.todo + q, s.left);
    var part := s.todo[..n];
    if n > 0 && part != "." && part != ".." {
      StepPart(links, follow, s, n);
      StepPart(links, follow, more, n);
      if Join(s.here) + part in links {
        LinkAppend(s, links[Join(s.here) + part], s.todo[n..], q);
        LinkSame(s, more, links[Join(s.here) + part] + more.todo[n..]);
      }
    } else {
      StepDots(links, follow, s, n);
      StepDots(links, follow, more, n);
    }
  }

  lemma {:induction false} LinkSame(s: Stage, more: Stage, next: string)
    requires more.here == s.here && more.left == s.left
    ensures LinkFrom(more, next) == LinkFrom(s, next)
  {
  }

  lemma {:induction false} LenAppend(x: string, q: string)
    requires x != "" && Slashed(x)
    ensures PartLen(x) < |x| && PartLen(x + q) == PartLen(x)
  {
    hide PartLen;
    var s := x + q;
    assert forall i :: 0 <= i < |x| ==> s[i] == x[i];
  }

  lemma {:induction false} Rests(x: string, q: string, n: nat)
    requires x != "" && Slashed(x) && n < |x|
    ensures (x + q)[..n] == x[..n] && (x + q)[n..] == x[n..] + q && (x + q)[n + 1..] == x[n + 1..] + q
    ensures (x + q)[1..] == x[1..] + q && Slashed(x[n..]) && Slashed(x[n + 1..]) && Slashed(x[1..]) && x[n..] != ""
  {
  }

  lemma {:induction false} LinkAppend(s: Stage, t: string, rest: string, q: string)
    requires rest != "" && Slashed(rest)
    ensures var step := LinkFrom(s, t + rest);
      && (step.On? ==> Slashed(step.next.todo) && step.next.left < s.left && step.next.todo == t + rest)
      && (step.On? ==>
            LinkFrom(s, t + (rest + q)) ==
            if |t + rest| + 1 + |q| > WALK then Stop(Failed(Invalid))
            else On(step.next.(todo := step.next.todo + q)))
  {
    assert t + (rest + q) == (t + rest) + q;
    assert (t + rest + q)[0] == (t + rest)[0];
  }

  lemma {:induction false} StepShorter(links: map<string, string>, follow: bool, s: Stage)
    requires s.todo != ""
    ensures var r := StepFrom(links, follow, s);
      r.On? ==> r.next.left < s.left || (r.next.left == s.left && |r.next.todo| < |s.todo|)
  {
    hide StepFrom;
  }

  lemma {:induction false} NothingBefore(links: map<string, string>, follow: bool, s: Stage, q: string)
    requires s.todo == ""
    ensures EndOf(links, follow, s) == Some((s.here, s.left)) && s.(todo := s.todo + q) == Stage(s.here, q, s.left)
    ensures Widest(links, follow, s) == 0
  {
  }
}
