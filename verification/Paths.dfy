/**
 * Path resolution (src/kernel/fs.c): the walk over character buffers does what a walk
 * over lists of path parts does, and what it ends at is a normal path through no link.
 */
module Paths {
  import opened Base

  const NAME_LEN: nat := 120
  const LINK_LEN: nat := 128
  const WALK: nat := NAME_LEN + LINK_LEN
  const LINKS: nat := 40

  datatype Error = Invalid | Loop
  /** A folder, or an entry in one: its parts, the last without a slash if it is not a folder. */
  datatype Place = Place(folder: seq<string>, entry: Option<string>)
  datatype Answer = Found(place: Place) | Failed(error: Error)

  /** How many characters there are before the first slash. */
  function PartLen(s: string): (n: nat)
    ensures n <= |s| && (n < |s| ==> s[n] == '/') && forall i :: 0 <= i < n ==> s[i] != '/'
  {
    if s == "" || s[0] == '/' then 0
    else
      var n := PartLen(s[1..]);
      assert forall i :: 1 <= i < n + 1 ==> s[i] == s[1..][i - 1];
      n + 1
  }

  /** A folder's name: every part with a slash after it. */
  function Join(parts: seq<string>): (s: string)
  {
    if parts == [] then "" else Join(parts[..|parts| - 1]) + parts[|parts| - 1] + "/"
  }

  function Text(p: Place): (s: string)
  {
    Join(p.folder) + if p.entry.Some? then p.entry.value else ""
  }

  function Up(parts: seq<string>): (r: seq<string>)
  {
    if parts == [] then [] else parts[..|parts| - 1]
  }

  ghost predicate Normal(part: string)
  {
    part != "" && part != "." && part != ".." && forall i :: 0 <= i < |part| ==> part[i] != '/'
  }

  ghost predicate AllNormal(parts: seq<string>)
  {
    forall i :: 0 <= i < |parts| ==> Normal(parts[i])
  }

  /** The entry that is the k-th folder of the path. */
  function Entry(parts: seq<string>, k: nat): (s: string)
    requires k < |parts|
  {
    Join(parts[..k]) + parts[k]
  }

  ghost predicate NoLinks(links: map<string, string>, parts: seq<string>)
  {
    forall k: nat :: k < |parts| ==> Entry(parts, k) !in links
  }

  /** Where a walk stands: in a folder, with so much of the path to go and so many links that may still be followed. */
  datatype Stage = Stage(here: seq<string>, todo: string, left: nat)
  datatype Step = On(next: Stage) | Stop(answer: Answer)

  /** One part of the path. */
  ghost function StepFrom(links: map<string, string>, follow: bool, s: Stage): (r: Step)
    requires s.todo != ""
    ensures r.On? ==> r.next.left < s.left || (r.next.left == s.left && |r.next.todo| < |s.todo|)
  {
    var n := PartLen(s.todo);
    var part, folder := s.todo[..n], n < |s.todo|;
    var on := s.(todo := if folder then s.todo[n + 1..] else "");
    if n == 0 then On(s.(todo := s.todo[1..]))
    else if part == "." then On(on)
    else if part == ".." then On(on.(here := Up(s.here)))
    else if |Join(s.here)| + n + 2 > NAME_LEN then Stop(Failed(Invalid))
    else if (folder || follow) && Join(s.here) + part in links then
      LinkFrom(s, links[Join(s.here) + part] + s.todo[n..])
    else if folder then On(on.(here := s.here + [part]))
    else Stop(Found(Place(s.here, Some(part))))
  }

  /** What a link holds and then what came after it, from the root or from the folder the link is in. */
  ghost function LinkFrom(s: Stage, next: string): (r: Step)
    ensures r.On? ==> r.next.left < s.left
  {
    if s.left == 0 then Stop(Failed(Loop))
    else if |next| + 1 > WALK then Stop(Failed(Invalid))
    else On(Stage(if next != "" && next[0] == '/' then [] else s.here, next, s.left - 1))
  }

  /** Where a path leads, which it always does in the end. */
  ghost function Walk(links: map<string, string>, follow: bool, s: Stage): (r: Answer)
    decreases s.left, |s.todo|
  {
    if s.todo == "" then Found(Place(s.here, None))
    else
      var step := StepFrom(links, follow, s);
      if step.Stop? then step.answer else Walk(links, follow, step.next)
  }

  // ---- what a walk ends at

  /** Normal parts through no link, and none at the end either when links are followed. */
  ghost predicate Good(links: map<string, string>, follow: bool, p: Place)
  {
    && AllNormal(p.folder) && NoLinks(links, p.folder) && |Text(p)| < NAME_LEN
    && (p.entry.Some? ==> Normal(p.entry.value) && (follow ==> Text(p) !in links))
  }

  lemma {:induction false} FolderMore(links: map<string, string>, here: seq<string>, part: string)
    requires AllNormal(here) && NoLinks(links, here) && Normal(part) && Join(here) + part !in links
    ensures AllNormal(here + [part]) && NoLinks(links, here + [part]) && Join(here + [part]) == Join(here) + part + "/"
  {
    var all := here + [part];
    assert all[..|here|] == here;
    forall k: nat | k < |all| ensures Entry(all, k) !in links {
      if k < |here| { assert all[..k] == here[..k]; assert Entry(here, k) !in links; }
    }
  }

  lemma {:induction false} FolderLess(links: map<string, string>, here: seq<string>)
    requires AllNormal(here) && NoLinks(links, here)
    ensures AllNormal(Up(here)) && NoLinks(links, Up(here)) && |Join(Up(here))| <= |Join(here)|
  {
    forall k: nat | k < |Up(here)| ensures Entry(Up(here), k) !in links {
      assert Up(here)[..k] == here[..k];
      assert Entry(here, k) !in links;
    }
  }

  ghost predicate GoodStage(links: map<string, string>, s: Stage)
  {
    AllNormal(s.here) && NoLinks(links, s.here) && |Join(s.here)| < NAME_LEN
  }

  lemma {:induction false} StepIsGood(links: map<string, string>, follow: bool, s: Stage)
    requires GoodStage(links, s) && s.todo != ""
    ensures var r := StepFrom(links, follow, s);
      if r.On? then GoodStage(links, r.next) else r.answer.Found? ==> Good(links, follow, r.answer.place)
  {
    hide Normal, Entry, NoLinks, AllNormal, Join;
    var n := PartLen(s.todo);
    var part := s.todo[..n];
    NoFolder(links);
    FolderLess(links, s.here);
    if n > 0 && part != "." && part != ".." {
      PartNormal(s.todo, n);
      if Join(s.here) + part !in links { FolderMore(links, s.here, part); }
    }
  }

  /** However the links lie, a walk from a good folder ends well or not at all. */
  lemma {:induction false} WalkIsGood(links: map<string, string>, follow: bool, s: Stage)
    requires GoodStage(links, s)
    ensures var r := Walk(links, follow, s); r.Found? ==> Good(links, follow, r.place)
    decreases s.left, |s.todo|
  {
    hide StepFrom, AllNormal, NoLinks;
    if s.todo == "" {
      assert Text(Place(s.here, None)) == Join(s.here);
    } else {
      StepIsGood(links, follow, s);
      var step := StepFrom(links, follow, s);
      if step.On? { WalkIsGood(links, follow, step.next); }
    }
  }

  lemma {:induction false} NoFolder(links: map<string, string>)
    ensures AllNormal([]) && NoLinks(links, []) && Join([]) == ""
  {
  }

  lemma {:induction false} PartNormal(s: string, n: nat)
    requires n == PartLen(s) && n > 0 && s[..n] != "." && s[..n] != ".."
    ensures Normal(s[..n])
  {
  }

  // ---- the buffers

  /** Back over the last slash to the one before it, or to nothing. */
  method DropPart(full: string, ghost here: seq<string>) returns (r: string)
    requires full == Join(here) && AllNormal(here)
    ensures r == Join(Up(here))
  {
    hide Join;
    JoinEnds(here);
    r := full;
    if |r| > 0 {
      ghost var base := Join(Up(here));
      ghost var part := here[|here| - 1];
      r := r[..|r| - 1];
      JoinEnds(Up(here));
      while |r| > 0 && r[|r| - 1] != '/'
        invariant |base| <= |r| <= |base| + |part| && r == (base + part)[..|r|]
      {
        r := r[..|r| - 1];
      }
      DroppedAll(base, part, r);
    }
  }

  lemma {:induction false} DroppedAll(base: string, part: string, r: string)
    requires Normal(part) && |base| <= |r| <= |base| + |part| && r == (base + part)[..|r|]
    requires |r| == 0 || r[|r| - 1] == '/'
    ensures r == base
  {
    assert forall i :: |base| <= i < |base| + |part| ==> (base + part)[i] == part[i - |base|] != '/';
  }

  lemma {:induction false} JoinEnds(here: seq<string>)
    requires AllNormal(here)
    ensures here == [] <==> Join(here) == ""
    ensures here != [] ==> Join(here)[|Join(here)| - 1] == '/'
    ensures here != [] ==>
      Join(here) == Join(Up(here)) + here[|here| - 1] + "/" && AllNormal(Up(here)) && Normal(here[|here| - 1])
  {
  }

  method Span(walk: string, p: nat) returns (len: nat)
    requires p <= |walk|
    ensures len == PartLen(walk[p..])
  {
    len := 0;
    while p + len < |walk| && walk[p + len] != '/'
      invariant p + len <= |walk| && forall i :: p <= i < p + len ==> walk[i] != '/'
    {
      len := len + 1;
    }
    SpanIs(walk, p, len);
  }

  lemma {:induction false} SpanIs(walk: string, p: nat, len: nat)
    requires p + len <= |walk| && (forall i :: p <= i < p + len ==> walk[i] != '/')
      && (p + len < |walk| ==> walk[p + len] == '/')
    ensures len == PartLen(walk[p..])
  {
    var s := walk[p..];
    var n := PartLen(s);
    assert forall i :: 0 <= i < |s| ==> s[i] == walk[p + i];
  }

  lemma {:induction false} Slices(walk: string, p: nat, len: nat)
    requires p < |walk| && p + len <= |walk|
    ensures walk[p..][..len] == walk[p..p + len] && walk[p..][len..] == walk[p + len..]
      && walk[p..][1..] == walk[p + 1..]
    ensures |walk[p..]| == |walk| - p && walk[p..] != "" && walk[|walk|..] == ""
    ensures p + len < |walk| ==> walk[p..][len + 1..] == walk[p + len + 1..]
  {
  }

  lemma {:induction false} StageIs(links: map<string, string>, here: seq<string>, todo: string)
    ensures AllNormal(here) && NoLinks(links, here) && |Join(here)| < NAME_LEN ==>
      GoodStage(links, Stage(here, todo, LINKS))
    ensures NAME_LEN == 120
  {
  }

  lemma {:induction false} GoodHere(links: map<string, string>, s: Stage)
    requires GoodStage(links, s)
    ensures AllNormal(s.here)
  {
  }

  lemma {:induction false} WalkOn(links: map<string, string>, follow: bool, s: Stage)
    requires s.todo != ""
    ensures var step := StepFrom(links, follow, s);
      Walk(links, follow, s) == if step.Stop? then step.answer else Walk(links, follow, step.next)
  {
    hide StepFrom;
  }

  lemma {:induction false} WalkEnds(links: map<string, string>, follow: bool, here: seq<string>)
    ensures forall left: nat :: Walk(links, follow, Stage(here, "", left)) == Found(Place(here, None))
    ensures Text(Place(here, None)) == Join(here)
  {
  }

  /** A step over a part that adds nothing. */
  lemma {:induction false} StepDots(links: map<string, string>, follow: bool, s: Stage, n: nat)
    requires s.todo != "" && n == PartLen(s.todo)
    ensures var part, rest := s.todo[..n], if n < |s.todo| then s.todo[n + 1..] else "";
      var step := StepFrom(links, follow, s);
      && (n == 0 ==> step == On(Stage(s.here, s.todo[1..], s.left)))
      && (n > 0 && part == "." ==> step == On(Stage(s.here, rest, s.left)))
      && (n > 0 && part == ".." ==> step == On(Stage(Up(s.here), rest, s.left)))
  {
    hide LinkFrom, Join, Up;
  }

  /** A step to a part. */
  lemma {:induction false} StepPart(links: map<string, string>, follow: bool, s: Stage, n: nat)
    requires s.todo != "" && n == PartLen(s.todo) && n > 0 && s.todo[..n] != "." && s.todo[..n] != ".."
    ensures var part, folder := s.todo[..n], n < |s.todo|;
      var step, name := StepFrom(links, follow, s), Join(s.here) + part;
      if |Join(s.here)| + n + 2 > NAME_LEN then step == Stop(Failed(Invalid))
      else if (folder || follow) && name in links then step == LinkFrom(s, links[name] + s.todo[n..])
      else if folder then step == On(Stage(s.here + [part], s.todo[n + 1..], s.left))
        && Join(s.here + [part]) == name + "/"
      else step == Stop(Found(Place(s.here, Some(part)))) && Text(Place(s.here, Some(part))) == name
  {
    hide LinkFrom;
    var part := s.todo[..n];
    assert (s.here + [part])[..|s.here|] == s.here;
  }

  /** What the buffers hold between two parts: the folder so far, and the path being walked, from p on. */
  datatype Buffers = Buffers(full: string, walk: string, p: nat, used: nat)

  ghost predicate Shows(b: Buffers, s: Stage)
  {
    b.p <= |b.walk| && b.used <= LINKS && s.todo == b.walk[b.p..] && s.left == LINKS - b.used && b.full == Join(s.here)
  }

  /** One part of the path, in the buffers: what is to come, or a name, or why there is none. */
  method Advance(links: map<string, string>, follow: bool, b: Buffers, ghost s: Stage)
      returns (b': Buffers, name: Option<string>, error: Option<Error>)
    requires Shows(b, s) && b.p < |b.walk| && GoodStage(links, s)
    ensures s.todo != "" && var step := StepFrom(links, follow, s);
      if step.On? then name.None? && error.None? && Shows(b', step.next)
      else if step.answer.Found? then name == Some(Text(step.answer.place)) && error.None?
      else name.None? && error == Some(step.answer.error)
  {
    hide *;
    ShowsIs(b, s);
    b', name, error := b, None, None;
    var len := Span(b.walk, b.p);
    Slices(b.walk, b.p, len);
    var folder := b.p + len < |b.walk|;
    var part := b.walk[b.p..b.p + len];
    var past := if folder then b.p + len + 1 else b.p + len;
    if len > 0 && part != "." && part != ".." {
      b', name, error := AdvancePart(links, follow, b, s, len);
      return;
    }
    StepDots(links, follow, s, len);
    if len == 0 {
      b' := b.(p := b.p + 1);
    } else if part == "." {
      b' := b.(p := past);
    } else {
      GoodHere(links, s);
      var full := DropPart(b.full, s.here);
      b' := b.(full := full, p := past);
    }
    ShowsNow(b', StepFrom(links, follow, s).next);
  }

  method AdvancePart(links: map<string, string>, follow: bool, b: Buffers, ghost s: Stage, len: nat)
      returns (b': Buffers, name: Option<string>, error: Option<Error>)
    requires Shows(b, s) && b.p < |b.walk| && len == PartLen(b.walk[b.p..]) && len > 0
    requires b.walk[b.p..b.p + len] != "." && b.walk[b.p..b.p + len] != ".."
    ensures s.todo != "" && var step := StepFrom(links, follow, s);
      if step.On? then name.None? && error.None? && Shows(b', step.next)
      else if step.answer.Found? then name == Some(Text(step.answer.place)) && error.None?
      else name.None? && error == Some(step.answer.error)
  {
    hide *;
    ShowsIs(b, s);
    b', name, error := b, None, None;
    Slices(b.walk, b.p, len);
    StepPart(links, follow, s, len);
    var folder := b.p + len < |b.walk|;
    var part := b.walk[b.p..b.p + len];
    if |b.full| + len + 2 > NAME_LEN {
      error := Some(Invalid);
    } else if (folder || follow) && b.full + part in links {
      b', error := FollowLink(b, links[b.full + part] + b.walk[b.p + len..], s);
    } else if folder {
      b' := b.(full := b.full + part + "/", p := b.p + len + 1);
      ShowsNow(b', StepFrom(links, follow, s).next);
    } else {
      name := Some(b.full + part);
    }
  }

  lemma {:induction false} ShowsIs(b: Buffers, s: Stage)
    requires Shows(b, s)
    ensures b.p <= |b.walk| && b.used <= LINKS && s.todo == b.walk[b.p..] && s.left == LINKS - b.used
      && b.full == Join(s.here)
  {
  }

  lemma {:induction false} ShowsNow(b: Buffers, s: Stage)
    ensures b.p <= |b.walk| && b.used <= LINKS && s.todo == b.walk[b.p..] && s.left == LINKS - b.used &&
            b.full == Join(s.here) ==>
      Shows(b, s)
  {
  }

  /** The path walked becomes what the link holds and what came after it. */
  method FollowLink(b: Buffers, next: string, ghost s: Stage) returns (b': Buffers, error: Option<Error>)
    requires Shows(b, s)
    ensures var step := LinkFrom(s, next);
      if step.On? then error.None? && Shows(b', step.next)
      else step.answer.Failed? && error == Some(step.answer.error)
  {
    b', error := b, None;
    if b.used == LINKS {
      error := Some(Loop);
    } else if |next| + 1 > WALK {
      error := Some(Invalid);
    } else {
      assert next[0..] == next;
      b' := Buffers(if next != "" && next[0] == '/' then "" else b.full, next, 0, b.used + 1);
    }
  }

  /**
   * The whole name a path stands for from a working directory: what walking its parts
   * comes to, so never one with a part to be skipped, or through a link.
   */
  method Resolve(links: map<string, string>, cwd: string, path: string, follow: bool, ghost home: seq<string>)
      returns (r: Option<string>, error: Error)
    requires cwd == Join(home) && AllNormal(home) && NoLinks(links, home) && |cwd| < NAME_LEN
    ensures path == "" || |path| >= WALK ==> r == None && error == Invalid
    ensures path != "" && |path| < WALK ==>
      var a := Walk(links, follow, Stage(if path[0] == '/' then [] else home, path, LINKS));
      if a.Found? then Good(links, follow, a.place) && r == Some(Text(a.place)) else r == None && error == a.error
  {
    error := Invalid;
    if path == "" || |path| >= WALK {
      return None, error;
    }
    hide *;
    NoFolder(links);
    var b := Buffers(if path[0] == '/' then "" else cwd, path, 0, 0);
    ghost var s := Stage(if path[0] == '/' then [] else home, path, LINKS);
    StageIs(links, s.here, path);
    WalkIsGood(links, follow, s);
    ghost var all := Walk(links, follow, s);
    assert path[0..] == path;
    ShowsNow(b, s);
    ShowsIs(b, s);
    while b.p < |b.walk|
      invariant Shows(b, s) && GoodStage(links, s) && all == Walk(links, follow, s) && b.p <= |b.walk|
      decreases s.left, |s.todo|
    {
      ShowsIs(b, s);
      WalkOn(links, follow, s);
      StepIsGood(links, follow, s);
      var name, failed;
      b, name, failed := Advance(links, follow, b, s);
      if name.Some? {
        return name, error;
      }
      if failed.Some? {
        return None, failed.value;
      }
      s := StepFrom(links, follow, s).next;
      ShowsIs(b, s);
    }
    ShowsIs(b, s);
    assert s.todo == "";
    WalkEnds(links, follow, s.here);
    r := Some(b.full);
  }
}
