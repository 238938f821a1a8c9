/** Names in the file table (src/kernel/fs.c): their hashes and the folders they are in. */
module Names {
  import opened Base

  function Lower(c: char): (r: char)
  {
    if 'A' <= c <= 'Z' then (c as int + 32) as char else c
  }

  /** FNV-1a over a name, case folded. */
  function Fnv(name: string): (h: nat)
  {
    if name == "" then 0x811C9DC5
    else Xor(Fnv(name[..|name| - 1]), Lower(name[|name| - 1]) as int % 256) * 0x01000193 % U32
  }

  /** Never zero. */
  function Hash(name: string): (h: nat)
    ensures h != 0
  {
    if Fnv(name) != 0 then Fnv(name) else 1
  }

  /** Names alike but for the case of their letters have one hash. */
  lemma {:induction false} HashFolds(a: string, b: string)
    requires |a| == |b| && forall i :: 0 <= i < |a| ==> Alike(a[i], b[i])
    ensures Hash(a) == Hash(b)
  {
    FnvFolds(a, b);
  }

  predicate Alike(c: char, d: char)
  {
    c == d || ('A' <= c <= 'Z' && d as int == c as int + 32) || ('A' <= d <= 'Z' && c as int == d as int + 32)
  }

  lemma {:induction false} FnvFolds(a: string, b: string)
    requires |a| == |b| && forall i :: 0 <= i < |a| ==> Alike(a[i], b[i])
    ensures Fnv(a) == Fnv(b)
  {
    if a != "" {
      var m := |a| - 1;
      FnvFolds(a[..m], b[..m]);
      assert Alike(a[m], b[m]);
    }
  }

  /** How much of a name, cut at n, is the folder it is in: up to the last slash. */
  function FolderLen(name: string, n: nat): (r: nat)
    requires n <= |name|
    ensures r <= n && (r > 0 ==> name[r - 1] == '/')
    ensures forall i :: r <= i < n ==> name[i] != '/'
  {
    if n > 0 && name[n - 1] != '/' then FolderLen(name, n - 1) else n
  }

  /** The folder a name is in, "" for the root: a folder's own slash does not count. */
  function Folder(name: string): (r: string)
  {
    var n := |name|;
    name[..FolderLen(name, if n > 0 && name[n - 1] == '/' then n - 1 else n)]
  }

  /** Directly inside folder, and not the folder itself. */
  predicate Inside(folder: string, name: string)
  {
    && folder < name
    && forall i :: |folder| <= i < |name| - 1 ==> name[i] != '/'
  }

  /** What is directly inside a folder is exactly what has that folder as its own. */
  lemma {:induction false} InsideIsFolder(folder: string, name: string)
    requires folder == "" || folder[|folder| - 1] == '/'
    ensures Inside(folder, name) <==> name != "" && name != folder && Folder(name) == folder && folder <= name
  {
    var n := |name|;
    if name != "" {
      var cut := if name[n - 1] == '/' then n - 1 else n;
      var r := FolderLen(name, cut);
      if Inside(folder, name) {
        assert |folder| > 0 ==> name[|folder| - 1] == '/';
        assert r == |folder|;
      }
    }
  }
}
