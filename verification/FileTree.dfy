/** A finite directory tree, and how one entry is found, put and cut. Names and paths are bytes as the host sees
    them; symbolic links are never followed. */
module FileTree {
  import opened Json

  type Name = string
  type Path = seq<Name>

  datatype Entry =
    | File(bytes: string, executable: bool)
    | Link(target: string)
    | Special
    | Dir(children: map<Name, Entry>)

  datatype Errno = ENOENT | ENOTDIR | ELOOP | EEXIST | ENOTEMPTY | EINVAL | EIO

  datatype Found = Opened(children: map<Name, Entry>) | Error(errno: Errno)

  function Find(e: Entry, path: Path): Option<Entry>
    decreases path
  {
    if path == [] then Some(e)
    else if e.Dir? && path[0] in e.children then Find(e.children[path[0]], path[1..])
    else None
  }

  predicate IsDir(e: Entry, path: Path) { Find(e, path).Some? && Find(e, path).value.Dir? }

  /** The leaf at a path: anything that is not a directory. */
  function LeafAt(e: Entry, path: Path): Option<Entry> {
    if Find(e, path).Some? && !Find(e, path).value.Dir? then Find(e, path) else None
  }

  /** Open the directories of a path one by one, following no link: what the last one holds, or why not. */
  function OpenDir(e: Entry, path: Path): Found
    decreases path
  {
    if e.Link? then Error(ELOOP)
    else if !e.Dir? then Error(ENOTDIR)
    else if path == [] then Opened(e.children)
    else if path[0] !in e.children then Error(ENOENT)
    else OpenDir(e.children[path[0]], path[1..])
  }

  lemma {:induction false} OpenIsFind(e: Entry, path: Path)
    ensures OpenDir(e, path).Opened? <==> IsDir(e, path)
    ensures OpenDir(e, path).Opened? ==> Find(e, path) == Some(Dir(OpenDir(e, path).children))
    decreases path
  {
    if path != [] && e.Dir? && path[0] in e.children { OpenIsFind(e.children[path[0]], path[1..]); }
  }

  function Init(path: Path): Path
    requires path != []
  {
    path[..|path| - 1]
  }

  function Last(path: Path): Name
    requires path != []
  {
    path[|path| - 1]
  }

  /** The parent of a path is a directory. */
  predicate HasParent(e: Entry, path: Path) { path != [] && IsDir(e, Init(path)) }

  function Put(e: Entry, path: Path, entry: Entry): Entry
    decreases path
  {
    if path == [] then entry
    else if !e.Dir? then e
    else if |path| == 1 then Dir(e.children[path[0] := entry])
    else if path[0] !in e.children then e
    else Dir(e.children[path[0] := Put(e.children[path[0]], path[1..], entry)])
  }

  function Cut(e: Entry, path: Path): Entry
    decreases path
  {
    if path == [] || !e.Dir? || path[0] !in e.children then e
    else if |path| == 1 then Dir(e.children - {path[0]})
    else Dir(e.children[path[0] := Cut(e.children[path[0]], path[1..])])
  }

  /** `q` is at or below `p`. */
  predicate Under(p: Path, q: Path) { p <= q }

  lemma {:induction false} FindAppend(e: Entry, p: Path, q: Path)
    ensures Find(e, p + q) == if Find(e, p).Some? then Find(Find(e, p).value, q) else None
    decreases p
  {
    if p == [] {
      assert p + q == q;
    } else {
      assert (p + q)[0] == p[0] && (p + q)[1..] == p[1..] + q;
      if e.Dir? && p[0] in e.children { FindAppend(e.children[p[0]], p[1..], q); }
    }
  }

  /** What an opened parent holds is what is found at the path. */
  lemma OpenedParent(e: Entry, path: Path)
    requires path != []
    ensures OpenDir(e, Init(path)).Opened? <==> HasParent(e, path)
    ensures OpenDir(e, Init(path)).Opened? ==>
              Find(e, path) == if Last(path) in OpenDir(e, Init(path)).children
                               then Some(OpenDir(e, Init(path)).children[Last(path)]) else None
  {
    OpenIsFind(e, Init(path));
    assert path == Init(path) + [Last(path)];
    FindAppend(e, Init(path), [Last(path)]);
  }

  /** What lies above something found is a directory. */
  lemma AboveIsDir(e: Entry, p: Path, q: Path)
    requires p < q && Find(e, q).Some?
    ensures IsDir(e, p)
  {
    assert q == p + q[|p|..];
    FindAppend(e, p, q[|p|..]);
  }

  /** After a put: the new entry at its path and below; directories stay directories on the way; the rest as it was. */
  lemma {:induction false} FindPut(e: Entry, path: Path, entry: Entry, q: Path)
    requires HasParent(e, path)
    ensures Under(path, q) ==> Find(Put(e, path, entry), q) == Find(entry, q[|path|..])
    ensures q < path ==> IsDir(e, q) && IsDir(Put(e, path, entry), q)
    ensures !Under(path, q) && !(q < path) ==> Find(Put(e, path, entry), q) == Find(e, q)
    decreases path
  {
    assert IsDir(e, []) by { if |path| > 1 { AboveIsDir(e, [], Init(path)); } }
    if |path| == 1 {
      if q != [] && q[0] == path[0] { assert Under(path, q); }
    } else {
      assert Init(path)[0] == path[0] && Init(path)[1..] == Init(path[1..]);
      assert path[0] in e.children;
      if q != [] && q[0] == path[0] {
        FindPut(e.children[path[0]], path[1..], entry, q[1..]);
        assert Under(path, q) <==> Under(path[1..], q[1..]);
        assert q < path <==> q[1..] < path[1..];
        if Under(path, q) { assert q[|path|..] == q[1..][|path[1..]|..]; }
      }
    }
  }

  lemma {:induction false} FindCut(e: Entry, path: Path, q: Path)
    requires path != [] && Find(e, path).Some?
    ensures Under(path, q) ==> Find(Cut(e, path), q).None?
    ensures q < path ==> IsDir(e, q) && IsDir(Cut(e, path), q)
    ensures !Under(path, q) && !(q < path) ==> Find(Cut(e, path), q) == Find(e, q)
    decreases path
  {
    if |path| == 1 {
      if q != [] && q[0] == path[0] { assert Under(path, q); }
    } else if q != [] && q[0] == path[0] {
      FindCut(e.children[path[0]], path[1..], q[1..]);
      assert Under(path, q) <==> Under(path[1..], q[1..]);
      assert q < path <==> q[1..] < path[1..];
    }
  }

  /** The same leaves, each with the same content. */
  ghost predicate SameLeaves(a: Entry, b: Entry) {
    forall q :: LeafAt(a, q) == LeafAt(b, q)
  }

  lemma PutKeepsLeaves(e: Entry, path: Path, entry: Entry)
    requires HasParent(e, path) && Find(e, path).None?
    ensures forall q :: LeafAt(Put(e, path, entry), q) ==
                          if Under(path, q) then LeafAt(entry, q[|path|..]) else LeafAt(e, q)
    ensures forall q :: LeafAt(e, q).Some? ==> !Under(path, q)
  {
    forall q
      ensures LeafAt(Put(e, path, entry), q) == if Under(path, q) then LeafAt(entry, q[|path|..]) else LeafAt(e, q)
    {
      FindPut(e, path, entry, q);
    }
    forall q | Under(path, q) ensures LeafAt(e, q).None? {
      FindAppend(e, path, q[|path|..]);
      assert q == path + q[|path|..];
    }
  }

  lemma CutKeepsLeaves(e: Entry, path: Path)
    requires path != [] && Find(e, path).Some?
    ensures forall q :: LeafAt(Cut(e, path), q) == if Under(path, q) then None else LeafAt(e, q)
  {
    forall q ensures LeafAt(Cut(e, path), q) == if Under(path, q) then None else LeafAt(e, q) {
      FindCut(e, path, q);
    }
  }

  /** Cutting an empty directory loses no leaf. */
  lemma CutEmptyKeepsLeaves(e: Entry, path: Path)
    requires path != [] && Find(e, path) == Some(Dir(map[]))
    ensures SameLeaves(Cut(e, path), e)
  {
    CutKeepsLeaves(e, path);
    forall q | Under(path, q) ensures LeafAt(e, q).None? {
      FindAppend(e, path, q[|path|..]);
      assert q == path + q[|path|..];
    }
  }
}
