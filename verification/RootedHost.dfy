/** The rooted landing host (`rooted-landing-host.c`): operations on a source tree and a worker tree, each reached
    from its root through validated relative paths, no link followed and nothing overwritten. */
module RootedHost {
  import opened Json
  import opened FileTree
  import opened Text

  // ----- relative paths -----

  predicate IsSlash(c: char) { c == '/' }

  function Components(path: string): (components: Path)
    ensures components != []
  {
    SplitWhere(path, IsSlash)
  }

  predicate Proper(name: Name) { name != "" && name != "." && name != ".." }

  predicate AllProper(names: Path) { forall i :: 0 <= i < |names| ==> Proper(names[i]) }

  predicate Normal(path: string) { '\\' !in path && AllProper(Components(path)) }

  predicate NoneIn(path: string, start: nat, end: nat, c: char) {
    forall j :: start <= j < end && j < |path| ==> path[j] != c
  }

  /** The components from `start` on are proper; past the end there are none. */
  predicate ProperFrom(path: string, start: nat) {
    start <= |path| ==> AllProper(Components(path[start..]))
  }

  lemma AllProperFirst(name: Name, rest: Path)
    ensures AllProper([name] + rest) <==> Proper(name) && AllProper(rest)
  {
    var names := [name] + rest;
    if AllProper(names) {
      assert Proper(names[0]);
      forall i | 0 <= i < |rest| ensures Proper(rest[i]) { assert rest[i] == names[i + 1]; }
    }
  }

  lemma ComponentEnds(path: string, start: nat, index: nat)
    requires start <= index <= |path| && NoneIn(path, start, index, '/') && (index == |path| || path[index] == '/')
    ensures ProperFrom(path, start) <==> Proper(path[start..index]) && ProperFrom(path, index + 1)
  {
    var name := path[start..index];
    if index < |path| {
      assert path[start..] == name + ['/'] + path[index + 1..];
      SplitFirst(name, '/', path[index + 1..], IsSlash);
      AllProperFirst(name, Components(path[index + 1..]));
    } else {
      assert path[start..] == name;
      SplitNone(name, IsSlash);
      AllProperFirst(name, []);
      assert [name] + [] == [name];
    }
  }

  lemma SlashAtTheEnd(path: string)
    requires path != "" && path[|path| - 1] == '/'
    ensures !ProperFrom(path, 0)
  {
    var head := path[..|path| - 1];
    assert path[0..] == head + ['/'] + "";
    SplitAppend(head, '/', "", IsSlash);
    assert Components(path[0..]) == Components(head) + [""];
    assert Components(path[0..])[|Components(head)|] == "";
  }

  /** `validate_relative_path`: one pass over the bytes. */
  method ValidateRelativePath(path: string) returns (ok: bool)
    ensures ok <==> Normal(path)
  {
    assert path[0..] == path;
    if |path| == 0 {
      assert !Proper(Components(path)[0]);
      return false;
    }
    if path[|path| - 1] == '/' {
      SlashAtTheEnd(path);
      return false;
    }
    if path[0] == '/' {
      ComponentEnds(path, 0, 0);
      return false;
    }
    var start := 0;
    var index := 0;
    while index <= |path|
      invariant start <= index <= |path| + 1
      invariant index == |path| + 1 ==> start == index
      invariant NoneIn(path, start, index, '/') && NoneIn(path, 0, index, '\\')
      invariant ProperFrom(path, 0) <==> ProperFrom(path, start)
    {
      if index < |path| && path[index] == '\\' { return false; }
      if index == |path| || path[index] == '/' {
        ComponentEnds(path, start, index);
        if !Proper(path[start..index]) { return false; }
        start := index + 1;
      }
      index := index + 1;
    }
    return true;
  }

  // ----- what each operation does to the source tree -----

  const EMPTY: Entry := Dir(map[])

  datatype Mode = Regular | Executable | Symlink

  datatype Result = Done | Failed(errno: Errno) | BadPath

  /** Why the directories of a path cannot be opened, a missing one aside. */
  function Blocked(e: Entry, dirs: Path): Option<Errno> {
    match OpenDir(e, dirs)
    case Error(errno) => if errno == ENOENT then None else Some(errno)
    case Opened(_) => None
  }

  /** The first `n` directories of a path exist. */
  function Ensured(e: Entry, dirs: Path, n: nat): Entry
    requires n <= |dirs|
  {
    if n == 0 then e
    else
      var u := Ensured(e, dirs, n - 1);
      if Find(u, dirs[..n]).None? then Put(u, dirs[..n], EMPTY) else u
  }

  /** What a materialization writes, or why it does not. */
  datatype Copy = Copied(entry: Entry) | NotCopied(errno: Errno)

  /** The source is read: its link target, or its bytes if it is a regular file. */
  function Capture(worker: Entry, path: Path, mode: Mode): Copy
    requires path != []
  {
    match OpenDir(worker, Init(path))
    case Error(errno) => NotCopied(errno)
    case Opened(children) =>
      if Last(path) !in children then NotCopied(ENOENT)
      else match children[Last(path)]
           case Link(target) => if mode.Symlink? then Copied(Link(target)) else NotCopied(ELOOP)
           case File(bytes, _) => if mode.Symlink? then NotCopied(EINVAL) else Copied(File(bytes, mode.Executable?))
           case _ => NotCopied(EINVAL)
  }

  /** Exclusive create: nothing that exists is replaced, and a copy that fails half way is unlinked again. */
  function Materialized(source: Entry, worker: Entry, from: Path, to: Path, mode: Mode, copies: bool): (Entry, Result)
    requires from != [] && to != []
  {
    match OpenDir(worker, Init(from))
    case Error(errno) => (source, Failed(errno))
    case Opened(_) =>
      match OpenDir(source, Init(to))
      case Error(errno) => (source, Failed(errno))
      case Opened(others) =>
        match Capture(worker, from, mode)
        case NotCopied(errno) => (source, Failed(errno))
        case Copied(entry) =>
          if Last(to) in others then (source, Failed(EEXIST))
          else if !copies && !mode.Symlink? then (source, Failed(EIO))
          else (Put(source, to, entry), Done)
  }

  /** Rename without replacing, and never into the moved directory itself. */
  function Moved(e: Entry, from: Path, to: Path): (Entry, Result)
    requires from != [] && to != []
  {
    match OpenDir(e, Init(from))
    case Error(errno) => (e, Failed(errno))
    case Opened(children) =>
      match OpenDir(e, Init(to))
      case Error(errno) => (e, Failed(errno))
      case Opened(others) =>
        if Last(from) !in children then (e, Failed(ENOENT))
        else if Last(to) in others then (e, Failed(EEXIST))
        else if Under(from, to) then (e, Failed(EINVAL))
        else (Put(Cut(e, from), to, children[Last(from)]), Done)
  }

  /** A missing path is a removal already done; a directory goes only if it is empty or the removal is recursive. */
  function Removed(e: Entry, path: Path, recursive: bool): (Entry, Result)
    requires path != []
  {
    match OpenDir(e, Init(path))
    case Error(errno) => (e, if errno == ENOENT || errno == ENOTDIR then Done else Failed(errno))
    case Opened(children) =>
      if Last(path) !in children then (e, Done)
      else if !recursive && children[Last(path)].Dir? && children[Last(path)] != EMPTY then (e, Failed(ENOTEMPTY))
      else (Cut(e, path), Done)
  }

  /** The removal of one directory: its error, if any. */
  function RemoveDir(e: Entry, path: Path): Option<Errno>
    requires path != []
  {
    match OpenDir(e, Init(path))
    case Error(errno) => Some(errno)
    case Opened(children) =>
      if Last(path) !in children then Some(ENOENT)
      else if !children[Last(path)].Dir? then Some(ENOTDIR)
      else if children[Last(path)] != EMPTY then Some(ENOTEMPTY)
      else None
  }

  /** Remove the directories above a path from the inside out, while they are empty or already gone; `n` is how many
      components of the path are still to be tried. */
  function Pruned(e: Entry, path: Path, n: nat): (Entry, Result)
    requires n <= |path|
    decreases n
  {
    if n == 0 then (e, Done)
    else match RemoveDir(e, path[..n])
         case None => Pruned(Cut(e, path[..n]), path, n - 1)
         case Some(ENOENT) => Pruned(e, path, n - 1)
         case Some(ENOTDIR) => (e, Done)
         case Some(ENOTEMPTY) => (e, Done)
         case Some(errno) => (e, Failed(errno))
  }

  datatype Op =
    | EnsureParent(path: Path)
    | Materialize(from: Path, to: Path, mode: Mode, copies: bool)
    | Move(from: Path, to: Path)
    | Remove(path: Path, recursive: bool)
    | RemoveEmptyParents(path: Path)
    | RemoveEmptyDirectory(path: Path)

  predicate Addressed(op: Op) {
    match op
    case Materialize(from, to, _, _) => from != [] && to != []
    case Move(from, to) => from != [] && to != []
    case _ => op.path != []
  }

  /** One operation on the source tree, given the worker tree. */
  function Apply(op: Op, source: Entry, worker: Entry): (Entry, Result)
    requires Addressed(op)
  {
    match op
    case EnsureParent(path) =>
      (match Blocked(source, Init(path))
       case Some(errno) => (source, Failed(errno))
       case None => (Ensured(source, Init(path), |path| - 1), Done))
    case Materialize(from, to, mode, copies) => Materialized(source, worker, from, to, mode, copies)
    case Move(from, to) => Moved(source, from, to)
    case Remove(path, recursive) => Removed(source, path, recursive)
    case RemoveEmptyParents(path) => Pruned(source, path, |path| - 1)
    case RemoveEmptyDirectory(path) =>
      match RemoveDir(source, path)
      case None => (Cut(source, path), Done)
      case Some(errno) => (source, Failed(errno))
  }

  // ----- the host -----

  /** `open_parent_at`: walk the directories of a path from the root. */
  method OpenParent(root: Entry, path: Path) returns (found: Found)
    requires root.Dir? && path != []
    ensures found == OpenDir(root, Init(path))
  {
    var dirs := Init(path);
    var current := root;
    var i := 0;
    assert dirs[0..] == dirs;
    while i < |dirs|
      invariant i <= |dirs| && current.Dir? && OpenDir(root, dirs) == OpenDir(current, dirs[i..])
    {
      assert dirs[i..][1..] == dirs[i + 1..];
      if dirs[i] !in current.children { return Error(ENOENT); }
      var next := current.children[dirs[i]];
      if next.Link? { return Error(ELOOP); }
      if !next.Dir? { return Error(ENOTDIR); }
      current := next;
      i := i + 1;
    }
    return Opened(current.children);
  }

  /** `remove_entry_at`: remove one name of an opened directory, what is inside it first if the removal is recursive;
      a directory that still holds something is not removed. */
  method RemoveEntry(parent: map<Name, Entry>, name: Name, recursive: bool)
    returns (left: map<Name, Entry>, errno: Option<Errno>)
    ensures errno == if !recursive && name in parent && parent[name].Dir? && parent[name] != EMPTY
                     then Some(ENOTEMPTY) else None
    ensures left == if errno.None? then parent - {name} else parent
    decreases if name in parent then parent[name] else EMPTY, 1
  {
    left, errno := parent, None;
    if name !in parent { return; }
    if parent[name].Dir? {
      var inside := parent[name].children;
      if recursive { inside, errno := RemoveInside(parent[name]); }
      left := left[name := Dir(inside)];
      if errno.None? && inside != map[] { errno := Some(ENOTEMPTY); }
    }
    if errno.None? { left := left - {name}; }
  }

  /** The scan of a directory that is being removed: its names, in whatever order they are met, until one fails. */
  method RemoveInside(dir: Entry) returns (left: map<Name, Entry>, errno: Option<Errno>)
    requires dir.Dir?
    ensures errno.None? && left == map[]
    decreases dir, 0
  {
    left, errno := dir.children, None;
    var names := dir.children.Keys;
    while names != {} && errno.None?
      invariant errno.None? && left.Keys == names <= dir.children.Keys
      invariant forall k :: k in left ==> left[k] == dir.children[k]
      decreases |names|
    {
      var name :| name in names;
      left, errno := RemoveEntry(left, name, true);
      names := names - {name};
    }
  }

  class Host {
    var source: Entry
    var worker: Entry

    constructor (source: Entry, worker: Entry)
      ensures this.source == source && this.worker == worker
    {
      this.source, this.worker := source, worker;
    }

    /** `ensureParent`: make the missing directories, outermost first. */
    method EnsureParent(path: string) returns (result: Result)
      requires source.Dir?
      modifies this`source
      ensures (source, result) == if Normal(path) then Apply(Op.EnsureParent(Components(path)), old(source), worker)
                                  else (old(source), BadPath)
    {
      var ok := ValidateRelativePath(path);
      if !ok { return BadPath; }
      var dirs := Init(Components(path));
      var i := 0;
      while i < |dirs|
        invariant i <= |dirs| && IsDir(source, dirs[..i]) && source == Ensured(old(source), dirs, i)
        invariant source == old(source) || (Find(source, dirs[..i]) == Some(EMPTY) && Blocked(old(source), dirs).None?)
      {
        StepInto(source, dirs, i);
        var next := Find(source, dirs[..i + 1]);
        if next.None? {
          if source == old(source) { MissingIsNotBlocked(source, dirs, i); }
          source := Put(source, dirs[..i + 1], EMPTY);
        } else if !next.value.Dir? {
          BlockedThere(source, dirs, i);
          return Failed(if next.value.Link? then ELOOP else ENOTDIR);
        }
        i := i + 1;
      }
      OpenIsFind(source, dirs);
      assert dirs[..|dirs|] == dirs;
      return Done;
    }

    /** `materializeTarget`: copy a worker leaf to a place where nothing is; `copies` tells whether the copy
        completes. */
    method Materialize(from: string, to: string, mode: Mode, copies: bool) returns (result: Result)
      requires source.Dir? && worker.Dir?
      modifies this`source
      ensures (source, result) == if Normal(from) && Normal(to)
                                  then Apply(Op.Materialize(Components(from), Components(to), mode, copies),
                                             old(source), worker)
                                  else (old(source), BadPath)
    {
      var fromOk := ValidateRelativePath(from);
      var toOk := ValidateRelativePath(to);
      if !fromOk || !toOk { return BadPath; }
      var a, b := Components(from), Components(to);
      var sourceParent := OpenParent(worker, a);
      if sourceParent.Error? { return Failed(sourceParent.errno); }
      var destinationParent := OpenParent(source, b);
      if destinationParent.Error? { return Failed(destinationParent.errno); }
      var copy := Capture(worker, a, mode);
      if copy.NotCopied? { return Failed(copy.errno); }
      if Last(b) in destinationParent.children { return Failed(EEXIST); }
      if mode.Symlink? {
        source := Put(source, b, copy.entry);
        return Done;
      }
      ghost var was := source;
      source := Put(source, b, File("", false));
      if !copies {
        CreatedThenUnlinked(was, b);
        source := Cut(source, b);
        return Failed(EIO);
      }
      PutTwice(was, b, File("", false), copy.entry);
      source := Put(source, b, copy.entry);
      return Done;
    }

    /** `move`. */
    method Move(from: string, to: string) returns (result: Result)
      requires source.Dir?
      modifies this`source
      ensures (source, result) == if Normal(from) && Normal(to)
                                  then Apply(Op.Move(Components(from), Components(to)), old(source), worker)
                                  else (old(source), BadPath)
    {
      var fromOk := ValidateRelativePath(from);
      var toOk := ValidateRelativePath(to);
      if !fromOk || !toOk { return BadPath; }
      var a, b := Components(from), Components(to);
      var sourceParent := OpenParent(source, a);
      if sourceParent.Error? { return Failed(sourceParent.errno); }
      var destinationParent := OpenParent(source, b);
      if destinationParent.Error? { return Failed(destinationParent.errno); }
      if Last(a) !in sourceParent.children { return Failed(ENOENT); }
      if Last(b) in destinationParent.children { return Failed(EEXIST); }
      if a <= b { return Failed(EINVAL); }
      source := Put(Cut(source, a), b, sourceParent.children[Last(a)]);
      return Done;
    }

    /** `remove`: a missing path, or one through something that is no directory, is already removed. */
    method Remove(path: string, recursive: bool) returns (result: Result)
      requires source.Dir?
      modifies this`source
      ensures (source, result) ==
              if Normal(path) then Apply(Op.Remove(Components(path), recursive), old(source), worker)
              else (old(source), BadPath)
    {
      var ok := ValidateRelativePath(path);
      if !ok { return BadPath; }
      var components := Components(path);
      var parent := OpenParent(source, components);
      if parent.Error? {
        return if parent.errno == ENOENT || parent.errno == ENOTDIR then Done else Failed(parent.errno);
      }
      var left, errno := RemoveEntry(parent.children, Last(components), recursive);
      ParentWithout(source, components);
      source := Put(source, Init(components), Dir(left));
      return if errno.None? then Done else Failed(errno.value);
    }

    /** `unlinkat` with AT_REMOVEDIR below an opened parent. */
    method RemoveDirectory(path: Path) returns (errno: Option<Errno>)
      requires source.Dir? && path != []
      modifies this`source
      ensures errno == RemoveDir(old(source), path)
      ensures source == if errno.None? then Cut(old(source), path) else old(source)
    {
      var parent := OpenParent(source, path);
      if parent.Error? { return Some(parent.errno); }
      if Last(path) !in parent.children { return Some(ENOENT); }
      if !parent.children[Last(path)].Dir? { return Some(ENOTDIR); }
      if parent.children[Last(path)].children != map[] { return Some(ENOTEMPTY); }
      source := Cut(source, path);
      return None;
    }

    /** `removeEmptyParents`: cut the path at its last separator, again and again. */
    method RemoveEmptyParents(path: string) returns (result: Result)
      requires source.Dir?
      modifies this`source
      ensures (source, result) ==
              if Normal(path) then Apply(Op.RemoveEmptyParents(Components(path)), old(source), worker)
              else (old(source), BadPath)
    {
      var ok := ValidateRelativePath(path);
      if !ok { return BadPath; }
      var components := Components(path);
      var n := |components| - 1;
      while n > 0
        invariant 0 <= n < |components| && source.Dir?
        invariant Pruned(old(source), components, |components| - 1) == Pruned(source, components, n)
      {
        CutKeepsRoot(source, components[..n]);
        var errno := RemoveDirectory(components[..n]);
        if errno == Some(ENOTEMPTY) || errno == Some(ENOTDIR) { return Done; }
        if errno.Some? && errno != Some(ENOENT) { return Failed(errno.value); }
        n := n - 1;
      }
      return Done;
    }

    /** `removeEmptyDirectory`. */
    method RemoveEmptyDirectory(path: string) returns (result: Result)
      requires source.Dir?
      modifies this`source
      ensures (source, result) ==
              if Normal(path) then Apply(Op.RemoveEmptyDirectory(Components(path)), old(source), worker)
              else (old(source), BadPath)
    {
      var ok := ValidateRelativePath(path);
      if !ok { return BadPath; }
      var errno := RemoveDirectory(Components(path));
      return if errno.None? then Done else Failed(errno.value);
    }
  }

  /** Writing back what is left of the parent directory. */
  lemma {:induction false} ParentWithout(e: Entry, path: Path)
    requires path != [] && OpenDir(e, Init(path)).Opened?
    ensures var children := OpenDir(e, Init(path)).children;
            && Put(e, Init(path), Dir(children)) == e
            && Put(e, Init(path), Dir(children - {Last(path)})) == Cut(e, path)
            && (Last(path) !in children ==> Cut(e, path) == e)
    decreases path
  {
    if |path| > 1 {
      assert Init(path)[0] == path[0] && Init(path)[1..] == Init(path[1..]);
      ParentWithout(e.children[path[0]], path[1..]);
      assert e.children[path[0] := e.children[path[0]]] == e.children;
    } else {
      assert Init(path) == [] && path[0] == Last(path);
      assert path[0] !in e.children ==> e.children - {path[0]} == e.children;
    }
  }

  lemma CutKeepsRoot(e: Entry, path: Path)
    requires e.Dir? && path != []
    ensures Cut(e, path).Dir?
  {
  }

  lemma {:induction false} PutTwice(e: Entry, path: Path, first: Entry, second: Entry)
    requires path != [] && OpenDir(e, Init(path)).Opened?
    ensures Put(Put(e, path, first), path, second) == Put(e, path, second)
    decreases path
  {
    if |path| > 1 {
      assert Init(path)[0] == path[0] && Init(path)[1..] == Init(path[1..]);
      PutTwice(e.children[path[0]], path[1..], first, second);
    }
  }

  /** A file that was created and unlinked again leaves the tree as it was. */
  lemma {:induction false} CreatedThenUnlinked(e: Entry, path: Path)
    requires path != [] && OpenDir(e, Init(path)).Opened? && Last(path) !in OpenDir(e, Init(path)).children
    ensures Cut(Put(e, path, File("", false)), path) == e
    decreases path
  {
    if |path| > 1 {
      assert Init(path)[0] == path[0] && Init(path)[1..] == Init(path[1..]);
      CreatedThenUnlinked(e.children[path[0]], path[1..]);
      assert e.children[path[0] := e.children[path[0]]] == e.children;
    } else {
      assert (e.children[path[0] := File("", false)]) - {path[0]} == e.children;
    }
  }

  lemma StepInto(e: Entry, dirs: Path, i: nat)
    requires i < |dirs| && IsDir(e, dirs[..i])
    ensures HasParent(e, dirs[..i + 1])
    ensures Find(e, dirs[..i]) == Some(EMPTY) ==> Find(e, dirs[..i + 1]).None?
    ensures Find(Put(e, dirs[..i + 1], EMPTY), dirs[..i + 1]) == Some(EMPTY)
  {
    assert Init(dirs[..i + 1]) == dirs[..i];
    assert dirs[..i + 1] == dirs[..i] + [dirs[i]];
    FindAppend(e, dirs[..i], [dirs[i]]);
    FindPut(e, dirs[..i + 1], EMPTY, dirs[..i + 1]);
  }

  lemma {:induction false} MissingIsNotBlocked(e: Entry, dirs: Path, i: nat)
    requires i < |dirs| && IsDir(e, dirs[..i]) && Find(e, dirs[..i + 1]).None?
    ensures Blocked(e, dirs).None?
    decreases i
  {
    if i > 0 {
      assert dirs[..i][0] == dirs[0] && dirs[..i][1..] == dirs[1..][..i - 1];
      assert dirs[..i + 1][1..] == dirs[1..][..i];
      MissingIsNotBlocked(e.children[dirs[0]], dirs[1..], i - 1);
    }
  }

  lemma {:induction false} BlockedThere(e: Entry, dirs: Path, i: nat)
    requires i < |dirs| && IsDir(e, dirs[..i])
    requires Find(e, dirs[..i + 1]).Some? && !Find(e, dirs[..i + 1]).value.Dir?
    ensures Blocked(e, dirs) == Some(if Find(e, dirs[..i + 1]).value.Link? then ELOOP else ENOTDIR)
    decreases i
  {
    if i > 0 {
      assert dirs[..i][0] == dirs[0] && dirs[..i][1..] == dirs[1..][..i - 1];
      assert dirs[..i + 1][1..] == dirs[1..][..i];
      BlockedThere(e.children[dirs[0]], dirs[1..], i - 1);
    } else {
      assert dirs[..1] == [dirs[0]] && dirs[..0] == [];
      assert Find(e, [dirs[0]]) == Some(e.children[dirs[0]]);
      assert OpenDir(e, dirs) == OpenDir(e.children[dirs[0]], dirs[1..]);
    }
  }
}
