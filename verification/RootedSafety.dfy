/** What the rooted host's operations keep over whole runs: every leaf and its content, unless a removal names it. */
module RootedSafety {
  import opened Json
  import opened FileTree
  import opened RootedHost

  lemma {:induction false} EnsuredKeeps(e: Entry, dirs: Path, n: nat)
    requires n <= |dirs| && e.Dir? && Blocked(e, dirs).None?
    ensures SameLeaves(Ensured(e, dirs, n), e) && IsDir(Ensured(e, dirs, n), dirs[..n])
    ensures forall q :: Find(e, q).Some? ==> (IsDir(e, q) <==> IsDir(Ensured(e, dirs, n), q))
    ensures forall q :: Find(e, q).None? && Find(Ensured(e, dirs, n), q).Some? ==>
              q <= dirs[..n] && IsDir(Ensured(e, dirs, n), q)
    decreases n
  {
    if n > 0 {
      EnsuredKeeps(e, dirs, n - 1);
      var u, d := Ensured(e, dirs, n - 1), dirs[..n];
      assert Init(d) == dirs[..n - 1];
      if Find(u, d).None? {
        PutKeepsLeaves(u, d, EMPTY);
        forall q ensures Find(Put(u, d, EMPTY), q) == (if Under(d, q) then Find(EMPTY, q[|d|..])
                                                       else if q < d then Find(Put(u, d, EMPTY), q) else Find(u, q))
        { FindPut(u, d, EMPTY, q); }
        PutDirectories(u, d);
      } else {
        NotBlockedIsDir(e, dirs, n);
      }
    }
  }

  lemma PutDirectories(u: Entry, d: Path)
    requires HasParent(u, d) && Find(u, d).None?
    ensures IsDir(Put(u, d, EMPTY), d)
    ensures forall q :: Find(u, q).Some? ==> (IsDir(u, q) <==> IsDir(Put(u, d, EMPTY), q))
    ensures forall q :: Find(u, q).None? && Find(Put(u, d, EMPTY), q).Some? ==> q <= d && IsDir(Put(u, d, EMPTY), q)
  {
    FindPut(u, d, EMPTY, d);
    assert d[|d|..] == [];
    forall q | Find(u, q).Some? ensures IsDir(u, q) <==> IsDir(Put(u, d, EMPTY), q) {
      FindPut(u, d, EMPTY, q);
      if Under(d, q) { assert q == d + q[|d|..]; FindAppend(u, d, q[|d|..]); }
    }
    forall q | Find(u, q).None? && Find(Put(u, d, EMPTY), q).Some? ensures q <= d && IsDir(Put(u, d, EMPTY), q) {
      FindPut(u, d, EMPTY, q);
      if Under(d, q) { assert q == d + q[|d|..]; }
    }
  }

  /** A present ancestor of a path that is not blocked is a directory. */
  lemma {:induction false} NotBlockedIsDir(e: Entry, dirs: Path, n: nat)
    requires n <= |dirs| && e.Dir? && Blocked(e, dirs).None?
    ensures Find(e, dirs[..n]).Some? ==> IsDir(e, dirs[..n])
    decreases dirs
  {
    if n > 0 && dirs[0] in e.children {
      assert dirs[..n][0] == dirs[0] && dirs[..n][1..] == dirs[1..][..n - 1];
      assert OpenDir(e, dirs) == OpenDir(e.children[dirs[0]], dirs[1..]);
      NotBlockedIsDir(e.children[dirs[0]], dirs[1..], n - 1);
    }
  }

  // ----- where a leaf goes -----

  /** A leaf at `q` before the operation is at this path afterwards, or nowhere. */
  function Track(op: Op, source: Entry, worker: Entry, q: Path): Option<Path>
    requires Addressed(op)
  {
    match op
    case Move(from, to) => if Moved(source, from, to).1.Done? && Under(from, q) then Some(to + q[|from|..]) else Some(q)
    case Remove(path, recursive) => if Removed(source, path, recursive).1.Done? && Under(path, q) then None else Some(q)
    case _ => Some(q)
  }

  /** `leaf` is what a materialization in this mode makes of `original`: a file with its bytes, executable as asked,
      or the same link. */
  predicate IsCopyOf(leaf: Entry, original: Option<Entry>, mode: Mode) {
    match original
    case Some(File(bytes, _)) => !mode.Symlink? && leaf == File(bytes, mode.Executable?)
    case Some(Link(target)) => mode.Symlink? && leaf == Link(target)
    case _ => false
  }

  predicate CanBeCopied(original: Option<Entry>, mode: Mode) {
    match original
    case Some(File(_, _)) => !mode.Symlink?
    case Some(Link(_)) => mode.Symlink?
    case _ => false
  }

  lemma CaptureIsCopy(worker: Entry, from: Path, mode: Mode)
    requires from != []
    ensures var copy := Capture(worker, from, mode);
            && (copy.Copied? <==> HasParent(worker, from) && CanBeCopied(Find(worker, from), mode))
            && (copy.Copied? ==> IsCopyOf(copy.entry, Find(worker, from), mode))
  {
    OpenedParent(worker, from);
  }

  lemma MaterializedKeeps(e: Entry, worker: Entry, from: Path, to: Path, mode: Mode, copies: bool, q: Path)
    requires from != [] && to != []
    ensures var (after, result) := Materialized(e, worker, from, to, mode, copies);
            && (LeafAt(e, q).Some? ==> LeafAt(after, q) == LeafAt(e, q))
            && (LeafAt(after, q).Some? && LeafAt(e, q).None? ==>
                  q == to && result.Done? && IsCopyOf(LeafAt(after, q).value, Find(worker, from), mode))
  {
    var (after, result) := Materialized(e, worker, from, to, mode, copies);
    if result.Done? {
      OpenedParent(e, to);
      CaptureIsCopy(worker, from, mode);
      PutKeepsLeaves(e, to, Capture(worker, from, mode).entry);
      if Under(to, q) { assert q == to + q[|to|..]; }
    }
  }

  /** What a successful move does to every leaf path, in terms of the cut tree. */
  lemma MoveShape(e: Entry, from: Path, to: Path)
    requires from != [] && to != [] && Moved(e, from, to).1.Done?
    ensures Find(e, from).Some? && Find(e, to).None? && !Under(from, to)
    ensures forall q :: LeafAt(Moved(e, from, to).0, q) ==
                          if Under(to, q) then LeafAt(Find(e, from).value, q[|to|..])
                          else if Under(from, q) then None else LeafAt(e, q)
  {
    OpenedParent(e, from);
    OpenedParent(e, to);
    var cut := Cut(e, from);
    CutKeepsLeaves(e, from);
    FindCut(e, from, Init(to));
    assert !Under(from, Init(to));
    FindCut(e, from, to);
    if to < from { AboveIsDir(e, to, from); }
    PutKeepsLeaves(cut, to, Find(e, from).value);
  }

  lemma MovedKeeps(e: Entry, from: Path, to: Path, q: Path)
    requires from != [] && to != [] && Moved(e, from, to).1.Done? && LeafAt(e, q).Some?
    ensures !Under(to, q)
    ensures LeafAt(Moved(e, from, to).0, if Under(from, q) then to + q[|from|..] else q) == LeafAt(e, q)
  {
    MoveShape(e, from, to);
    if Under(to, q) { LeafIsNotBelowNothing(e, to, q); }
    if Under(from, q) {
      var rest := q[|from|..];
      assert q == from + rest && (to + rest)[|to|..] == rest;
      FindAppend(e, from, rest);
    }
  }

  lemma MovedInventsNothing(e: Entry, from: Path, to: Path, p: Path)
    requires from != [] && to != [] && Moved(e, from, to).1.Done? && LeafAt(Moved(e, from, to).0, p).Some?
    ensures var q := if Under(to, p) then from + p[|to|..] else p;
            LeafAt(e, q).Some? && p == if Under(from, q) then to + q[|from|..] else q
  {
    MoveShape(e, from, to);
    if Under(to, p) {
      var rest := p[|to|..];
      FindAppend(e, from, rest);
      assert (from + rest)[|from|..] == rest && p == to + rest;
    }
  }

  lemma LeafIsNotBelowNothing(e: Entry, to: Path, q: Path)
    requires Find(e, to).None? && Under(to, q)
    ensures LeafAt(e, q).None?
  {
    assert q == to + q[|to|..];
    FindAppend(e, to, q[|to|..]);
  }

  lemma RemovedKeeps(e: Entry, path: Path, recursive: bool, q: Path)
    requires path != []
    ensures var (after, result) := Removed(e, path, recursive);
            LeafAt(after, q) == if result.Done? && Under(path, q) then None else LeafAt(e, q)
  {
    OpenedParent(e, path);
    if Find(e, path).Some? {
      if Removed(e, path, recursive).1.Done? && HasParent(e, path) { CutKeepsLeaves(e, path); }
      if !HasParent(e, path) { AboveIsDir(e, Init(path), path); }
    } else if Under(path, q) {
      LeafIsNotBelowNothing(e, path, q);
    }
  }

  lemma RemoveDirKeeps(e: Entry, path: Path)
    requires path != [] && RemoveDir(e, path).None?
    ensures Find(e, path) == Some(EMPTY) && SameLeaves(Cut(e, path), e)
  {
    OpenedParent(e, path);
    CutEmptyKeepsLeaves(e, path);
  }

  lemma {:induction false} PrunedKeeps(e: Entry, path: Path, n: nat)
    requires n <= |path| && e.Dir?
    ensures SameLeaves(Pruned(e, path, n).0, e) && Pruned(e, path, n).0.Dir?
    decreases n
  {
    if n > 0 {
      match RemoveDir(e, path[..n])
      case None =>
        RemoveDirKeeps(e, path[..n]);
        PrunedKeeps(Cut(e, path[..n]), path, n - 1);
      case Some(ENOENT) =>
        PrunedKeeps(e, path, n - 1);
      case _ =>
    }
  }

  /** No operation but a removal deletes or alters a leaf: each stays where it is or goes where a move takes it, with
      its content. */
  lemma LeavesAreKept(op: Op, source: Entry, worker: Entry, q: Path)
    requires Addressed(op) && source.Dir? && LeafAt(source, q).Some?
    ensures var after := Apply(op, source, worker).0;
            && after.Dir?
            && match Track(op, source, worker, q)
               case Some(p) => LeafAt(after, p) == LeafAt(source, q)
               case None => op.Remove? && Under(op.path, q) && LeafAt(after, q).None?
  {
    match op
    case EnsureParent(path) =>
      if Blocked(source, Init(path)).None? {
        EnsuredKeeps(source, Init(path), |path| - 1);
        EnsuredIsDir(source, Init(path), |path| - 1);
      }
    case Materialize(from, to, mode, copies) => MaterializedKeeps(source, worker, from, to, mode, copies, q);
    case Move(from, to) => if Moved(source, from, to).1.Done? { MovedKeeps(source, from, to, q); }
    case Remove(path, recursive) => RemovedKeeps(source, path, recursive, q);
    case RemoveEmptyParents(path) => PrunedKeeps(source, path, |path| - 1);
    case RemoveEmptyDirectory(path) => if RemoveDir(source, path).None? { RemoveDirKeeps(source, path); }
  }

  lemma {:induction false} EnsuredIsDir(e: Entry, dirs: Path, n: nat)
    requires n <= |dirs| && e.Dir?
    ensures Ensured(e, dirs, n).Dir?
    decreases n
  {
    if n > 0 { EnsuredIsDir(e, dirs, n - 1); }
  }

  /** Two leaves never end up at one path. */
  lemma TrackIsInjective(op: Op, source: Entry, worker: Entry, q: Path, r: Path)
    requires Addressed(op) && LeafAt(source, q).Some? && LeafAt(source, r).Some? && q != r
    ensures Track(op, source, worker, q).Some? ==> Track(op, source, worker, q) != Track(op, source, worker, r)
  {
    if op.Move? && Moved(source, op.from, op.to).1.Done? {
      MovedKeeps(source, op.from, op.to, q);
      MovedKeeps(source, op.from, op.to, r);
      if Under(op.from, q) && Under(op.from, r) {
        assert q == op.from + q[|op.from|..] && r == op.from + r[|op.from|..];
        assert (op.to + q[|op.from|..])[|op.to|..] == q[|op.from|..];
        assert (op.to + r[|op.from|..])[|op.to|..] == r[|op.from|..];
      }
    }
  }

  /** No operation makes up a leaf: each leaf afterwards is one that was there, or the one materialized, and that is
      a copy of the worker's leaf. */
  lemma NoLeafIsInvented(op: Op, source: Entry, worker: Entry, p: Path)
    requires Addressed(op) && source.Dir? && LeafAt(Apply(op, source, worker).0, p).Some?
    ensures (exists q :: LeafAt(source, q).Some? && Track(op, source, worker, q) == Some(p))
            || (op.Materialize? && p == op.to
                && IsCopyOf(LeafAt(Apply(op, source, worker).0, p).value, Find(worker, op.from), op.mode))
  {
    match op
    case EnsureParent(path) =>
      if Blocked(source, Init(path)).None? { EnsuredKeeps(source, Init(path), |path| - 1); }
      assert Track(op, source, worker, p) == Some(p);
    case Materialize(from, to, mode, copies) =>
      MaterializedKeeps(source, worker, from, to, mode, copies, p);
      assert Track(op, source, worker, p) == Some(p);
    case Move(from, to) =>
      if Moved(source, from, to).1.Done? {
        MovedInventsNothing(source, from, to, p);
        var q := if Under(to, p) then from + p[|to|..] else p;
        assert Track(op, source, worker, q) == Some(p);
      } else {
        assert Track(op, source, worker, p) == Some(p);
      }
    case Remove(path, recursive) =>
      RemovedKeeps(source, path, recursive, p);
      assert Track(op, source, worker, p) == Some(p);
    case RemoveEmptyParents(path) =>
      PrunedKeeps(source, path, |path| - 1);
      assert Track(op, source, worker, p) == Some(p);
    case RemoveEmptyDirectory(path) =>
      if RemoveDir(source, path).None? { RemoveDirKeeps(source, path); }
      assert Track(op, source, worker, p) == Some(p);
  }

  // ----- whole runs -----

  function ApplyAll(ops: seq<Op>, source: Entry, worker: Entry): Entry
    requires forall op :: op in ops ==> Addressed(op)
    decreases ops
  {
    if ops == [] then source
    else assert ops[0] in ops; ApplyAll(ops[1..], Apply(ops[0], source, worker).0, worker)
  }

  function TrackAll(ops: seq<Op>, source: Entry, worker: Entry, q: Path): Option<Path>
    requires forall op :: op in ops ==> Addressed(op)
    decreases ops
  {
    if ops == [] then Some(q)
    else
      assert ops[0] in ops;
      match Track(ops[0], source, worker, q)
      case None => None
      case Some(p) => TrackAll(ops[1..], Apply(ops[0], source, worker).0, worker, p)
  }

  /** Operation `k` of a run is a removal of the leaf that was at `q`, or of a directory above where it then was. */
  predicate Removes(ops: seq<Op>, source: Entry, worker: Entry, q: Path, k: nat)
    requires k < |ops| && forall op :: op in ops ==> Addressed(op)
  {
    var op, at := ops[k], TrackAll(ops[..k], source, worker, q);
    && op.Remove? && op.path != [] && at.Some? && Under(op.path, at.value)
    && Removed(ApplyAll(ops[..k], source, worker), op.path, op.recursive).1.Done?
  }

  lemma RemovesLater(ops: seq<Op>, source: Entry, worker: Entry, q: Path, p: Path, k: nat)
    requires k + 1 < |ops| && forall op :: op in ops ==> Addressed(op)
    requires assert ops[0] in ops; Track(ops[0], source, worker, q) == Some(p)
    ensures assert ops[0] in ops;
            Removes(ops, source, worker, q, k + 1) == Removes(ops[1..], Apply(ops[0], source, worker).0, worker, p, k)
  {
    assert ops[..k + 1][0] == ops[0] && ops[..k + 1][1..] == ops[1..][..k];
  }

  /** Over any run of operations, every leaf is still there with its content, at the one path the moves took it to,
      unless a removal that succeeded named it, or a directory above it, where it then was; and only such a removal
      loses it. */
  lemma {:induction false} RunsKeepLeaves(ops: seq<Op>, source: Entry, worker: Entry, q: Path)
    requires source.Dir? && LeafAt(source, q).Some? && forall op :: op in ops ==> Addressed(op)
    ensures match TrackAll(ops, source, worker, q)
            case Some(p) => LeafAt(ApplyAll(ops, source, worker), p) == LeafAt(source, q)
            case None => true
    ensures TrackAll(ops, source, worker, q).None? <==>
              exists k :: 0 <= k < |ops| && Removes(ops, source, worker, q, k)
    decreases ops
  {
    if ops != [] {
      var op, rest := ops[0], ops[1..];
      assert op in ops;
      LeavesAreKept(op, source, worker, q);
      assert TrackAll(ops[..0], source, worker, q) == Some(q) && ApplyAll(ops[..0], source, worker) == source;
      match Track(op, source, worker, q)
      case None =>
        assert Removes(ops, source, worker, q, 0);
      case Some(p) =>
        var next := Apply(op, source, worker).0;
        RunsKeepLeaves(rest, next, worker, p);
        forall k: nat | k < |rest| ensures Removes(ops, source, worker, q, k + 1) == Removes(rest, next, worker, p, k) {
          RemovesLater(ops, source, worker, q, p, k);
        }
        assert !Removes(ops, source, worker, q, 0);
        if k: nat :| k < |rest| && Removes(rest, next, worker, p, k) { assert Removes(ops, source, worker, q, k + 1); }
        if k: nat :| k < |ops| && Removes(ops, source, worker, q, k) { assert Removes(rest, next, worker, p, k - 1); }
    }
  }

  lemma {:induction false} RunsKeepLeavesApart(ops: seq<Op>, source: Entry, worker: Entry, q: Path, r: Path)
    requires source.Dir? && LeafAt(source, q).Some? && LeafAt(source, r).Some? && q != r
    requires forall op :: op in ops ==> Addressed(op)
    ensures TrackAll(ops, source, worker, q).Some? ==>
              TrackAll(ops, source, worker, q) != TrackAll(ops, source, worker, r)
    decreases ops
  {
    if ops != [] {
      var op := ops[0];
      assert op in ops;
      LeavesAreKept(op, source, worker, q);
      LeavesAreKept(op, source, worker, r);
      TrackIsInjective(op, source, worker, q, r);
      var a, b := Track(op, source, worker, q), Track(op, source, worker, r);
      if a.Some? && b.Some? { RunsKeepLeavesApart(ops[1..], Apply(op, source, worker).0, worker, a.value, b.value); }
    }
  }

  // ----- removing empty parents -----

  lemma RemoveDirFails(e: Entry, path: Path, n: nat, errno: Errno)
    requires 0 < n <= |path| && e.Dir? && RemoveDir(e, path[..n]) == Some(errno)
    ensures errno == ENOENT ==> Find(e, path[..n]).None?
    ensures errno != ENOENT ==> forall k :: 0 < k <= n ==> Find(e, path[..k]) != Some(EMPTY)
  {
    var p := path[..n];
    OpenedParent(e, p);
    if OpenDir(e, Init(p)).Error? {
      if Find(e, p).Some? { AboveIsDir(e, Init(p), p); }
      if errno != ENOENT { StuckAboveNothingEmpty(e, Init(p), errno); }
    }
    forall k | 0 < k < n && errno != ENOENT ensures Find(e, path[..k]) != Some(EMPTY) {
      if OpenDir(e, Init(p)).Opened? {
        assert path[..n] == path[..k] + path[k..n];
        FindAppend(e, path[..k], path[k..n]);
      } else {
        assert Init(p)[..k] == path[..k];
      }
    }
  }

  /** When a link or a file is in the way, the directories before it hold something, and nothing is after it. */
  lemma {:induction false} StuckAboveNothingEmpty(e: Entry, dirs: Path, errno: Errno)
    requires e.Dir? && OpenDir(e, dirs) == Error(errno) && errno != ENOENT
    ensures forall k :: 0 <= k <= |dirs| ==> Find(e, dirs[..k]) != Some(EMPTY)
    decreases dirs
  {
    var child := e.children[dirs[0]];
    forall k | 0 <= k <= |dirs| ensures Find(e, dirs[..k]) != Some(EMPTY) {
      if k > 0 {
        assert dirs[..k][0] == dirs[0] && dirs[..k][1..] == dirs[1..][..k - 1];
        if child.Dir? { StuckAboveNothingEmpty(child, dirs[1..], errno); }
      } else {
        assert dirs[..0] == [];
      }
    }
  }

  /** However deep the path, after the loop no directory above it is empty: in particular the deepest one that
      survives holds something, unless it is the root, which is never removed. */
  lemma {:induction false} NoEmptyParentIsLeft(e: Entry, path: Path, n: nat)
    requires n <= |path| && e.Dir?
    ensures var after := Pruned(e, path, n).0;
            && after.Dir?
            && forall k :: 0 < k <= n ==> Find(after, path[..k]) != Some(EMPTY)
    decreases n
  {
    PrunedKeeps(e, path, n);
    if n > 0 {
      match RemoveDir(e, path[..n])
      case None =>
        RemoveDirKeeps(e, path[..n]);
        var cut := Cut(e, path[..n]);
        FindCut(e, path[..n], path[..n]);
        NoEmptyParentIsLeft(cut, path, n - 1);
        StaysGone(cut, path, n - 1, path[..n]);
      case Some(errno) =>
        RemoveDirFails(e, path, n, errno);
        if errno == ENOENT {
          NoEmptyParentIsLeft(e, path, n - 1);
          StaysGone(e, path, n - 1, path[..n]);
        }
    }
  }

  lemma {:induction false} StaysGone(e: Entry, path: Path, n: nat, p: Path)
    requires n <= |path| && e.Dir? && Find(e, p).None?
    ensures Find(Pruned(e, path, n).0, p).None?
    decreases n
  {
    if n > 0 {
      match RemoveDir(e, path[..n])
      case None =>
        RemoveDirKeeps(e, path[..n]);
        FindCut(e, path[..n], p);
        StaysGone(Cut(e, path[..n]), path, n - 1, p);
      case Some(ENOENT) => StaysGone(e, path, n - 1, p);
      case _ =>
    }
  }
}
