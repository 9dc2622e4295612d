/** When each of the rooted host's operations succeeds, why it fails and what it leaves, told by what is found in the
    tree. */
module RootedLaws {
  import opened Json
  import opened FileTree
  import opened Text
  import opened RootedHost
  import opened RootedSafety

  /** A path is accepted exactly if nowhere in it two slashes, or a slash and an end, have nothing, one dot or two
      dots between them, and no backslash occurs: it never leaves the root it is resolved from. */
  lemma NormalMeans(path: string)
    ensures Normal(path) <==>
              '\\' !in path && !HasPiece(path, IsSlash, 0, "") && !HasPiece(path, IsSlash, 0, ".")
              && !HasPiece(path, IsSlash, 0, "..")
  {
    SplitMeans(path, IsSlash, "");
    SplitMeans(path, IsSlash, ".");
    SplitMeans(path, IsSlash, "..");
    assert AllProper(Components(path)) <==> forall name :: name in Components(path) ==> Proper(name);
  }

  /** Walking `dirs`, the `n`-th prefix is the first that is no directory, and this is the error it gives. */
  predicate IsObstacle(e: Entry, dirs: Path, n: nat, errno: Errno) {
    && n <= |dirs|
    && (forall k :: 0 <= k < n ==> IsDir(e, dirs[..k]))
    && !IsDir(e, dirs[..n])
    && match Find(e, dirs[..n])
       case None => errno == ENOENT
       case Some(Link(_)) => errno == ELOOP
       case Some(_) => errno == ENOTDIR
  }

  lemma ObstacleBelow(e: Entry, dirs: Path, n: nat, errno: Errno)
    requires e.Dir? && dirs != [] && dirs[0] in e.children && n < |dirs|
    ensures IsObstacle(e, dirs, n + 1, errno) <==> IsObstacle(e.children[dirs[0]], dirs[1..], n, errno)
  {
    var child, rest := e.children[dirs[0]], dirs[1..];
    forall k: nat | k <= |rest| ensures Find(e, dirs[..k + 1]) == Find(child, rest[..k]) {
      assert dirs[..k + 1][0] == dirs[0] && dirs[..k + 1][1..] == rest[..k];
    }
    assert Find(e, dirs[..0]) == Some(e);
    if IsObstacle(e, dirs, n + 1, errno) {
      forall k | 0 <= k < n ensures IsDir(child, rest[..k]) { assert IsDir(e, dirs[..k + 1]); }
    }
    if IsObstacle(child, rest, n, errno) {
      forall k | 0 <= k < n + 1 ensures IsDir(e, dirs[..k]) { if k > 0 { assert IsDir(child, rest[..k - 1]); } }
    }
  }

  /** Opening the directories of a path fails exactly at its first obstacle, with that obstacle's error. */
  lemma {:induction false} OpenFailsIff(e: Entry, dirs: Path, errno: Errno)
    ensures OpenDir(e, dirs) == Error(errno) <==> exists n: nat :: IsObstacle(e, dirs, n, errno)
    decreases dirs
  {
    assert Find(e, dirs[..0]) == Some(e);
    if !e.Dir? {
      assert IsObstacle(e, dirs, 0, if e.Link? then ELOOP else ENOTDIR);
    } else if dirs != [] {
      assert dirs[..1] == [dirs[0]] && IsDir(e, dirs[..0]);
      if dirs[0] !in e.children {
        assert IsObstacle(e, dirs, 1, ENOENT);
      } else {
        OpenFailsIff(e.children[dirs[0]], dirs[1..], errno);
        forall n: nat | n < |dirs| { ObstacleBelow(e, dirs, n, errno); }
        if n: nat :| IsObstacle(e, dirs, n, errno) {
          assert n > 0;
          assert IsObstacle(e.children[dirs[0]], dirs[1..], n - 1, errno);
        }
        if n: nat :| IsObstacle(e.children[dirs[0]], dirs[1..], n, errno) {
          assert IsObstacle(e, dirs, n + 1, errno);
        }
      }
    }
  }

  ghost predicate Blocks(e: Entry, path: Path, errno: Errno)
    requires path != []
  {
    exists n: nat :: IsObstacle(e, Init(path), n, errno)
  }

  /** Away from `path` everything is as it was; the directories above it are still directories. */
  ghost predicate SameElsewhere(e: Entry, after: Entry, path: Path) {
    && (forall q :: !Under(path, q) && !(q < path) ==> Find(after, q) == Find(e, q))
    && (forall q :: q < path ==> IsDir(e, q) && IsDir(after, q))
  }

  lemma PutLeaves(e: Entry, path: Path, entry: Entry)
    requires HasParent(e, path)
    ensures SameElsewhere(e, Put(e, path, entry), path) && Find(Put(e, path, entry), path) == Some(entry)
  {
    forall q
      ensures !Under(path, q) && !(q < path) ==> Find(Put(e, path, entry), q) == Find(e, q)
      ensures q < path ==> IsDir(e, q) && IsDir(Put(e, path, entry), q)
    {
      FindPut(e, path, entry, q);
    }
    FindPut(e, path, entry, path);
    assert path[|path|..] == [];
  }

  lemma CutLeaves(e: Entry, path: Path)
    requires path != [] && Find(e, path).Some?
    ensures SameElsewhere(e, Cut(e, path), path) && forall q :: Under(path, q) ==> Find(Cut(e, path), q).None?
  {
    forall q
      ensures !Under(path, q) && !(q < path) ==> Find(Cut(e, path), q) == Find(e, q)
      ensures q < path ==> IsDir(e, q) && IsDir(Cut(e, path), q)
      ensures Under(path, q) ==> Find(Cut(e, path), q).None?
    {
      FindCut(e, path, q);
    }
  }

  lemma FoundHasParent(e: Entry, path: Path)
    requires path != [] && Find(e, path).Some?
    ensures HasParent(e, path)
  {
    AboveIsDir(e, Init(path), path);
  }

  /** A materialization succeeds exactly when both parents are directories, the worker's leaf is of the kind asked
      for, nothing is at the destination and the copy completes; then a copy of the worker's leaf is there, and
      otherwise nothing changed. */
  lemma MaterializesIff(source: Entry, worker: Entry, from: Path, to: Path, mode: Mode, copies: bool)
    requires from != [] && to != []
    ensures var (after, result) := Apply(Materialize(from, to, mode, copies), source, worker);
            && (result.Done? <==> HasParent(worker, from) && CanBeCopied(Find(worker, from), mode)
                                  && HasParent(source, to) && Find(source, to).None? && (copies || mode.Symlink?))
            && (result.Done? ==>
                  && Find(after, to).Some? && IsCopyOf(Find(after, to).value, Find(worker, from), mode)
                  && SameElsewhere(source, after, to))
            && (!result.Done? ==> after == source)
  {
    OpenedParent(worker, from);
    OpenedParent(source, to);
    CaptureIsCopy(worker, from, mode);
    var copy := Capture(worker, from, mode);
    if HasParent(source, to) && copy.Copied? { PutLeaves(source, to, copy.entry); }
  }

  /** A move succeeds exactly when something is there to be moved, the destination's parent is a directory, nothing
      is at the destination and it is not inside what is moved; then everything at or below the source is found at
      or below the destination and no longer at the source. */
  lemma MovesIff(source: Entry, worker: Entry, from: Path, to: Path)
    requires from != [] && to != []
    ensures var (after, result) := Apply(Move(from, to), source, worker);
            && (result.Done? <==> Find(source, from).Some? && HasParent(source, to) && Find(source, to).None?
                                  && !Under(from, to))
            && (result.Done? ==>
                  && (forall rest :: Find(after, to + rest) == Find(source, from + rest))
                  && Find(after, from).None?
                  && (forall q :: !Under(from, q) && !Under(to, q) && !(q < from) && !(q < to) ==>
                        Find(after, q) == Find(source, q))
                  && (forall q :: q < from || q < to ==> IsDir(source, q) && IsDir(after, q)))
            && (!result.Done? ==> after == source)
  {
    OpenedParent(source, from);
    OpenedParent(source, to);
    if Find(source, from).Some? { FoundHasParent(source, from); }
    if Moved(source, from, to).1.Done? { MovedLeaves(source, from, to); }
  }

  lemma MovedLeaves(e: Entry, from: Path, to: Path)
    requires from != [] && to != [] && Moved(e, from, to).1.Done?
    ensures var after := Moved(e, from, to).0;
            && (forall rest :: Find(after, to + rest) == Find(e, from + rest))
            && Find(after, from).None?
            && (forall q :: !Under(from, q) && !Under(to, q) && !(q < from) && !(q < to) ==>
                  Find(after, q) == Find(e, q))
            && (forall q :: q < from || q < to ==> IsDir(e, q) && IsDir(after, q))
  {
    OpenedParent(e, from);
    OpenedParent(e, to);
    MoveShape(e, from, to);
    var cut, moved := Cut(e, from), Find(e, from).value;
    CutLeaves(e, from);
    FindCut(e, from, Init(to));
    assert HasParent(cut, to);
    PutLeaves(cut, to, moved);
    var after := Put(cut, to, moved);
    forall rest ensures Find(after, to + rest) == Find(e, from + rest) {
      FindAppend(after, to, rest);
      FindAppend(e, from, rest);
    }
    if to < from { AboveIsDir(e, to, from); }
    assert Find(after, from) == Find(cut, from);
    forall q | q < from || q < to ensures IsDir(e, q) && IsDir(after, q) {
      if q < to {
        assert !Under(from, q);
        assert IsDir(cut, q);
      } else {
        assert !Under(to, q);
        assert IsDir(cut, q) && Find(after, q) == Find(cut, q);
      }
    }
  }

  lemma {:induction false} OpenErrors(e: Entry, dirs: Path)
    ensures OpenDir(e, dirs).Error? ==> OpenDir(e, dirs).errno in {ENOENT, ELOOP, ENOTDIR}
    decreases dirs
  {
    if e.Dir? && dirs != [] && dirs[0] in e.children { OpenErrors(e.children[dirs[0]], dirs[1..]); }
  }

  /** The parent of a path is opened, or what blocks it is the error. */
  lemma ParentOpensIff(e: Entry, path: Path)
    requires path != []
    ensures var found := OpenDir(e, Init(path));
            && (found.Error? ==> found.errno in {ENOENT, ELOOP, ENOTDIR} && Find(e, path).None?)
            && (found.Opened? <==> HasParent(e, path))
            && (found.Opened? ==> Find(e, path) == if Last(path) in found.children
                                                   then Some(found.children[Last(path)]) else None)
    ensures forall errno :: OpenDir(e, Init(path)) == Error(errno) <==> Blocks(e, path, errno)
  {
    OpenedParent(e, path);
    OpenErrors(e, Init(path));
    if Find(e, path).Some? { FoundHasParent(e, path); }
    forall errno ensures OpenDir(e, Init(path)) == Error(errno) <==> Blocks(e, path, errno) {
      OpenFailsIff(e, Init(path), errno);
    }
  }

  /** A removal fails only if a link is in the way or a directory still holds something; after it nothing is found at
      the path, and everything else still is. */
  lemma RemovesIff(source: Entry, worker: Entry, path: Path, recursive: bool)
    requires path != []
    ensures var (after, result) := Apply(Remove(path, recursive), source, worker);
            && (result == Failed(ENOTEMPTY) <==>
                  !recursive && IsDir(source, path) && Find(source, path) != Some(EMPTY))
            && (result == Failed(ELOOP) <==> Blocks(source, path, ELOOP))
            && (result.Done? || result in {Failed(ENOTEMPTY), Failed(ELOOP)})
            && (result.Done? ==> Find(after, path).None?)
            && (result.Done? && Find(source, path).Some? ==> SameElsewhere(source, after, path))
            && (!result.Done? || Find(source, path).None? ==> after == source)
  {
    ParentOpensIff(source, path);
    if Find(source, path).Some? { CutLeaves(source, path); }
  }

  /** A directory is removed exactly when it is there and empty; the error says whether it was missing, no directory
      or not empty, or what was in the way. */
  lemma RemovesDirectoryIff(source: Entry, worker: Entry, path: Path)
    requires path != []
    ensures var (after, result) := Apply(RemoveEmptyDirectory(path), source, worker);
            && (result.Done? <==> Find(source, path) == Some(EMPTY))
            && (result.Done? ==> Find(after, path).None? && SameElsewhere(source, after, path))
            && (!result.Done? ==> after == source && result.Failed?)
            && (result == Failed(ENOTEMPTY) <==> IsDir(source, path) && Find(source, path) != Some(EMPTY))
            && (result == Failed(ELOOP) <==> Blocks(source, path, ELOOP))
            && (result == Failed(ENOTDIR) <==>
                  Blocks(source, path, ENOTDIR) || (Find(source, path).Some? && !IsDir(source, path)))
            && (result == Failed(ENOENT) <==>
                  Blocks(source, path, ENOENT) || (HasParent(source, path) && Find(source, path).None?))
  {
    ParentOpensIff(source, path);
    if Find(source, path).Some? { CutLeaves(source, path); }
  }

  /** Nothing but a directory is on the way to `path`. */
  ghost predicate WayIsClear(e: Entry, path: Path) {
    forall k :: 0 <= k < |path| && Find(e, path[..k]).Some? ==> IsDir(e, path[..k])
  }

  lemma ClearIffNotBlocked(e: Entry, path: Path)
    requires path != [] && e.Dir?
    ensures WayIsClear(e, path) <==> Blocked(e, Init(path)).None?
    ensures forall errno :: Blocked(e, Init(path)) == Some(errno) <==> errno != ENOENT && Blocks(e, path, errno)
  {
    var dirs := Init(path);
    assert forall k :: 0 <= k < |path| ==> path[..k] == dirs[..k];
    ParentOpensIff(e, path);
    if Blocked(e, dirs).None? {
      forall k | 0 <= k < |path| && Find(e, path[..k]).Some? ensures IsDir(e, path[..k]) {
        NotBlockedIsDir(e, dirs, k);
      }
    } else {
      var errno := Blocked(e, dirs).value;
      var n: nat :| IsObstacle(e, dirs, n, errno);
      assert !IsDir(e, path[..n]);
    }
  }

  lemma EnsuredWay(e: Entry, path: Path)
    requires path != [] && e.Dir? && Blocked(e, Init(path)).None?
    ensures forall k :: 0 <= k < |path| ==> IsDir(Ensured(e, Init(path), |path| - 1), path[..k])
  {
    var dirs := Init(path);
    EnsuredKeeps(e, dirs, |dirs|);
    var after := Ensured(e, dirs, |dirs|);
    assert dirs[..|dirs|] == dirs;
    forall k | 0 <= k < |path| ensures IsDir(after, path[..k]) {
      assert path[..k] == dirs[..k];
      if k < |dirs| { AboveIsDir(after, dirs[..k], dirs); }
    }
  }

  /** Ensuring a parent succeeds exactly when nothing but a directory is on the way; then all the directories are
      there, and otherwise nothing changed and the error is that of what is in the way. */
  lemma EnsuresIff(source: Entry, worker: Entry, path: Path)
    requires path != [] && source.Dir?
    ensures var (after, result) := Apply(EnsureParent(path), source, worker);
            && (result.Done? <==> WayIsClear(source, path))
            && (forall errno :: result == Failed(errno) <==> errno != ENOENT && Blocks(source, path, errno))
            && (result.Done? ==> forall k :: 0 <= k < |path| ==> IsDir(after, path[..k]))
            && (!result.Done? ==> after == source)
  {
    ClearIffNotBlocked(source, path);
    if Blocked(source, Init(path)).None? { EnsuredWay(source, path); }
  }

  // ----- removing empty parents -----

  /** At or below `path[..k]` there are only directories of the path itself. */
  ghost predicate Hollow(e: Entry, path: Path, k: nat, n: nat)
    requires k <= n <= |path|
  {
    forall q :: Under(path[..k], q) && Find(e, q).Some? ==> q <= path[..n] && IsDir(e, q)
  }

  /** Only directories of the path with nothing else below them are removed, and nothing is added. */
  lemma {:induction false} PrunesOnlyTheHollow(e: Entry, path: Path, n: nat, q: Path)
    requires n <= |path| && e.Dir?
    ensures var after := Pruned(e, path, n).0;
            && (Find(after, q).Some? ==> Find(e, q).Some? && (IsDir(after, q) <==> IsDir(e, q)))
            && (Find(after, q).None? && Find(e, q).Some? ==>
                  exists k :: 0 < k <= n && q == path[..k] && Hollow(e, path, k, n))
    decreases n
  {
    if n > 0 {
      match RemoveDir(e, path[..n])
      case None =>
        var p := path[..n];
        var cut := Cut(e, p);
        RemoveDirKeeps(e, p);
        CutLeaves(e, p);
        PrunesOnlyTheHollow(cut, path, n - 1, q);
        if Find(cut, q).None? && Find(e, q).Some? {
          EmptyIsHollow(e, path, n);
          GoneWasUnder(e, p, q);
          assert q == path[..n] && Hollow(e, path, n, n);
        } else if Find(Pruned(e, path, n).0, q).None? && Find(e, q).Some? {
          var k :| 0 < k <= n - 1 && q == path[..k] && Hollow(cut, path, k, n - 1);
          HollowBeforeCut(e, path, k, n);
        }
      case Some(ENOENT) =>
        PrunesOnlyTheHollow(e, path, n - 1, q);
        if Find(Pruned(e, path, n).0, q).None? && Find(e, q).Some? {
          var k :| 0 < k <= n - 1 && q == path[..k] && Hollow(e, path, k, n - 1);
          assert path[..n - 1] <= path[..n];
          assert Hollow(e, path, k, n);
        }
      case _ =>
    }
  }

  lemma GoneWasUnder(e: Entry, p: Path, q: Path)
    requires p != [] && Find(e, p).Some? && Find(e, q).Some? && Find(Cut(e, p), q).None?
    ensures Under(p, q)
  {
    FindCut(e, p, q);
  }

  lemma EmptyIsHollow(e: Entry, path: Path, n: nat)
    requires n <= |path| && Find(e, path[..n]) == Some(EMPTY)
    ensures Hollow(e, path, n, n)
    ensures forall q :: Under(path[..n], q) && Find(e, q).Some? ==> q == path[..n]
  {
    forall q | Under(path[..n], q) && Find(e, q).Some? ensures q == path[..n] {
      assert q == path[..n] + q[n..];
      FindAppend(e, path[..n], q[n..]);
    }
  }

  lemma HollowBeforeCut(e: Entry, path: Path, k: nat, n: nat)
    requires 0 < k < n <= |path| && Find(e, path[..n]) == Some(EMPTY)
    requires Hollow(Cut(e, path[..n]), path, k, n - 1)
    ensures Hollow(e, path, k, n)
  {
    var cut := Cut(e, path[..n]);
    CutLeaves(e, path[..n]);
    EmptyIsHollow(e, path, n);
    forall q | Under(path[..k], q) && Find(e, q).Some? ensures q <= path[..n] && IsDir(e, q) {
      var found := Find(cut, q);
    }
  }

  lemma BlockedLonger(e: Entry, path: Path, n: nat, errno: Errno)
    requires 1 < n <= |path| && Blocks(e, path[..n - 1], errno)
    ensures Blocks(e, path[..n], errno)
  {
    var shorter, longer := Init(path[..n - 1]), Init(path[..n]);
    var m: nat :| IsObstacle(e, shorter, m, errno);
    assert forall k :: 0 <= k <= m ==> shorter[..k] == longer[..k];
    assert IsObstacle(e, longer, m, errno);
  }

  /** The parent of a path whose own parent is a directory is blocked by nothing. */
  lemma ShorterIsOpen(e: Entry, path: Path, n: nat)
    requires 1 < n <= |path| && HasParent(e, path[..n])
    ensures !Blocks(e, path[..n - 1], ELOOP)
  {
    assert Init(path[..n]) == path[..n - 1];
    ParentOpensIff(e, path[..n - 1]);
    if Find(e, path[..n - 1]).Some? { FoundHasParent(e, path[..n - 1]); }
  }

  /** Removing empty parents fails exactly when a link is on the way to the deepest of them. */
  lemma {:induction false} PruningFailsIff(e: Entry, path: Path, n: nat)
    requires n <= |path| && e.Dir?
    ensures var result := Pruned(e, path, n).1;
            && (result == Failed(ELOOP) <==> n > 0 && Blocks(e, path[..n], ELOOP))
            && (result.Done? || result == Failed(ELOOP))
    decreases n
  {
    if n > 0 {
      var p := path[..n];
      ParentOpensIff(e, p);
      match RemoveDir(e, p)
      case None =>
        RemoveDirKeeps(e, p);
        PruningFailsIff(Cut(e, p), path, n - 1);
        CutLeaves(e, p);
        if n > 1 { ShorterIsOpen(Cut(e, p), path, n); }
      case Some(ENOENT) =>
        PruningFailsIff(e, path, n - 1);
        if n > 1 {
          if HasParent(e, p) { ShorterIsOpen(e, path, n); }
          if Blocks(e, path[..n - 1], ELOOP) { BlockedLonger(e, path, n, ELOOP); }
        }
      case _ =>
    }
  }
}
