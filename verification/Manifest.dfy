/** `manifestLeafPaths` of the rooted landing host: the sorted list of every non-directory at or below a path. */
module Manifest {
  import opened Json
  import opened FileTree
  import opened RootedHost
  import opened Text

  /** Every name in the tree is one a directory can hold. */
  predicate Named(e: Entry) {
    e.Dir? ==> forall name :: name in e.children ==> name != "" && '/' !in name && Named(e.children[name])
  }

  /** `joined_path`. */
  function Joined(prefix: string, name: Name): string { prefix + ['/'] + name }

  lemma JoinedComponents(prefix: string, name: Name)
    requires '/' !in name
    ensures Components(Joined(prefix, name)) == Components(prefix) + [name]
  {
    SplitAppend(prefix, '/', name, IsSlash);
    SplitNone(name, IsSlash);
  }

  /** A path string that names a leaf at or below `at`, seen from the entry `e` found there. */
  predicate NamesLeaf(e: Entry, at: Path, leaf: string) {
    at <= Components(leaf) && LeafAt(e, Components(leaf)[|at|..]).Some?
  }

  /** The leaf's next component after `at` is one of these. */
  predicate GoesThrough(at: Path, leaf: string, names: set<Name>) {
    |at| < |Components(leaf)| && Components(leaf)[|at|] in names
  }

  predicate Distinct(leaves: seq<string>) { forall i, j :: 0 <= i < j < |leaves| ==> leaves[i] != leaves[j] }

  /** Components determine the path. */
  lemma {:induction false} ComponentsDetermine(a: string, b: string)
    requires Components(a) == Components(b)
    ensures a == b
  {
    if a != "" { FirstComponent(a); }
    if b != "" { FirstComponent(b); }
    if a != "" && b != "" {
      assert Components(a[1..]) == Components(b[1..]);
      ComponentsDetermine(a[1..], b[1..]);
      assert a == [a[0]] + a[1..] && b == [b[0]] + b[1..];
    }
  }

  lemma FirstComponent(s: string)
    requires s != ""
    ensures var c, rest := Components(s), Components(s[1..]);
            if s[0] == '/' then c[0] == "" && rest == c[1..] && |c| > 1
            else c[0] != "" && c[0][0] == s[0] && rest == [c[0][1..]] + c[1..]
  {
  }

  lemma OneStep(e: Entry, at: Path, name: Name, prefix: string, leaf: string)
    requires e.Dir? && name in e.children && Named(e) && at == Components(prefix)
    requires GoesThrough(at, leaf, {name})
    ensures var child := Joined(prefix, name);
            && Components(child) == at + [name]
            && (e.children[name].Dir? ==>
                (NamesLeaf(e, at, leaf) <==> NamesLeaf(e.children[name], Components(child), leaf)))
            && (!e.children[name].Dir? ==> (NamesLeaf(e, at, leaf) <==> leaf == child))
  {
    var child, c := Joined(prefix, name), Components(leaf);
    JoinedComponents(prefix, name);
    if at <= c {
      var rest := c[|at| + 1..];
      assert c == at + [name] + rest && c[|at|..] == [name] + rest;
      assert ([name] + rest)[1..] == rest;
      assert LeafAt(e, c[|at|..]) == LeafAt(e.children[name], rest);
      if rest == [] && !e.children[name].Dir? { ComponentsDetermine(leaf, child); }
    }
  }

  lemma ChildGoesThrough(at: Path, name: Name, prefix: string, leaf: string)
    requires '/' !in name && at == Components(prefix)
    ensures Components(Joined(prefix, name)) <= Components(leaf) ==>
              at <= Components(leaf) && GoesThrough(at, leaf, {name})
  {
    JoinedComponents(prefix, name);
  }

  /** `collect_manifest_leaves`: whatever order the directory is read in, every leaf below it once. */
  method CollectLeaves(dir: Entry, prefix: string) returns (leaves: seq<string>)
    requires dir.Dir? && Named(dir)
    ensures Distinct(leaves)
    ensures forall leaf :: leaf in leaves <==> NamesLeaf(dir, Components(prefix), leaf)
    decreases dir
  {
    leaves := [];
    var names := dir.children.Keys;
    ghost var at, done := Components(prefix), {};
    while names != {}
      invariant names + done == dir.children.Keys && names !! done
      invariant Distinct(leaves)
      invariant forall leaf :: leaf in leaves <==> NamesLeaf(dir, at, leaf) && GoesThrough(at, leaf, done)
      decreases |names|
    {
      var name :| name in names;
      var child := Joined(prefix, name);
      var found := [child];
      if dir.children[name].Dir? { found := CollectLeaves(dir.children[name], child); }
      Visited(dir, at, name, prefix, done, leaves, found);
      leaves := leaves + found;
      names := names - {name};
      done := done + {name};
    }
    forall leaf | NamesLeaf(dir, at, leaf) ensures GoesThrough(at, leaf, done) {
      assert Components(leaf)[|at|..] != [];
    }
  }

  /** The leaves found under one more name join those found before. */
  lemma Visited(dir: Entry, at: Path, name: Name, prefix: string, done: set<Name>, leaves: seq<string>,
                found: seq<string>)
    requires dir.Dir? && Named(dir) && name in dir.children && name !in done && at == Components(prefix)
    requires Distinct(leaves) && Distinct(found)
    requires forall leaf :: leaf in leaves <==> NamesLeaf(dir, at, leaf) && GoesThrough(at, leaf, done)
    requires var child := Joined(prefix, name);
             if dir.children[name].Dir? then
               forall leaf :: leaf in found <==> NamesLeaf(dir.children[name], Components(child), leaf)
             else found == [child]
    ensures Distinct(leaves + found)
    ensures forall leaf :: leaf in leaves + found <==> NamesLeaf(dir, at, leaf) && GoesThrough(at, leaf, done + {name})
  {
    forall leaf ensures leaf in found <==> NamesLeaf(dir, at, leaf) && GoesThrough(at, leaf, {name}) {
      ChildGoesThrough(at, name, prefix, leaf);
      if GoesThrough(at, leaf, {name}) { OneStep(dir, at, name, prefix, leaf); }
      JoinedComponents(prefix, name);
    }
    var all := leaves + found;
    forall i, j | 0 <= i < j < |all| ensures all[i] != all[j] {
      if i < |leaves| <= j { assert all[i] in leaves && all[j] in found; }
    }
  }

  // ----- sorting -----

  predicate Sorted(leaves: seq<string>) { forall i, j :: 0 <= i < j < |leaves| ==> Less(leaves[i], leaves[j]) }

  /** Put one path where it belongs. */
  method Insert(sorted: seq<string>, leaf: string) returns (r: seq<string>)
    requires Sorted(sorted) && leaf !in sorted
    ensures Sorted(r) && forall s :: s in r <==> s == leaf || s in sorted
  {
    var k := 0;
    while k < |sorted| && Less(sorted[k], leaf)
      invariant k <= |sorted| && forall i :: 0 <= i < k ==> Less(sorted[i], leaf)
    {
      k := k + 1;
    }
    r := sorted[..k] + [leaf] + sorted[k..];
    forall i | k <= i < |sorted| ensures Less(leaf, sorted[i]) {
      LessIsTotal(leaf, sorted[k]);
      if i > k { LessIsTransitive(leaf, sorted[k], sorted[i]); }
    }
  }

  method Sort(leaves: seq<string>) returns (sorted: seq<string>)
    requires Distinct(leaves)
    ensures Sorted(sorted) && forall s :: s in sorted <==> s in leaves
  {
    sorted := [];
    for i := 0 to |leaves|
      invariant Sorted(sorted) && forall s :: s in sorted <==> s in leaves[..i]
    {
      sorted := Insert(sorted, leaves[i]);
      assert leaves[..i + 1] == leaves[..i] + [leaves[i]];
    }
    assert leaves[..|leaves|] == leaves;
  }

  datatype Listing = Leaves(paths: seq<string>) | Refused | Unreadable(errno: Errno)

  /** The listing is strictly sorted and holds exactly the leaves at or below the path; only a link on the way
      stops it. */
  method LeafPaths(root: Entry, path: string) returns (listing: Listing)
    requires root.Dir? && Named(root)
    ensures listing.Refused? <==> !Normal(path)
    ensures listing.Unreadable? <==> Normal(path) && OpenDir(root, Init(Components(path))) == Error(ELOOP)
    ensures listing.Leaves? ==>
              && Sorted(listing.paths)
              && forall s :: s in listing.paths <==>
                 Components(path) <= Components(s) && LeafAt(root, Components(s)).Some?
  {
    var ok := ValidateRelativePath(path);
    if !ok { return Refused; }
    var at := Components(path);
    var parent := OpenParent(root, at);
    OpenErrors(root, Init(at));
    OpenedParent(root, at);
    if parent.Error? {
      MissingParent(root, at);
      if parent.errno == ENOENT || parent.errno == ENOTDIR {
        NothingBelow(root, at);
        return Leaves([]);
      }
      return Unreadable(parent.errno);
    }
    if Last(at) !in parent.children {
      NothingBelow(root, at);
      return Leaves([]);
    }
    var entry := parent.children[Last(at)];
    LeavesBelow(root, at, entry);
    if entry.Dir? {
      NamedBelow(root, at);
      var found := CollectLeaves(entry, path);
      var sorted := Sort(found);
      return Leaves(sorted);
    }
    forall s | NamesLeaf(entry, at, s) ensures s == path { ComponentsDetermine(s, path); }
    return Leaves([path]);
  }

  lemma {:induction false} OpenErrors(e: Entry, dirs: Path)
    ensures OpenDir(e, dirs).Error? ==> OpenDir(e, dirs).errno in {ENOENT, ENOTDIR, ELOOP}
    decreases dirs
  {
    if dirs != [] && e.Dir? && dirs[0] in e.children { OpenErrors(e.children[dirs[0]], dirs[1..]); }
  }

  lemma MissingParent(e: Entry, path: Path)
    requires path != [] && OpenDir(e, Init(path)).Error?
    ensures Find(e, path).None?
  {
    OpenedParent(e, path);
    if Find(e, path).Some? { AboveIsDir(e, Init(path), path); }
  }

  lemma NothingBelow(root: Entry, at: Path)
    requires Find(root, at).None?
    ensures forall s :: at <= Components(s) ==> LeafAt(root, Components(s)).None?
  {
    forall s | at <= Components(s) ensures LeafAt(root, Components(s)).None? {
      var c := Components(s);
      assert c == at + c[|at|..];
      FindAppend(root, at, c[|at|..]);
    }
  }

  lemma LeavesBelow(root: Entry, at: Path, entry: Entry)
    requires Find(root, at) == Some(entry)
    ensures forall s :: NamesLeaf(entry, at, s) <==> at <= Components(s) && LeafAt(root, Components(s)).Some?
  {
    forall s ensures NamesLeaf(entry, at, s) <==> at <= Components(s) && LeafAt(root, Components(s)).Some? {
      var c := Components(s);
      if at <= c {
        assert c == at + c[|at|..];
        FindAppend(root, at, c[|at|..]);
      }
    }
  }

  lemma {:induction false} NamedBelow(e: Entry, path: Path)
    requires Named(e) && Find(e, path).Some?
    ensures Named(Find(e, path).value)
    decreases path
  {
    if path != [] { NamedBelow(e.children[path[0]], path[1..]); }
  }
}
