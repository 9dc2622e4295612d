/** Git's NUL-separated `--name-status` and `--numstat` output, and the join of the two (`git-range-diff.ts`). */
module GitRecords {
  import opened Json
  import opened Text
  import opened GitPaths

  datatype ChangedPath = ChangedPath(path: string, previousPath: Option<string>, status: FileStatus)

  /** `Number(text)`: a decimal is read; any other text (absent included) is left unread. */
  datatype Number = Read(value: nat) | Unread(text: Option<string>)

  datatype Counts = Counts(additions: Option<Number>, deletions: Option<Number>, binary: bool)

  const BINARY := Counts(None, None, true)

  predicate IsNul(c: char) { c == '\0' }

  predicate IsTab(c: char) { c == '\t' }

  predicate IsRenameCode(token: string) { token != "" && (token[0] == 'R' || token[0] == 'C') }

  function StatusOf(token: string): FileStatus
    requires token != ""
  {
    if token[0] == 'R' || token[0] == 'C' then Renamed
    else if token[0] == 'A' then Added else if token[0] == 'D' then Deleted else Modified
  }

  /** The records in a field list, read up to the first empty token. */
  function ChangesFrom(fields: seq<string>): seq<ChangedPath> {
    if fields == [] || fields[0] == "" then []
    else if IsRenameCode(fields[0]) then
      if |fields| < 3 then [] else [ChangedPath(fields[2], Some(fields[1]), Renamed)] + ChangesFrom(fields[3..])
    else if |fields| < 2 then []
    else [ChangedPath(fields[1], None, StatusOf(fields[0]))] + ChangesFrom(fields[2..])
  }

  method ParseChangedPaths(output: string) returns (paths: seq<ChangedPath>)
    ensures paths == ChangesFrom(SplitWhere(output, IsNul))
  {
    var fields := SplitWhere(output, IsNul);
    paths := [];
    var index := 0;
    while index < |fields| && fields[index] != ""
      invariant 0 <= index
      invariant index > |fields| ==> paths == ChangesFrom(fields)
      invariant index <= |fields| ==> paths + ChangesFrom(fields[index..]) == ChangesFrom(fields)
      decreases |fields| - index
    {
      ghost var rest, before := fields[index..], paths;
      var token := fields[index];
      index := index + 1;
      if IsRenameCode(token) {
        var previousPath := if index < |fields| then Some(fields[index]) else None;
        index := index + 1;
        var path := if index < |fields| then Some(fields[index]) else None;
        index := index + 1;
        if previousPath.Some? && path.Some? {
          var changed := ChangedPath(path.value, previousPath, Renamed);
          paths := paths + [changed];
          assert rest[3..] == fields[index..];
          AppendFirst(before, changed, ChangesFrom(rest[3..]));
        }
        continue;
      }
      if index >= |fields| { break; }
      var changed := ChangedPath(fields[index], None, StatusOf(token));
      paths := paths + [changed];
      index := index + 1;
      assert rest[2..] == fields[index..];
      AppendFirst(before, changed, ChangesFrom(rest[2..]));
    }
  }

  lemma AppendFirst<T>(a: seq<T>, x: T, b: seq<T>)
    ensures a + ([x] + b) == (a + [x]) + b
  {}

  function NumberOf(text: Option<string>): Number {
    if text.Some? && AllDigits(text.value) then Read(DecimalValue(text.value)) else Unread(text)
  }

  function At(parts: seq<string>, i: nat): Option<string> { if i < |parts| then Some(parts[i]) else None }

  function CountsOf(columns: seq<string>): Counts {
    if At(columns, 0) == Some("-") || At(columns, 1) == Some("-") then BINARY
    else Counts(Some(NumberOf(At(columns, 0))), Some(NumberOf(At(columns, 1))), false)
  }

  /** The counts in a field list, later records overriding earlier ones of the same path. */
  function CountsFrom(fields: seq<string>, counts: map<string, Counts>): map<string, Counts> {
    if fields == [] || fields[0] == "" then counts
    else
      var columns := SplitWhere(fields[0], IsTab);
      if IsTruthy(At(columns, 2)) then CountsFrom(fields[1..], counts[columns[2] := CountsOf(columns)])
      else
        var path := Or(At(fields, 2), At(fields, 1));
        var next := if IsTruthy(path) then counts[path.value := CountsOf(columns)] else counts;
        if |fields| < 3 then next else CountsFrom(fields[3..], next)
  }

  method ParseCounts(output: string) returns (counts: map<string, Counts>)
    ensures counts == CountsFrom(SplitWhere(output, IsNul), map[])
  {
    var fields := SplitWhere(output, IsNul);
    counts := map[];
    var index := 0;
    while index < |fields| && fields[index] != ""
      invariant 0 <= index
      invariant (if index <= |fields| then CountsFrom(fields[index..], counts) else counts) == CountsFrom(fields, map[])
      decreases |fields| - index
    {
      ghost var rest := fields[index..];
      var columns := SplitWhere(fields[index], IsTab);
      index := index + 1;
      var path := At(columns, 2);
      if !IsTruthy(path) {
        var previousPath := if index < |fields| then Some(fields[index]) else None;
        index := index + 1;
        var renamedPath := if index < |fields| then Some(fields[index]) else None;
        index := index + 1;
        path := Or(renamedPath, previousPath);
        assert |rest| >= 3 ==> rest[3..] == fields[index..];
      } else {
        assert rest[1..] == fields[index..];
      }
      if !IsTruthy(path) { continue; }
      counts := counts[path.value := CountsOf(columns)];
    }
  }

  // ----- Git's printers -----

  /** What Git says happened to a file; any letter beyond its six common ones is `Otherwise`. */
  datatype Kind =
    | Addition
    | Deletion
    | Modification
    | TypeChange
    | Rename(from: string)
    | Copy(from: string)
    | Otherwise(letter: char)

  /** One changed file as Git knows it. `score` is the similarity Git may write after the letter; `lines` is `None`
      for a binary file. */
  datatype Change = Change(kind: Kind, score: string, path: string, lines: Option<(nat, nat)>)

  predicate IsPathName(s: string) {
    s != "" && forall i :: 0 <= i < |s| ==> s[i] != '\0'
  }

  /** The letter of `--name-status`. */
  function Letter(kind: Kind): char {
    match kind
    case Addition => 'A'
    case Deletion => 'D'
    case Modification => 'M'
    case TypeChange => 'T'
    case Rename(_) => 'R'
    case Copy(_) => 'C'
    case Otherwise(letter) => letter
  }

  function Previous(c: Change): Option<string> {
    if c.kind.Rename? || c.kind.Copy? then Some(c.kind.from) else None
  }

  /** No NUL in the status; paths non-empty and without NUL. */
  predicate WellFormed(c: Change) {
    && (c.kind.Otherwise? ==> c.kind.letter !in {'A', 'D', 'M', 'T', 'R', 'C', '\0'})
    && (forall i :: 0 <= i < |c.score| ==> c.score[i] != '\0')
    && IsPathName(c.path) && (Previous(c).Some? ==> IsPathName(Previous(c).value))
  }

  function StatusFields(c: Change): seq<string> {
    [[Letter(c.kind)] + c.score] + (if Previous(c).Some? then [Previous(c).value] else []) + [c.path]
  }

  function CountColumns(c: Change): string {
    if c.lines.None? then "-\t-\t" else Decimal(c.lines.value.0) + "\t" + Decimal(c.lines.value.1) + "\t"
  }

  function NumstatFields(c: Change): seq<string> {
    if Previous(c).Some? then [CountColumns(c), Previous(c).value, c.path] else [CountColumns(c) + c.path]
  }

  function AllFields(changes: seq<Change>, fields: Change -> seq<string>): seq<string> {
    if changes == [] then [] else fields(changes[0]) + AllFields(changes[1..], fields)
  }

  function PrintNameStatus(changes: seq<Change>): string { Terminated(AllFields(changes, StatusFields), '\0') }

  function PrintNumstat(changes: seq<Change>): string { Terminated(AllFields(changes, NumstatFields), '\0') }

  /** What the changed file is to be reported as, by what happened to it. */
  function AsChangedPath(c: Change): ChangedPath {
    match c.kind
    case Addition => ChangedPath(c.path, None, Added)
    case Deletion => ChangedPath(c.path, None, Deleted)
    case Modification => ChangedPath(c.path, None, Modified)
    case TypeChange => ChangedPath(c.path, None, Modified)
    case Rename(from) => ChangedPath(c.path, Some(from), Renamed)
    case Copy(from) => ChangedPath(c.path, Some(from), Renamed)
    case Otherwise(_) => ChangedPath(c.path, None, Modified)
  }

  function AsCounts(c: Change): Counts {
    if c.lines.None? then BINARY else Counts(Some(Read(c.lines.value.0)), Some(Read(c.lines.value.1)), false)
  }

  ghost predicate AllWellFormed(changes: seq<Change>) {
    forall i :: 0 <= i < |changes| ==> WellFormed(changes[i])
  }

  ghost predicate DistinctPaths(changes: seq<Change>) {
    forall i, j :: 0 <= i < j < |changes| ==> changes[i].path != changes[j].path
  }

  ghost predicate NulFree(fields: seq<string>) {
    forall i :: 0 <= i < |fields| ==> Without(fields[i], IsNul)
  }

  lemma ColumnsAreNulFree(c: Change)
    ensures Without(CountColumns(c), IsNul)
  {}

  lemma {:induction false} FieldsAreNulFree(changes: seq<Change>)
    requires AllWellFormed(changes)
    ensures NulFree(AllFields(changes, StatusFields)) && NulFree(AllFields(changes, NumstatFields))
  {
    if changes != [] {
      FieldsAreNulFree(changes[1..]);
      ColumnsAreNulFree(changes[0]);
      assert WellFormed(changes[0]);
      assert NulFree(StatusFields(changes[0])) && NulFree(NumstatFields(changes[0]));
    }
  }

  lemma FirstChange(c: Change, rest: seq<string>)
    requires WellFormed(c)
    ensures ChangesFrom(StatusFields(c) + rest) == [AsChangedPath(c)] + ChangesFrom(rest)
  {
    var fields := StatusFields(c) + rest;
    assert fields[|StatusFields(c)|..] == rest;
    assert fields[0] == [Letter(c.kind)] + c.score;
  }

  lemma {:induction false} ChangesOfFields(changes: seq<Change>)
    requires AllWellFormed(changes)
    ensures var parsed := ChangesFrom(AllFields(changes, StatusFields) + [""]);
            |parsed| == |changes| && forall i :: 0 <= i < |changes| ==> parsed[i] == AsChangedPath(changes[i])
  {
    if changes != [] {
      var c, rest := changes[0], AllFields(changes[1..], StatusFields) + [""];
      ChangesOfFields(changes[1..]);
      assert WellFormed(c);
      assert AllFields(changes, StatusFields) + [""] == StatusFields(c) + rest;
      FirstChange(c, rest);
    }
  }

  /** Parsing undoes printing: every record, three-field renames included, in order. */
  lemma NameStatusRoundTrip(changes: seq<Change>)
    requires AllWellFormed(changes)
    ensures var parsed := ChangesFrom(SplitWhere(PrintNameStatus(changes), IsNul));
            |parsed| == |changes| && forall i :: 0 <= i < |changes| ==> parsed[i] == AsChangedPath(changes[i])
  {
    FieldsAreNulFree(changes);
    SplitTerminated(AllFields(changes, StatusFields), '\0', IsNul);
    ChangesOfFields(changes);
  }

  function UpToTab(s: string): string { SplitWhere(s, IsTab)[0] }

  /** The columns of a record: two counts, then the path unless it is a rename, cut at each tab. */
  lemma ColumnsOf(c: Change, path: string)
    ensures var columns := SplitWhere(CountColumns(c) + path, IsTab);
            |columns| >= 3 && columns[2] == UpToTab(path) && CountsOf(columns) == AsCounts(c)
  {
    var a := if c.lines.None? then "-" else Decimal(c.lines.value.0);
    var d := if c.lines.None? then "-" else Decimal(c.lines.value.1);
    var text := a + ['\t'] + (d + ['\t'] + path);
    assert CountColumns(c) + path == text;
    SplitFirst(a, '\t', d + ['\t'] + path, IsTab);
    SplitFirst(d, '\t', path, IsTab);
    if c.lines.Some? {
      DecimalRoundTrip(c.lines.value.0);
      DecimalRoundTrip(c.lines.value.1);
    }
  }

  /** The path a numstat record is read under: only a rename has a field of its own for it. */
  function Key(c: Change): string { if Previous(c).Some? then c.path else UpToTab(c.path) }

  lemma {:induction false} UpToTabIs(s: string)
    ensures UpToTab(s) <= s && '\t' !in UpToTab(s)
    ensures UpToTab(s) == s <==> '\t' !in s
    ensures UpToTab(s) == "" <==> s == "" || s[0] == '\t'
  {
    if s != "" && s[0] != '\t' {
      var c, rest := s[0], s[1..];
      UpToTabIs(rest);
      assert UpToTab(s) == [c] + UpToTab(rest) && s == [c] + rest;
      PrependKeeps(c, rest, UpToTab(rest));
    }
  }

  lemma PrependKeeps(c: char, rest: string, head: string)
    requires c != '\t' && head <= rest && '\t' !in head && (head == rest <==> '\t' !in rest)
    ensures [c] + head <= [c] + rest && '\t' !in [c] + head
    ensures [c] + head == [c] + rest <==> '\t' !in [c] + rest
  {
    assert '\t' in [c] + rest <==> '\t' in rest;
    assert ([c] + head)[1..] == head && ([c] + rest)[1..] == rest;
  }

  /** The record is read as one: its path does not begin with a tab, or is a rename's. */
  ghost predicate AllKeyed(changes: seq<Change>) { forall i :: 0 <= i < |changes| ==> Key(changes[i]) != "" }

  function Tally(changes: seq<Change>, counts: map<string, Counts>): map<string, Counts> {
    if changes == [] then counts else Tally(changes[1..], counts[Key(changes[0]) := AsCounts(changes[0])])
  }

  lemma {:induction false} CountsOfFields(changes: seq<Change>, counts: map<string, Counts>)
    requires AllWellFormed(changes) && AllKeyed(changes)
    ensures CountsFrom(AllFields(changes, NumstatFields) + [""], counts) == Tally(changes, counts)
    decreases changes
  {
    if changes != [] {
      var c, rest := changes[0], AllFields(changes[1..], NumstatFields) + [""];
      var fields := AllFields(changes, NumstatFields) + [""];
      assert WellFormed(c) && Key(c) != "";
      assert fields == NumstatFields(c) + rest;
      assert fields[|NumstatFields(c)|..] == rest;
      if Previous(c).Some? {
        ColumnsOf(c, "");
        assert CountColumns(c) + "" == CountColumns(c);
      } else {
        ColumnsOf(c, c.path);
      }
      CountsOfFields(changes[1..], counts[Key(c) := AsCounts(c)]);
    }
  }

  predicate Names(changes: seq<Change>, path: string) {
    exists i :: 0 <= i < |changes| && Key(changes[i]) == path
  }

  lemma NamesFirst(changes: seq<Change>, path: string)
    requires changes != []
    ensures Names(changes, path) <==> Key(changes[0]) == path || Names(changes[1..], path)
  {
    if Names(changes[1..], path) {
      var i :| 0 <= i < |changes[1..]| && Key(changes[1..][i]) == path;
      assert Key(changes[i + 1]) == path;
    }
    if Names(changes, path) && Key(changes[0]) != path {
      var i :| 0 <= i < |changes| && Key(changes[i]) == path;
      assert changes[1..][i - 1] == changes[i];
    }
  }

  /** The tally holds the keys printed and those it began with, no others; a key not printed keeps its counts. */
  lemma {:induction false} TallyKeys(changes: seq<Change>, counts: map<string, Counts>, path: string)
    ensures path in Tally(changes, counts) <==> path in counts || Names(changes, path)
    ensures path in counts && !Names(changes, path) ==> Tally(changes, counts)[path] == counts[path]
    decreases changes
  {
    if changes != [] {
      NamesFirst(changes, path);
      TallyKeys(changes[1..], counts[Key(changes[0]) := AsCounts(changes[0])], path);
    }
  }

  ghost predicate DistinctKeys(changes: seq<Change>) {
    forall i, j :: 0 <= i < j < |changes| ==> Key(changes[i]) != Key(changes[j])
  }

  /** Each key has its own counts. */
  lemma {:induction false} TallyHas(changes: seq<Change>, counts: map<string, Counts>, i: nat)
    requires DistinctKeys(changes) && i < |changes|
    ensures var t := Tally(changes, counts); Key(changes[i]) in t && t[Key(changes[i])] == AsCounts(changes[i])
    decreases changes
  {
    var rest, first := changes[1..], counts[Key(changes[0]) := AsCounts(changes[0])];
    assert forall k :: 1 <= k < |changes| ==> changes[k] == rest[k - 1];
    if i == 0 {
      assert !Names(rest, Key(changes[0]));
      TallyKeys(rest, first, Key(changes[0]));
    } else {
      TallyHas(rest, first, i - 1);
    }
  }

  /** No path has a tab in it, unless it is a rename's. */
  ghost predicate AllUntabbed(changes: seq<Change>) { forall i :: 0 <= i < |changes| ==> !IsTabbed(changes[i]) }

  predicate IsTabbed(c: Change) { Previous(c).None? && '\t' in c.path }

  lemma UntabbedKeys(changes: seq<Change>)
    requires AllWellFormed(changes) && AllUntabbed(changes)
    ensures forall i :: 0 <= i < |changes| ==> Key(changes[i]) == changes[i].path
    ensures AllKeyed(changes) && (DistinctPaths(changes) ==> DistinctKeys(changes))
  {
    forall i | 0 <= i < |changes| ensures Key(changes[i]) == changes[i].path != "" {
      assert WellFormed(changes[i]) && !IsTabbed(changes[i]);
      UpToTabIs(changes[i].path);
    }
  }

  lemma ParsedCounts(changes: seq<Change>)
    requires AllWellFormed(changes) && AllKeyed(changes)
    ensures CountsFrom(SplitWhere(PrintNumstat(changes), IsNul), map[]) == Tally(changes, map[])
  {
    FieldsAreNulFree(changes);
    SplitTerminated(AllFields(changes, NumstatFields), '\0', IsNul);
    CountsOfFields(changes, map[]);
  }

  /** Parsing undoes printing: the map holds exactly the printed paths, each with its own counts. */
  lemma NumstatRoundTrip(changes: seq<Change>)
    requires AllWellFormed(changes) && DistinctPaths(changes) && AllUntabbed(changes)
    ensures var parsed := CountsFrom(SplitWhere(PrintNumstat(changes), IsNul), map[]);
            && (forall i :: 0 <= i < |changes| ==>
                  changes[i].path in parsed && parsed[changes[i].path] == AsCounts(changes[i]))
            && (forall p :: p in parsed ==> exists i :: 0 <= i < |changes| && changes[i].path == p)
  {
    UntabbedKeys(changes);
    ParsedCounts(changes);
    var parsed := Tally(changes, map[]);
    forall i | 0 <= i < |changes|
      ensures changes[i].path in parsed && parsed[changes[i].path] == AsCounts(changes[i])
    {
      TallyHas(changes, map[], i);
    }
    forall p | p in parsed ensures exists i :: 0 <= i < |changes| && changes[i].path == p {
      TallyKeys(changes, map[], p);
      var i :| 0 <= i < |changes| && Key(changes[i]) == p;
      assert changes[i].path == p;
    }
  }

  // ----- the join -----

  /** The counts of one changed path: its own, its previous path's, or binary. */
  function FileCounts(changed: ChangedPath, counts: map<string, Counts>): Counts {
    var previous := Or(changed.previousPath, Some("")).value;
    if changed.path in counts then counts[changed.path]
    else if previous in counts then counts[previous] else BINARY
  }

  lemma FindsItsOwn(c: Change, counts: map<string, Counts>)
    requires c.path in counts && counts[c.path] == AsCounts(c)
    ensures FileCounts(AsChangedPath(c), counts) == AsCounts(c)
  {
  }

  /** The two outputs Git prints for one range join without loss: every changed path finds its own counts, and
      only a binary file is called binary. */
  lemma JoinIsExact(changes: seq<Change>)
    requires AllWellFormed(changes) && DistinctPaths(changes) && AllUntabbed(changes)
    ensures var paths := ChangesFrom(SplitWhere(PrintNameStatus(changes), IsNul));
            var counts := CountsFrom(SplitWhere(PrintNumstat(changes), IsNul), map[]);
            && |paths| == |changes|
            && forall i :: 0 <= i < |changes| ==>
                 && paths[i] == AsChangedPath(changes[i])
                 && FileCounts(paths[i], counts) == AsCounts(changes[i])
                 && (FileCounts(paths[i], counts).binary <==> changes[i].lines.None?)
  {
    NameStatusRoundTrip(changes);
    NumstatRoundTrip(changes);
    var paths := ChangesFrom(SplitWhere(PrintNameStatus(changes), IsNul));
    var counts := CountsFrom(SplitWhere(PrintNumstat(changes), IsNul), map[]);
    forall i | 0 <= i < |changes|
      ensures paths[i] == AsChangedPath(changes[i]) && FileCounts(paths[i], counts) == AsCounts(changes[i])
    {
      FindsItsOwn(changes[i], counts);
    }
  }

  /** Where it falls short: a path with a tab in it, not a rename's, never finds its counts, and its file is called
      binary whatever it is. */
  lemma ATabbedPathIsCalledBinary(changes: seq<Change>, i: nat)
    requires AllWellFormed(changes) && DistinctPaths(changes) && AllKeyed(changes)
    requires i < |changes| && IsTabbed(changes[i])
    ensures var paths := ChangesFrom(SplitWhere(PrintNameStatus(changes), IsNul));
            var counts := CountsFrom(SplitWhere(PrintNumstat(changes), IsNul), map[]);
            && |paths| == |changes| && paths[i] == AsChangedPath(changes[i])
            && FileCounts(paths[i], counts) == BINARY
            && (FileCounts(paths[i], counts) == AsCounts(changes[i]) <==> changes[i].lines.None?)
  {
    NameStatusRoundTrip(changes);
    ParsedCounts(changes);
    var c := changes[i];
    assert WellFormed(c);
    TallyKeys(changes, map[], c.path);
    TallyKeys(changes, map[], "");
    if j :| 0 <= j < |changes| && Key(changes[j]) == c.path { KeyIsNotTabbed(changes, i, j); }
  }

  lemma KeyIsNotTabbed(changes: seq<Change>, i: nat, j: nat)
    requires DistinctPaths(changes) && i < |changes| && j < |changes| && IsTabbed(changes[i])
    ensures Key(changes[j]) != changes[i].path
  {
    UpToTabIs(changes[j].path);
    if Previous(changes[j]).Some? { assert i != j && changes[i].path != changes[j].path; }
  }

  /** A numstat listing that breaks off before the new name of its last rename has the counts under the former name,
      and the file still finds them there. */
  lemma ABrokenOffRenameKeepsItsCounts(c: Change, counts: map<string, Counts>)
    requires WellFormed(c) && Previous(c).Some? && c.path !in counts && c.path != c.kind.from
    ensures FileCounts(AsChangedPath(c), CountsFrom([CountColumns(c), c.kind.from], counts)) == AsCounts(c)
  {
    ColumnsOf(c, "");
    assert CountColumns(c) + "" == CountColumns(c);
    assert UpToTab("") == "";
  }
}
