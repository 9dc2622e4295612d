/** The unified-diff parser of `git-range-diff.ts`. */
module UnifiedDiff {
  import opened Json
  import opened Text
  import opened GitPaths

  datatype PatchFile = PatchFile(path: string, previousPath: Option<string>, status: FileStatus,
                                 additions: Option<nat>, deletions: Option<nat>, binary: bool, patch: string)

  /** The parameters of a parse: UTF-8 decoding, and the truncation to the visible limit. */
  datatype Env = Env(utf8: seq<Byte> -> string, visible: string -> string)

  // ----- blocks -----

  /** Where a multi-line `^` may follow. */
  predicate IsLineEnd(c: char) { c == '\n' || c == '\r' || c as int == 0x2028 || c as int == 0x2029 }

  const GIT_HEADER := "diff --git "

  /** Split before every line that starts a block. */
  function SplitBlocks(s: string): (parts: seq<string>)
    ensures parts != []
  {
    if s == "" then [""]
    else
      var rest := SplitBlocks(s[1..]);
      if IsLineEnd(s[0]) && GIT_HEADER <= s[1..] then [[s[0]]] + rest else [[s[0]] + rest[0]] + rest[1..]
  }

  function IsBlock(part: string): bool { "diff --git" <= part }

  function Blocks(parts: seq<string>): seq<string> {
    if parts == [] then []
    else (if IsBlock(parts[0]) then [parts[0]] else []) + Blocks(parts[1..])
  }

  // ----- one block -----

  datatype Scan = Scan(status: FileStatus, previousPath: Option<string>, path: Option<string>,
                       additions: nat, deletions: nat, inHunk: bool)

  const FRESH_SCAN := Scan(Modified, None, None, 0, 0, false)

  predicate IsHunkHeader(line: string) { "@@" <= line }

  /** A preamble line. */
  function ScanPreamble(s: Scan, line: string, env: Env): Scan {
    if "new file mode" <= line then s.(status := Added)
    else if "deleted file mode" <= line then s.(status := Deleted)
    else if "rename from " <= line then
      s.(status := Renamed, previousPath := Some(Unprefix(line[|"rename from "|..], env.utf8)))
    else if "rename to " <= line then s.(path := Some(Unprefix(line[|"rename to "|..], env.utf8)))
    else if "--- " <= line && !("--- /dev/null" <= line) then
      s.(previousPath := Or(s.previousPath, Some(Unprefix(line[4..], env.utf8))))
    else if "+++ " <= line && !("+++ /dev/null" <= line) then s.(path := Some(Unprefix(line[4..], env.utf8)))
    else s
  }

  /** A hunk line, judged by its first character alone. */
  function ScanHunk(s: Scan, line: string): Scan {
    if "+" <= line then s.(additions := s.additions + 1)
    else if "-" <= line then s.(deletions := s.deletions + 1)
    else s
  }

  function ScanLine(s: Scan, line: string, env: Env): Scan {
    if IsHunkHeader(line) then s.(inHunk := true)
    else if !s.inHunk then ScanPreamble(s, line, env)
    else ScanHunk(s, line)
  }

  function ScanLines(s: Scan, lines: seq<string>, env: Env): Scan
    decreases lines
  {
    if lines == [] then s else ScanLines(ScanLine(s, lines[0], env), lines[1..], env)
  }

  predicate IsNewline(c: char) { c == '\n' }

  /** The last space of `s[..n]` with a character on either side: the greedy split of a header. */
  function SplitSpace(s: string, n: nat): (at: Option<nat>)
    requires n <= |s|
    ensures at.Some? ==> 1 <= at.value < |s| - 1
  {
    if n < 2 then None
    else if n < |s| && s[n - 1] == ' ' then Some(n - 1)
    else SplitSpace(s, n - 1)
  }

  /** The two paths of a `diff --git` line. */
  function HeaderPaths(line: string): Option<(string, string)> {
    if GIT_HEADER <= line && forall i :: 0 <= i < |line| ==> !IsLineEnd(line[i]) then
      var rest := line[|GIT_HEADER|..];
      var at := SplitSpace(rest, |rest|);
      if at.Some? then Some((rest[..at.value], rest[at.value + 1..])) else None
    else None
  }

  /** Fall back to the header when no line named a destination. */
  function WithHeader(s: Scan, line: string, env: Env): Scan {
    var header := HeaderPaths(line);
    if IsTruthy(s.path) || header.None? then s
    else s.(previousPath := Or(s.previousPath, Some(Unprefix(header.value.0, env.utf8))),
            path := Some(Unprefix(header.value.1, env.utf8)))
  }

  predicate IsBinaryLine(line: string) {
    || ("Binary files " <= line && |line| > |"Binary files "| + |" differ"| &&
        line[|line| - |" differ"|..] == " differ")
    || line == "GIT binary patch"
  }

  predicate IsBinary(block: string) {
    exists i :: 0 <= i < |SplitWhere(block, IsLineEnd)| && IsBinaryLine(SplitWhere(block, IsLineEnd)[i])
  }

  function ScanBlock(block: string, env: Env): Scan {
    var lines := SplitWhere(block, IsNewline);
    WithHeader(ScanLines(FRESH_SCAN, lines, env), lines[0], env)
  }

  method ParseBlock(block: string, env: Env) returns (s: Scan)
    ensures s == ScanBlock(block, env)
  {
    var lines := SplitWhere(block, IsNewline);
    var status, previousPath, path, additions, deletions, inHunk := Modified, None, None, 0, 0, false;
    for i := 0 to |lines|
      invariant ScanLines(FRESH_SCAN, lines, env) ==
                ScanLines(Scan(status, previousPath, path, additions, deletions, inHunk), lines[i..], env)
    {
      var line := lines[i];
      assert lines[i..][1..] == lines[i + 1..];
      if IsHunkHeader(line) {
        inHunk := true;
        continue;
      }
      if !inHunk {
        if "new file mode" <= line { status := Added; }
        else if "deleted file mode" <= line { status := Deleted; }
        else if "rename from " <= line {
          status := Renamed;
          previousPath := Some(Unprefix(line[|"rename from "|..], env.utf8));
        }
        else if "rename to " <= line { path := Some(Unprefix(line[|"rename to "|..], env.utf8)); }
        else if "--- " <= line && !("--- /dev/null" <= line) {
          previousPath := Or(previousPath, Some(Unprefix(line[4..], env.utf8)));
        }
        else if "+++ " <= line && !("+++ /dev/null" <= line) { path := Some(Unprefix(line[4..], env.utf8)); }
      } else if "+" <= line { additions := additions + 1; }
      else if "-" <= line { deletions := deletions + 1; }
    }
    s := WithHeader(Scan(status, previousPath, path, additions, deletions, inHunk), lines[0], env);
  }

  // ----- accumulation per path -----

  datatype Entry = Entry(status: FileStatus, previousPath: Option<string>, additions: nat, deletions: nat,
                         binary: bool, rawParts: seq<string>)

  /** Coalesce a block into its path's entry: two blocks of one path are one modified file. */
  function Coalesce(byPath: map<string, Entry>, s: Scan, block: string): map<string, Entry> {
    if !IsTruthy(s.path) then byPath
    else if s.path.value !in byPath then
      byPath[s.path.value := Entry(s.status, s.previousPath, s.additions, s.deletions, IsBinary(block), [block])]
    else
      var e := byPath[s.path.value];
      byPath[s.path.value := Entry(Modified, Or(e.previousPath, s.previousPath), e.additions + s.additions,
                                   e.deletions + s.deletions, e.binary || IsBinary(block), e.rawParts + [block])]
  }

  function CoalesceAll(byPath: map<string, Entry>, blocks: seq<string>, env: Env): map<string, Entry>
    decreases blocks
  {
    if blocks == [] then byPath
    else CoalesceAll(Coalesce(byPath, ScanBlock(blocks[0], env), blocks[0]), blocks[1..], env)
  }

  function JoinParts(parts: seq<string>): string
    requires parts != []
  {
    if |parts| == 1 then parts[0] else parts[0] + "\n" + JoinParts(parts[1..])
  }

  function FileOf(path: string, e: Entry, env: Env): PatchFile {
    PatchFile(path,
              if e.status == Renamed && IsTruthy(e.previousPath) then e.previousPath else None,
              e.status,
              if e.binary then None else Some(e.additions),
              if e.binary then None else Some(e.deletions),
              e.binary,
              env.visible(if e.rawParts == [] then "" else JoinParts(e.rawParts)))
  }

  ghost predicate SortedByPath(files: seq<PatchFile>) {
    forall i, j :: 0 <= i < j < |files| ==> Less(files[i].path, files[j].path)
  }

  /** The files of a path map, in strictly increasing path order. */
  ghost predicate IsFileList(files: seq<PatchFile>, byPath: map<string, Entry>, env: Env) {
    && SortedByPath(files)
    && (forall i :: 0 <= i < |files| ==>
        files[i].path in byPath && files[i] == FileOf(files[i].path, byPath[files[i].path], env))
    && (forall p :: p in byPath ==> HasPath(files, p))
  }

  ghost predicate HasPath(files: seq<PatchFile>, path: string) {
    exists i :: 0 <= i < |files| && files[i].path == path
  }

  /** Where `path` goes in a sorted list that lacks it. */
  method InsertSorted(files: seq<PatchFile>, file: PatchFile) returns (out: seq<PatchFile>)
    requires SortedByPath(files) && forall i :: 0 <= i < |files| ==> files[i].path != file.path
    ensures SortedByPath(out)
    ensures exists k :: 0 <= k <= |files| && out == files[..k] + [file] + files[k..]
  {
    var k := 0;
    while k < |files| && Less(files[k].path, file.path)
      invariant 0 <= k <= |files|
      invariant forall i :: 0 <= i < k ==> Less(files[i].path, file.path)
    {
      k := k + 1;
    }
    out := files[..k] + [file] + files[k..];
    forall i | k <= i < |files| ensures Less(file.path, files[i].path) {
      LessIsTotal(file.path, files[k].path);
      if i > k { LessIsTransitive(file.path, files[k].path, files[i].path); }
    }
  }

  /** `parseUnifiedDiffFiles`. */
  method ParseUnifiedDiffFiles(diff: string, env: Env) returns (files: seq<PatchFile>)
    ensures Trim(diff) == "" ==> files == []
    ensures Trim(diff) != "" ==> IsFileList(files, CoalesceAll(map[], Blocks(SplitBlocks(diff)), env), env)
  {
    if |Trim(diff)| == 0 { return []; }
    var blocks := Blocks(SplitBlocks(diff));
    var byPath: map<string, Entry> := map[];
    for i := 0 to |blocks|
      invariant CoalesceAll(map[], blocks, env) == CoalesceAll(byPath, blocks[i..], env)
    {
      assert blocks[i..][1..] == blocks[i + 1..];
      var s := ParseBlock(blocks[i], env);
      byPath := Coalesce(byPath, s, blocks[i]);
    }
    files := FilesOf(byPath, env);
  }

  /** List the map and sort it. */
  method FilesOf(byPath: map<string, Entry>, env: Env) returns (files: seq<PatchFile>)
    ensures IsFileList(files, byPath, env)
  {
    files := [];
    var todo := byPath.Keys;
    while todo != {}
      invariant todo <= byPath.Keys && SortedByPath(files)
      invariant forall i :: 0 <= i < |files| ==>
                  files[i].path in byPath.Keys - todo && files[i] == FileOf(files[i].path, byPath[files[i].path], env)
      invariant forall p :: p in byPath.Keys - todo ==> HasPath(files, p)
    {
      var path :| path in todo;
      var file := FileOf(path, byPath[path], env);
      ghost var before := files;
      files := InsertSorted(files, file);
      todo := todo - {path};
      InsertedPaths(before, file, files);
    }
  }

  lemma InsertedPaths(files: seq<PatchFile>, file: PatchFile, out: seq<PatchFile>)
    requires exists k :: 0 <= k <= |files| && out == files[..k] + [file] + files[k..]
    ensures forall i :: 0 <= i < |out| ==> out[i] == file || out[i] in files
    ensures HasPath(out, file.path) && forall p :: HasPath(files, p) ==> HasPath(out, p)
  {
    var k :| 0 <= k <= |files| && out == files[..k] + [file] + files[k..];
    assert out[k] == file;
    forall p | HasPath(files, p) ensures HasPath(out, p) {
      var i :| 0 <= i < |files| && files[i].path == p;
      assert out[if i < k then i else i + 1] == files[i];
    }
  }

  /** A file list is determined by its map. */
  lemma FileListIsUnique(a: seq<PatchFile>, b: seq<PatchFile>, byPath: map<string, Entry>, env: Env)
    requires IsFileList(a, byPath, env) && IsFileList(b, byPath, env)
    ensures a == b && |a| == |byPath|
  {
    ListSize(a, byPath, env);
    Covers(a, b, byPath, env);
    Covers(b, a, byPath, env);
    SortedAreEqual(a, b);
  }

  lemma HasMember(files: seq<PatchFile>)
    requires files != []
    ensures exists f :: f in files
  {
    assert files[0] in files;
  }

  lemma {:induction false} SortedAreEqual(a: seq<PatchFile>, b: seq<PatchFile>)
    requires SortedByPath(a) && SortedByPath(b) && forall f :: f in a <==> f in b
    ensures a == b
  {
    if a == [] {
      if b != [] { HasMember(b); }
    } else {
      assert a[0] in b && b != [] && b[0] in a;
      if a[0] != b[0] {
        var i :| 0 <= i < |b| && b[i] == a[0];
        var j :| 0 <= j < |a| && a[j] == b[0];
        LessIsTotal(a[0].path, b[0].path);
      }
      forall f | f in a[1..] ensures f in b[1..] {
        var i :| 1 <= i < |a| && a[i] == f;
        LessIsTotal(a[0].path, f.path);
        assert f in b && f != b[0];
      }
      forall f | f in b[1..] ensures f in a[1..] {
        var i :| 1 <= i < |b| && b[i] == f;
        LessIsTotal(b[0].path, f.path);
        assert f in a && f != a[0];
      }
      SortedAreEqual(a[1..], b[1..]);
      assert a == [a[0]] + a[1..] && b == [b[0]] + b[1..];
    }
  }

  lemma Covers(a: seq<PatchFile>, b: seq<PatchFile>, byPath: map<string, Entry>, env: Env)
    requires IsFileList(a, byPath, env) && IsFileList(b, byPath, env)
    ensures forall f :: f in a ==> f in b
  {
    forall f | f in a ensures f in b {
      var i :| 0 <= i < |b| && b[i].path == f.path;
    }
  }

  lemma ListSize(files: seq<PatchFile>, byPath: map<string, Entry>, env: Env)
    requires IsFileList(files, byPath, env)
    ensures |files| == |byPath|
  {
    var paths := set i | 0 <= i < |files| :: files[i].path;
    assert paths == byPath.Keys;
    PathCount(files);
  }

  lemma {:induction false} PathCount(files: seq<PatchFile>)
    requires SortedByPath(files)
    ensures |set i | 0 <= i < |files| :: files[i].path| == |files|
  {
    if files != [] {
      var n := |files| - 1;
      var front := set i | 0 <= i < n :: files[i].path;
      assert forall i :: 0 <= i < n ==> files[..n][i] == files[i];
      assert front == set i | 0 <= i < |files[..n]| :: files[..n][i].path;
      PathCount(files[..n]);
      forall i | 0 <= i < n ensures files[i].path != files[n].path { LessIsTotal(files[i].path, files[n].path); }
      assert (set i | 0 <= i < |files| :: files[i].path) == front + {files[n].path};
    }
  }
}
