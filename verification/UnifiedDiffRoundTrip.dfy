/** Hunk bodies cannot influence metadata, and parsing undoes printing. */
module UnifiedDiffRoundTrip {
  import opened Json
  import opened Text
  import opened GitPaths
  import opened UnifiedDiff
  import DiffEntries
  import opened GitHeaders
  import opened DiffBlocks

  // ----- hunk bodies are inert -----

  function CountStarting(lines: seq<string>, prefix: string): nat {
    if lines == [] then 0
    else (if prefix <= lines[0] && !IsHunkHeader(lines[0]) then 1 else 0) + CountStarting(lines[1..], prefix)
  }

  /** Once in a hunk, whatever the lines say, only the counts move, each line counted by its first character. */
  lemma {:induction false} BodyOnlyCounts(s: Scan, body: seq<string>, env: Env)
    requires s.inHunk
    ensures ScanLines(s, body, env) == s.(additions := s.additions + CountStarting(body, "+"),
                                          deletions := s.deletions + CountStarting(body, "-"))
    decreases body
  {
    if body != [] {
      assert "+" <= body[0] ==> body[0][0] == '+';
      assert "-" <= body[0] ==> body[0][0] == '-';
      assert "@@" <= body[0] ==> body[0][0] == '@';
      BodyOnlyCounts(ScanLine(s, body[0], env), body[1..], env);
    }
  }

  lemma {:induction false} ScanAppend(s: Scan, a: seq<string>, b: seq<string>, env: Env)
    ensures ScanLines(s, a + b, env) == ScanLines(ScanLines(s, a, env), b, env)
    decreases a
  {
    if a == [] {
      assert a + b == b;
    } else {
      assert (a + b)[1..] == a[1..] + b;
      ScanAppend(ScanLine(s, a[0], env), a[1..], b, env);
    }
  }

  /** After the first hunk header, two blocks that share a preamble agree on status and paths, whatever their
      bodies contain, and their counts are the bodies' own. */
  lemma BodyCannotInfluenceMetadata(preamble: seq<string>, header: string, body: seq<string>, other: seq<string>,
                                    env: Env)
    requires IsHunkHeader(header)
    ensures var s := ScanLines(FRESH_SCAN, preamble + [header] + body, env);
            var t := ScanLines(FRESH_SCAN, preamble + [header] + other, env);
            && s.status == t.status && s.path == t.path && s.previousPath == t.previousPath
            && s.additions + CountStarting(other, "+") == t.additions + CountStarting(body, "+")
            && s.deletions + CountStarting(other, "-") == t.deletions + CountStarting(body, "-")
  {
    var open := preamble + [header];
    var at := ScanLines(FRESH_SCAN, open, env);
    ScanAppend(FRESH_SCAN, preamble, [header], env);
    assert [header][1..] == [];
    ScanAppend(FRESH_SCAN, open, body, env);
    ScanAppend(FRESH_SCAN, open, other, env);
    BodyOnlyCounts(at, body, env);
    BodyOnlyCounts(at, other, env);
  }

  // ----- the printer -----

  datatype Kind = Add | Modify | Delete | Rename

  /** A hunk: what follows `@@` on its header line, and its lines. */
  datatype Hunk = Hunk(range: string, lines: seq<string>)

  /** One file's patch; `from` is the former path of a renamed file. `mode` is the tail of its mode or similarity
      lines, `index` of its index line. */
  datatype Patch = Patch(kind: Kind, path: string, from: string, mode: string, index: string, hunks: seq<Hunk>)

  /** How Git encodes names, and the parameters of the parse. */
  datatype Setting = Setting(encode: string -> seq<Byte>, env: Env)

  /** A hunk line begins with its role character and goes on to the line feed, whatever it contains. */
  ghost predicate IsHunkLine(line: string) {
    line != "" && line[0] in {'+', '-', ' ', '\\'} && Without(line, IsNewline)
  }

  ghost predicate WellFormedHunk(h: Hunk) {
    Without(h.range, IsNewline) && forall i :: 0 <= i < |h.lines| ==> IsHunkLine(h.lines[i])
  }

  /** Every segment of the line after its first, which begins after a carriage return or a separator, is good. */
  predicate HidesOnly(line: string, good: string -> bool) {
    forall k :: 1 <= k < |Segments(line)| ==> good(Segments(line)[k])
  }

  predicate HunkHidesOnly(h: Hunk, good: string -> bool) {
    HidesOnly("@@" + h.range, good) && forall i :: 0 <= i < |h.lines| ==> HidesOnly(h.lines[i], good)
  }

  predicate PatchHidesOnly(p: Patch, good: string -> bool) {
    forall i :: 0 <= i < |p.hunks| ==> HunkHidesOnly(p.hunks[i], good)
  }

  /** No line of a hunk reads, after a carriage return or a separator in it, as a block header or a binary mark. */
  predicate Harmless(p: Patch) { PatchHidesOnly(p, StartsNoBlock) && PatchHidesOnly(p, MarksNoBinary) }

  function FormerPath(p: Patch): string { if p.kind == Rename then p.from else p.path }

  /** A path names a file, and its bytes are UTF-8. */
  ghost predicate IsName(name: string, g: Setting) {
    name != "" && name[|name| - 1] != '/' && Faithful(name, g.encode, g.env.utf8)
  }

  ghost predicate WellFormed(p: Patch, g: Setting) {
    && IsName(p.path, g) && IsName(FormerPath(p), g) && IsName(Side('a', FormerPath(p)), g) &&
       IsName(Side('b', p.path), g)
    && OneLine(p.mode) && OneLine(p.index) && forall i :: 0 <= i < |p.hunks| ==> WellFormedHunk(p.hunks[i])
  }

  function Side(side: char, path: string): string { [side, '/'] + path }

  function Header(p: Patch, g: Setting): string { HeaderLine(FormerPath(p), p.path, g.encode) }

  function ModeLines(p: Patch, g: Setting): seq<string> {
    match p.kind
    case Add => ["new file mode " + p.mode]
    case Delete => ["deleted file mode " + p.mode]
    case Modify => if p.hunks == [] then ["old mode " + p.mode, "new mode " + p.mode] else []
    case Rename =>
      ["similarity index " + p.mode, "rename from " + Spelled(p.from, g.encode),
       "rename to " + Spelled(p.path, g.encode)]
  }

  function IndexLines(p: Patch): seq<string> {
    if p.hunks == [] && (p.kind == Modify || p.kind == Rename) then [] else ["index " + p.index]
  }

  /** A name with its diff prefix; Git marks the end of one with a space in it by a tab. */
  function Labelled(side: char, path: string, g: Setting): string {
    var name := Side(side, path);
    Spelled(name, g.encode) + if ' ' in Spelled(name, g.encode) then "\t" else ""
  }

  function FormerLine(p: Patch, g: Setting): string {
    if p.kind == Add then "--- /dev/null" else "--- " + Labelled('a', FormerPath(p), g)
  }

  function LatterLine(p: Patch, g: Setting): string {
    if p.kind == Delete then "+++ /dev/null" else "+++ " + Labelled('b', p.path, g)
  }

  /** A patch without hunks has no `---` and `+++` lines. */
  function PathLines(p: Patch, g: Setting): seq<string> {
    if p.hunks == [] then [] else [FormerLine(p, g), LatterLine(p, g)]
  }

  function HunkLines(hunks: seq<Hunk>): seq<string> {
    if hunks == [] then [] else ["@@" + hunks[0].range] + hunks[0].lines + HunkLines(hunks[1..])
  }

  function Preamble(p: Patch, g: Setting): seq<string> {
    [Header(p, g)] + ModeLines(p, g) + IndexLines(p) + PathLines(p, g)
  }

  function PatchLines(p: Patch, g: Setting): seq<string> { Preamble(p, g) + HunkLines(p.hunks) }

  function PrintPatch(p: Patch, g: Setting): string { Terminated(PatchLines(p, g), '\n') }

  function Printed(patches: seq<Patch>, g: Setting): seq<string> {
    if patches == [] then [] else [PrintPatch(patches[0], g)] + Printed(patches[1..], g)
  }

  function PrintAll(patches: seq<Patch>, g: Setting): string { Concat(Printed(patches, g)) }

  // ----- printed lines -----

  lemma {:induction false} HunkLinesShape(hunks: seq<Hunk>)
    requires forall i :: 0 <= i < |hunks| ==> WellFormedHunk(hunks[i])
    ensures forall i :: 0 <= i < |HunkLines(hunks)| ==>
              Without(HunkLines(hunks)[i], IsNewline) &&
              (IsHunkHeader(HunkLines(hunks)[i]) || IsHunkLine(HunkLines(hunks)[i]))
    ensures hunks != [] ==> IsHunkHeader(HunkLines(hunks)[0])
  {
    if hunks != [] {
      HunkLinesShape(hunks[1..]);
      assert WellFormedHunk(hunks[0]);
      var header := "@@" + hunks[0].range;
      assert Without(header, IsNewline) && IsHunkHeader(header);
    }
  }

  /** A line that neither starts a block nor marks a binary file. */
  ghost predicate IsInnerLine(line: string) {
    OneLine(line) && !(GIT_HEADER <= line) && !IsBinaryLine(line)
  }

  lemma FirstCharDecides(line: string)
    requires line != "" && OneLine(line) && line[0] != 'd' && line[0] != 'B' && line[0] != 'G'
    ensures IsInnerLine(line)
  {}

  lemma PrintableIsOneLine(s: string)
    requires AllPrintable(s)
    ensures OneLine(s)
  {
    forall i | 0 <= i < |s| ensures !IsLineEnd(s[i]) { assert IsPrintable(s[i]); }
  }

  lemma NameIsOneLine(name: string, g: Setting)
    requires IsName(name, g)
    ensures OneLine(Spelled(name, g.encode)) && Spelled(name, g.encode) != ""
  {
    SpelledShape(name, g.encode, g.env.utf8);
    PrintableIsOneLine(Spelled(name, g.encode));
  }

  lemma HeaderShape(p: Patch, g: Setting)
    requires WellFormed(p, g)
    ensures OneLine(Header(p, g)) && GIT_HEADER <= Header(p, g) && !IsBinaryLine(Header(p, g))
  {
    NameIsOneLine(Side('a', FormerPath(p)), g);
    NameIsOneLine(Side('b', p.path), g);
    assert Header(p, g)[0] == 'd';
  }

  lemma ModeShape(p: Patch, g: Setting)
    requires WellFormed(p, g)
    ensures forall i :: 0 <= i < |ModeLines(p, g)| ==> IsInnerLine(ModeLines(p, g)[i])
  {
    if p.kind == Rename {
      NameIsOneLine(p.from, g);
      NameIsOneLine(p.path, g);
      RenameShape(p.mode, Spelled(p.from, g.encode), Spelled(p.path, g.encode));
    } else {
      OtherModesShape(p.mode);
    }
  }

  lemma RenameShape(mode: string, from: string, to: string)
    requires OneLine(mode) && OneLine(from) && OneLine(to)
    ensures IsInnerLine("similarity index " + mode) && IsInnerLine("rename from " + from) &&
            IsInnerLine("rename to " + to)
  {
    FirstCharDecides("similarity index " + mode);
    FirstCharDecides("rename from " + from);
    FirstCharDecides("rename to " + to);
  }

  lemma OtherModesShape(mode: string)
    requires OneLine(mode)
    ensures IsInnerLine("new file mode " + mode) && IsInnerLine("deleted file mode " + mode)
    ensures IsInnerLine("old mode " + mode) && IsInnerLine("new mode " + mode)
  {
    FirstCharDecides("new file mode " + mode);
    FirstCharDecides("old mode " + mode);
    FirstCharDecides("new mode " + mode);
    var line := "deleted file mode " + mode;
    assert line[0] == 'd' && line[1] == 'e' && GIT_HEADER[1] == 'i';
  }

  lemma PathsShape(p: Patch, g: Setting)
    requires WellFormed(p, g)
    ensures forall i :: 0 <= i < |PathLines(p, g)| ==> IsInnerLine(PathLines(p, g)[i])
  {
    NameIsOneLine(Side('a', FormerPath(p)), g);
    NameIsOneLine(Side('b', p.path), g);
    FirstCharDecides(FormerLine(p, g));
    FirstCharDecides(LatterLine(p, g));
  }

  lemma PreambleShape(p: Patch, g: Setting)
    requires WellFormed(p, g)
    ensures IsBlockOfLines(Preamble(p, g))
  {
    HeaderShape(p, g);
    ModeShape(p, g);
    PathsShape(p, g);
    FirstCharDecides("index " + p.index);
    BlockGrows([Header(p, g)], ModeLines(p, g));
    BlockGrows([Header(p, g)] + ModeLines(p, g), IndexLines(p));
    BlockGrows([Header(p, g)] + ModeLines(p, g) + IndexLines(p), PathLines(p, g));
  }

  /** The lines of one block: a header, and lines that start no other. */
  ghost predicate IsBlockOfLines(lines: seq<string>) {
    && lines != [] && OneLine(lines[0]) && GIT_HEADER <= lines[0] && !IsBinaryLine(lines[0])
    && forall i :: 1 <= i < |lines| ==> IsInnerLine(lines[i])
  }

  lemma BlockGrows(lines: seq<string>, more: seq<string>)
    requires IsBlockOfLines(lines) && forall i :: 0 <= i < |more| ==> IsInnerLine(more[i])
    ensures IsBlockOfLines(lines + more)
  {}

  // ----- splitting into blocks -----

  /** Holds of what neither begins with the header's letter nor with one of a binary mark. */
  ghost predicate IsJudge(good: string -> bool) {
    && (forall line :: IsInnerLine(line) ==> good(line))
    && (forall line :: line == "" || line[0] in {'+', '-', ' ', '\\', '@'} ==> good(line))
  }

  lemma BothJudge()
    ensures IsJudge(StartsNoBlock) && IsJudge(MarksNoBinary)
  {}

  /** The first segment of a line in a hunk begins as the line does. */
  lemma HunkLineIff(line: string, good: string -> bool)
    requires IsJudge(good) && line != "" && line[0] in {'+', '-', ' ', '\\', '@'}
    ensures IsLineOf(line, good) <==> HidesOnly(line, good)
  {
    assert !IsLineEnd(line[0]);
    assert Segments(line)[0][0] == line[0];
    assert good(Segments(line)[0]);
  }

  predicate AllLinesOf(lines: seq<string>, good: string -> bool) {
    forall i :: 0 <= i < |lines| ==> IsLineOf(lines[i], good)
  }

  lemma AllLinesAppend(a: seq<string>, b: seq<string>, good: string -> bool)
    ensures AllLinesOf(a + b, good) <==> AllLinesOf(a, good) && AllLinesOf(b, good)
  {
    assert forall i :: 0 <= i < |a| ==> (a + b)[i] == a[i];
    assert forall i :: 0 <= i < |b| ==> (a + b)[|a| + i] == b[i];
  }

  lemma HunkIff(h: Hunk, good: string -> bool)
    requires IsJudge(good) && WellFormedHunk(h)
    ensures HunkHidesOnly(h, good) <==> AllLinesOf(["@@" + h.range] + h.lines, good)
  {
    var header := ["@@" + h.range];
    HunkLineIff(header[0], good);
    forall i | 0 <= i < |h.lines| ensures IsLineOf(h.lines[i], good) <==> HidesOnly(h.lines[i], good) {
      HunkLineIff(h.lines[i], good);
    }
    AllLinesAppend(header, h.lines, good);
    assert AllLinesOf(header, good) <==> IsLineOf(header[0], good);
  }

  lemma {:induction false} HunksIff(hunks: seq<Hunk>, good: string -> bool)
    requires IsJudge(good) && forall i :: 0 <= i < |hunks| ==> WellFormedHunk(hunks[i])
    ensures AllLinesOf(HunkLines(hunks), good) <==> forall i :: 0 <= i < |hunks| ==> HunkHidesOnly(hunks[i], good)
  {
    if hunks != [] {
      var rest := hunks[1..];
      HunkIff(hunks[0], good);
      HunksIff(rest, good);
      AllLinesAppend(["@@" + hunks[0].range] + hunks[0].lines, HunkLines(rest), good);
      assert forall i :: 0 <= i < |rest| ==> rest[i] == hunks[i + 1];
      assert forall i :: 1 <= i < |hunks| ==> hunks[i] == rest[i - 1];
    }
  }

  lemma LinesIff(preamble: seq<string>, hunks: seq<Hunk>, good: string -> bool)
    requires IsBlockOfLines(preamble) && IsJudge(good) && forall i :: 0 <= i < |hunks| ==> WellFormedHunk(hunks[i])
    ensures var lines := preamble + HunkLines(hunks);
            (forall i :: 1 <= i < |lines| ==> IsLineOf(lines[i], good)) <==>
            forall i :: 0 <= i < |hunks| ==> HunkHidesOnly(hunks[i], good)
  {
    var hunkLines := HunkLines(hunks);
    var lines := preamble + hunkLines;
    forall i | 1 <= i < |preamble| ensures IsLineOf(lines[i], good) {
      SplitNone(preamble[i], IsLineEnd);
      assert lines[i] == preamble[i] && IsInnerLine(preamble[i]);
    }
    HunksIff(hunks, good);
    assert forall i :: 0 <= i < |hunkLines| ==> lines[|preamble| + i] == hunkLines[i];
    assert forall i :: |preamble| <= i < |lines| ==> lines[i] == hunkLines[i - |preamble|];
  }

  /** A printed patch stays one block exactly if its hunks hide no block start, and is no binary file exactly if they
      hide no binary mark. */
  lemma PatchStandsIff(p: Patch, g: Setting)
    requires WellFormed(p, g)
    ensures var text := PrintPatch(p, g);
            && (!HasStart(text) <==> PatchHidesOnly(p, StartsNoBlock))
            && (!IsBinary(text) <==> PatchHidesOnly(p, MarksNoBinary))
            && GIT_HEADER <= text && EndsLine(text)
  {
    PreambleShape(p, g);
    BothJudge();
    LinesIff(Preamble(p, g), p.hunks, StartsNoBlock);
    LinesIff(Preamble(p, g), p.hunks, MarksNoBinary);
    BlockStandsIff(PatchLines(p, g), PrintPatch(p, g));
  }

  lemma {:induction false} PrintedAt(patches: seq<Patch>, g: Setting)
    ensures |Printed(patches, g)| == |patches|
    ensures forall i :: 0 <= i < |patches| ==> Printed(patches, g)[i] == PrintPatch(patches[i], g)
  {
    if patches != [] { PrintedAt(patches[1..], g); }
  }

  /** A printed diff splits into the texts of its patches if and only if no hunk hides a block start, and each text is
      a binary file if and only if a hunk of its hides a binary mark: only a line feed ends a line of a diff, but the
      parser's multi-line patterns also match after a carriage return or a separator. */
  lemma SplitsIff(patches: seq<Patch>, g: Setting)
    requires patches != [] && forall i :: 0 <= i < |patches| ==> WellFormed(patches[i], g)
    ensures var texts := Printed(patches, g);
            && |texts| == |patches|
            && (SplitBlocks(PrintAll(patches, g)) == texts
                <==> forall i :: 0 <= i < |patches| ==> PatchHidesOnly(patches[i], StartsNoBlock))
            && (forall i :: 0 <= i < |texts| ==> (IsBinary(texts[i]) <==> !PatchHidesOnly(patches[i], MarksNoBinary)))
            && Blocks(texts) == texts && GIT_HEADER <= PrintAll(patches, g)
  {
    var texts := Printed(patches, g);
    PrintedAt(patches, g);
    forall i | 0 <= i < |patches|
      ensures GIT_HEADER <= texts[i] && EndsLine(texts[i])
      ensures !HasStart(texts[i]) <==> PatchHidesOnly(patches[i], StartsNoBlock)
      ensures !IsBinary(texts[i]) <==> PatchHidesOnly(patches[i], MarksNoBinary)
    {
      PatchStandsIff(patches[i], g);
    }
    SplitConcatIff(texts);
  }

  // ----- one printed block -----

  function CountRole(lines: seq<string>, role: char): nat {
    if lines == [] then 0 else (if lines[0] != "" && lines[0][0] == role then 1 else 0) + CountRole(lines[1..], role)
  }

  /** The lines a patch adds or deletes: those with the role, over all its hunks. */
  function CountInHunks(hunks: seq<Hunk>, role: char): nat {
    if hunks == [] then 0 else CountRole(hunks[0].lines, role) + CountInHunks(hunks[1..], role)
  }

  function StatusOf(kind: Kind): FileStatus {
    match kind case Add => Added case Delete => Deleted case Modify => Modified case Rename => Renamed
  }

  lemma {:induction false} CountAppend(a: seq<string>, b: seq<string>, prefix: string)
    ensures CountStarting(a + b, prefix) == CountStarting(a, prefix) + CountStarting(b, prefix)
  {
    if a == [] {
      assert a + b == b;
    } else {
      assert (a + b)[1..] == a[1..] + b;
      CountAppend(a[1..], b, prefix);
    }
  }

  lemma {:induction false} CountIsRole(lines: seq<string>, role: char)
    requires role != '@' && forall i :: 0 <= i < |lines| ==> IsHunkLine(lines[i])
    ensures CountStarting(lines, [role]) == CountRole(lines, role)
  {
    if lines != [] {
      assert IsHunkLine(lines[0]);
      assert "@@" <= lines[0] ==> lines[0][0] == '@';
      assert [role] <= lines[0] <==> lines[0][0] == role;
      CountIsRole(lines[1..], role);
    }
  }

  lemma {:induction false} CountInHunkLines(hunks: seq<Hunk>, role: char)
    requires role != '@' && forall i :: 0 <= i < |hunks| ==> WellFormedHunk(hunks[i])
    ensures CountStarting(HunkLines(hunks), [role]) == CountInHunks(hunks, role)
  {
    if hunks != [] {
      var header := "@@" + hunks[0].range;
      assert WellFormedHunk(hunks[0]) && IsHunkHeader(header);
      CountAppend([header] + hunks[0].lines, HunkLines(hunks[1..]), [role]);
      CountAppend([header], hunks[0].lines, [role]);
      assert [header][1..] == [];
      CountIsRole(hunks[0].lines, role);
      CountInHunkLines(hunks[1..], role);
    }
  }

  /** A line that a preamble scan passes over. */
  lemma SkippedLine(s: Scan, line: string, env: Env)
    requires !s.inHunk
    requires line == "" || line[0] in {'i', 'o', 's'} ||
             (|line| > 4 && ((line[0] == 'd' && line[1] == 'i') || (line[0] == 'n' && line[4] == 'm')))
    ensures ScanLine(s, line, env) == s
  {}

  /** The scan after the mode lines: the names of a renamed file are read without a diff prefix. */
  function AfterModes(p: Patch): Scan {
    var s := FRESH_SCAN.(status := StatusOf(p.kind));
    if p.kind == Rename then s.(previousPath := Some(Read(p.from)), path := Some(Read(p.path))) else s
  }

  lemma ScanTwo(s: Scan, a: string, b: string, env: Env)
    ensures ScanLines(s, [a, b], env) == ScanLine(ScanLine(s, a, env), b, env)
  {
    assert [a, b][1..] == [b] && [b][1..] == [];
    assert ScanLines(ScanLine(s, a, env), [b], env) == ScanLines(ScanLine(ScanLine(s, a, env), b, env), [], env);
  }

  lemma ScanModes(p: Patch, g: Setting)
    requires WellFormed(p, g)
    ensures ScanLines(FRESH_SCAN, ModeLines(p, g), g.env) == AfterModes(p)
  {
    if p.kind == Rename {
      ReadIsUnprefix(p.from, "", g.encode, g.env.utf8);
      ReadIsUnprefix(p.path, "", g.encode, g.env.utf8);
      assert Spelled(p.from, g.encode) + "" == Spelled(p.from, g.encode);
      assert Spelled(p.path, g.encode) + "" == Spelled(p.path, g.encode);
      ScanRename(p.mode, Spelled(p.from, g.encode), Spelled(p.path, g.encode), g.env);
    } else {
      ScanOtherModes(p.mode, g.env);
      assert ModeLines(p, g) != [] && p.kind != Modify ==> ModeLines(p, g)[1..] == [];
    }
  }

  lemma ScanRename(mode: string, from: string, to: string, env: Env)
    ensures ScanLines(FRESH_SCAN, ["similarity index " + mode, "rename from " + from, "rename to " + to], env) ==
            FRESH_SCAN.(status := Renamed, previousPath := Some(Unprefix(from, env.utf8)),
                        path := Some(Unprefix(to, env.utf8)))
  {
    var a, b, c := "similarity index " + mode, "rename from " + from, "rename to " + to;
    SkippedLine(FRESH_SCAN, a, env);
    assert b[0] == 'r' && c[0] == 'r' && c[7] == 't';
    assert b[|"rename from "|..] == from && c[|"rename to "|..] == to;
    ScanTwo(FRESH_SCAN, b, c, env);
    assert [a, b, c][1..] == [b, c];
  }

  lemma ScanOtherModes(mode: string, env: Env)
    ensures ScanLine(FRESH_SCAN, "new file mode " + mode, env) == FRESH_SCAN.(status := Added)
    ensures ScanLine(FRESH_SCAN, "deleted file mode " + mode, env) == FRESH_SCAN.(status := Deleted)
    ensures ScanLines(FRESH_SCAN, ["old mode " + mode, "new mode " + mode], env) == FRESH_SCAN
  {
    var added, deleted := "new file mode " + mode, "deleted file mode " + mode;
    assert added[0] == 'n' && "new file mode" <= added;
    assert deleted[0] == 'd' && "deleted file mode" <= deleted;
    SkippedLine(FRESH_SCAN, "old mode " + mode, env);
    SkippedLine(FRESH_SCAN, "new mode " + mode, env);
    ScanTwo(FRESH_SCAN, "old mode " + mode, "new mode " + mode, env);
  }

  /** The scan after the path lines. */
  function AfterPaths(p: Patch): Scan {
    var s := AfterModes(p);
    if p.hunks == [] then s
    else
      var former, latter := Some(Read(Side('a', FormerPath(p)))), Some(Read(Side('b', p.path)));
      s.(previousPath := if p.kind == Add then s.previousPath else Or(s.previousPath, former),
         path := if p.kind == Delete then s.path else latter)
  }

  lemma LabelIsRead(side: char, path: string, g: Setting)
    requires (side == 'a' || side == 'b') && IsName(Side(side, path), g)
    ensures Unprefix(Labelled(side, path, g), g.env.utf8) == Read(Side(side, path))
    ensures Labelled(side, path, g) != "" && Labelled(side, path, g)[0] in {side, '"'}
  {
    var name := Side(side, path);
    SpelledShape(name, g.encode, g.env.utf8);
    ReadIsUnprefix(name, if ' ' in Spelled(name, g.encode) then "\t" else "", g.encode, g.env.utf8);
  }

  lemma ScanNothing(s: Scan, env: Env)
    requires !s.inHunk
    ensures ScanLine(s, "--- /dev/null", env) == s && ScanLine(s, "+++ /dev/null", env) == s
  {
    var minus, plus := "--- /dev/null", "+++ /dev/null";
    assert minus[0] == '-' && "--- /dev/null" <= minus;
    assert plus[0] == '+' && "+++ /dev/null" <= plus;
  }

  lemma ScanLabel(s: Scan, named: string, env: Env)
    requires !s.inHunk && named != "" && named[0] != '/'
    ensures ScanLine(s, "--- " + named, env) == s.(previousPath := Or(s.previousPath, Some(Unprefix(named, env.utf8))))
    ensures ScanLine(s, "+++ " + named, env) == s.(path := Some(Unprefix(named, env.utf8)))
  {
    var minus, plus := "--- " + named, "+++ " + named;
    assert minus[0] == '-' && minus[4] != '/' && minus[4..] == named;
    assert plus[0] == '+' && plus[4] != '/' && plus[4..] == named;
  }

  lemma ScanFormerLine(s: Scan, p: Patch, g: Setting)
    requires WellFormed(p, g) && !s.inHunk
    ensures ScanLine(s, FormerLine(p, g), g.env) ==
            if p.kind == Add then s else s.(previousPath := Or(s.previousPath, Some(Read(Side('a', FormerPath(p))))))
  {
    ScanNothing(s, g.env);
    LabelIsRead('a', FormerPath(p), g);
    ScanLabel(s, Labelled('a', FormerPath(p), g), g.env);
  }

  lemma ScanLatterLine(s: Scan, p: Patch, g: Setting)
    requires WellFormed(p, g) && !s.inHunk
    ensures ScanLine(s, LatterLine(p, g), g.env) ==
            if p.kind == Delete then s else s.(path := Some(Read(Side('b', p.path))))
  {
    ScanNothing(s, g.env);
    LabelIsRead('b', p.path, g);
    ScanLabel(s, Labelled('b', p.path, g), g.env);
  }

  lemma ScanPaths(p: Patch, g: Setting)
    requires WellFormed(p, g)
    ensures ScanLines(AfterModes(p), PathLines(p, g), g.env) == AfterPaths(p)
  {
    if p.hunks != [] {
      var s := AfterModes(p);
      ScanFormerLine(s, p, g);
      ScanLatterLine(ScanLine(s, FormerLine(p, g), g.env), p, g);
      ScanTwo(s, FormerLine(p, g), LatterLine(p, g), g.env);
    }
  }

  lemma ScanPreambleLines(p: Patch, g: Setting)
    requires WellFormed(p, g)
    ensures ScanLines(FRESH_SCAN, Preamble(p, g), g.env) == AfterPaths(p)
  {
    var header, index := [Header(p, g)], IndexLines(p);
    var s := AfterModes(p);
    assert header[1..] == [] && (index != [] ==> index[1..] == []);
    assert header[0][0] == 'd' && header[0][1] == 'i';
    SkippedLine(FRESH_SCAN, header[0], g.env);
    if index != [] { SkippedLine(s, index[0], g.env); }
    ScanModes(p, g);
    ScanPaths(p, g);
    ScanAppend(FRESH_SCAN, header + ModeLines(p, g) + index, PathLines(p, g), g.env);
    ScanAppend(FRESH_SCAN, header + ModeLines(p, g), index, g.env);
    ScanAppend(FRESH_SCAN, header, ModeLines(p, g), g.env);
  }

  lemma ScanHunks(s: Scan, p: Patch, g: Setting)
    requires WellFormed(p, g) && !s.inHunk && s.additions == s.deletions == 0
    ensures ScanLines(s, HunkLines(p.hunks) + [""], g.env) ==
            s.(additions := CountInHunks(p.hunks, '+'), deletions := CountInHunks(p.hunks, '-'),
               inHunk := p.hunks != [])
  {
    var lines := HunkLines(p.hunks) + [""];
    if p.hunks == [] {
      assert lines == [""] && lines[1..] == [];
      SkippedLine(s, "", g.env);
    } else {
      HunkLinesShape(p.hunks);
      assert lines[0] == HunkLines(p.hunks)[0];
      BodyOnlyCounts(s.(inHunk := true), lines[1..], g.env);
      CountsOfHunkText(p.hunks, '+');
      CountsOfHunkText(p.hunks, '-');
    }
  }

  lemma CountsOfHunkText(hunks: seq<Hunk>, role: char)
    requires role in {'+', '-'} && hunks != [] && forall i :: 0 <= i < |hunks| ==> WellFormedHunk(hunks[i])
    ensures CountStarting((HunkLines(hunks) + [""])[1..], [role]) == CountInHunks(hunks, role)
  {
    HunkLinesShape(hunks);
    CountInHunkLines(hunks, role);
    CountAppend(HunkLines(hunks), [""], [role]);
    assert [""][1..] == [];
    var lines := HunkLines(hunks) + [""];
    assert CountStarting(lines, [role]) == CountStarting(lines[1..], [role]);
  }

  /** The path of the patch stands on a `+++` line. */
  predicate Named(p: Patch) { p.hunks != [] && p.kind != Delete }

  /** The lines that name the patch's file name it so that the parser reads it right. */
  predicate Readable(p: Patch)
    requires p.path != "" && FormerPath(p) != ""
  {
    && (if Named(p) then KeepsEnd(p.path) else if p.kind == Rename then KeepsWhole(p.path) else ' ' !in p.path)
    && (p.kind == Rename ==> KeepsWhole(p.from))
  }

  /** What the lines of one printed patch amount to, before the header is consulted. */
  lemma ScanPrinted(p: Patch, g: Setting)
    requires WellFormed(p, g)
    ensures ScanBlock(PrintPatch(p, g), g.env) ==
            WithHeader(AfterPaths(p).(additions := CountInHunks(p.hunks, '+'), deletions := CountInHunks(p.hunks, '-'),
                                      inHunk := p.hunks != []), Header(p, g), g.env)
  {
    var lines := PatchLines(p, g);
    PreambleShape(p, g);
    HunkLinesShape(p.hunks);
    forall i | 0 <= i < |lines| ensures Without(lines[i], IsNewline) {
      if i < |Preamble(p, g)| {
        assert lines[i] == Preamble(p, g)[i] && OneLine(lines[i]);
      } else {
        assert lines[i] == HunkLines(p.hunks)[i - |Preamble(p, g)|];
      }
    }
    SplitTerminated(lines, '\n', IsNewline);
    assert lines + [""] == Preamble(p, g) + (HunkLines(p.hunks) + [""]);
    ScanAppend(FRESH_SCAN, Preamble(p, g), HunkLines(p.hunks) + [""], g.env);
    ScanPreambleLines(p, g);
    ScanHunks(AfterPaths(p), p, g);
  }

  /** A printed patch comes back with its status and counts; its path, and the former path of a renamed file, come
      back exactly if they are readable: a file deleted, created empty or only changed in mode must have no space
      in its path, a renamed file no `a/` or `b/` directory at the top. */
  lemma NamesAreReadIff(p: Patch, g: Setting)
    requires WellFormed(p, g)
    ensures var s := ScanBlock(PrintPatch(p, g), g.env);
            && s.status == StatusOf(p.kind)
            && s.additions == CountInHunks(p.hunks, '+') && s.deletions == CountInHunks(p.hunks, '-')
            && (s.path == Some(p.path) && (p.kind == Rename ==> s.previousPath == Some(p.from)) <==> Readable(p))
  {
    ScanPrinted(p, g);
    HeaderReadIff(FormerPath(p), p.path, g.encode, g.env.utf8);
    ReadPrefixedIff('b', p.path);
    ReadWholeIff(p.path);
    ReadWholeIff(FormerPath(p));
  }

  /** For instance, a deleted file with a space in its name is not found under its name. */
  lemma ADeletedNameWithASpaceIsLost(g: Setting, p: Patch)
    requires p == Patch(Delete, "x y", "", "100644", "0", [])
    ensures ScanBlock(PrintPatch(p, g), g.env).path != Some("x y")
  {
    assert p.path[1] == ' ';
    assert !NeedsQuotes("x y") && !NeedsQuotes(Side('a', "x y")) && !NeedsQuotes(Side('b', "x y"));
    NamesAreReadIff(p, g);
  }

  // ----- the whole diff: the patches of one path make one file -----

  function PatchesOf(patches: seq<Patch>, path: string): seq<Patch> {
    if patches == [] then []
    else (if patches[0].path == path then [patches[0]] else []) + PatchesOf(patches[1..], path)
  }

  function CountInPatches(patches: seq<Patch>, role: char): nat {
    if patches == [] then 0 else CountInHunks(patches[0].hunks, role) + CountInPatches(patches[1..], role)
  }

  /** What the patches of one path should be parsed as: one alone as it is, several as one modified file. */
  function Expected(patches: seq<Patch>, g: Setting): PatchFile
    requires patches != []
  {
    assert Printed(patches, g) != [];
    var first := patches[0];
    var status := if |patches| == 1 then StatusOf(first.kind) else Modified;
    PatchFile(first.path, if status == Renamed then Some(first.from) else None, status,
              Some(CountInPatches(patches, '+')), Some(CountInPatches(patches, '-')), false,
              g.env.visible(DiffEntries.Texts(Printed(patches, g))))
  }

  /** An entry that has gathered these patches. */
  ghost predicate Gathers(e: Entry, patches: seq<Patch>, g: Setting)
    requires patches != []
  {
    && e.status == (if |patches| == 1 then StatusOf(patches[0].kind) else Modified)
    && (e.status == Renamed ==> e.previousPath == Some(patches[0].from) && patches[0].from != "")
    && e.additions == CountInPatches(patches, '+') && e.deletions == CountInPatches(patches, '-')
    && !e.binary && e.rawParts == Printed(patches, g)
  }

  /** The map has an entry for exactly the paths of the patches. */
  ghost predicate Represents(byPath: map<string, Entry>, patches: seq<Patch>, g: Setting) {
    forall q :: Enters(byPath, q, PatchesOf(patches, q), g)
  }

  ghost predicate Enters(byPath: map<string, Entry>, q: string, patches: seq<Patch>, g: Setting) {
    && (q in byPath <==> patches != [])
    && (q in byPath ==> Gathers(byPath[q], patches, g))
  }

  lemma {:induction false} PatchesOfAppend(a: seq<Patch>, p: Patch, path: string)
    ensures PatchesOf(a + [p], path) == PatchesOf(a, path) + if p.path == path then [p] else []
  {
    if a == [] {
      assert [p][1..] == [] && a + [p] == [p];
    } else {
      assert (a + [p])[1..] == a[1..] + [p];
      PatchesOfAppend(a[1..], p, path);
    }
  }

  lemma {:induction false} GatherOne(patches: seq<Patch>, p: Patch, role: char, g: Setting)
    ensures CountInPatches(patches + [p], role) == CountInPatches(patches, role) + CountInHunks(p.hunks, role)
    ensures Printed(patches + [p], g) == Printed(patches, g) + [PrintPatch(p, g)]
  {
    if patches == [] {
      assert [p][1..] == [] && patches + [p] == [p];
    } else {
      assert (patches + [p])[1..] == patches[1..] + [p];
      GatherOne(patches[1..], p, role, g);
    }
  }

  /** The entry of a path, with one more patch of that path. */
  lemma RepresentsPut(byPath: map<string, Entry>, seen: seq<Patch>, p: Patch, e: Entry, g: Setting)
    requires Represents(byPath, seen, g) && Gathers(e, PatchesOf(seen, p.path) + [p], g)
    ensures Represents(byPath[p.path := e], seen + [p], g)
  {
    forall q ensures Enters(byPath[p.path := e], q, PatchesOf(seen + [p], q), g) {
      PatchesOfAppend(seen, p, q);
      assert Enters(byPath, q, PatchesOf(seen, q), g);
      if p.path != q { assert PatchesOf(seen + [p], q) == PatchesOf(seen, q); }
    }
  }

  /** One more printed patch goes to the entry of its path and touches no other. */
  lemma CoalesceOne(byPath: map<string, Entry>, seen: seq<Patch>, p: Patch, s: Scan, block: string, g: Setting)
    requires Represents(byPath, seen, g) && block == PrintPatch(p, g) && !IsBinary(block)
    requires p.path != "" && s.path == Some(p.path) && s.status == StatusOf(p.kind)
    requires p.kind == Rename ==> s.previousPath == Some(p.from) && p.from != ""
    requires s.additions == CountInHunks(p.hunks, '+') && s.deletions == CountInHunks(p.hunks, '-')
    ensures Represents(Coalesce(byPath, s, block), seen + [p], g)
  {
    var own := PatchesOf(seen, p.path);
    assert Enters(byPath, p.path, own, g);
    GatherOne(own, p, '+', g);
    GatherOne(own, p, '-', g);
    RepresentsPut(byPath, seen, p, Coalesce(byPath, s, block)[p.path], g);
  }

  /** A patch Git prints and the parser reads right. */
  ghost predicate Parses(p: Patch, g: Setting) { WellFormed(p, g) && Readable(p) && Harmless(p) }

  lemma CoalescePatch(byPath: map<string, Entry>, seen: seq<Patch>, p: Patch, g: Setting)
    requires Represents(byPath, seen, g) && Parses(p, g)
    ensures Represents(Coalesce(byPath, ScanBlock(PrintPatch(p, g), g.env), PrintPatch(p, g)), seen + [p], g)
  {
    NamesAreReadIff(p, g);
    PatchStandsIff(p, g);
    CoalesceOne(byPath, seen, p, ScanBlock(PrintPatch(p, g), g.env), PrintPatch(p, g), g);
  }

  lemma CoalesceFirst(byPath: map<string, Entry>, seen: seq<Patch>, p: Patch, rest: seq<Patch>, g: Setting)
    returns (next: map<string, Entry>)
    requires Represents(byPath, seen, g) && Parses(p, g)
    ensures Represents(next, seen + [p], g)
    ensures CoalesceAll(byPath, Printed([p] + rest, g), g.env) == CoalesceAll(next, Printed(rest, g), g.env)
  {
    CoalescePatch(byPath, seen, p, g);
    next := Coalesce(byPath, ScanBlock(PrintPatch(p, g), g.env), PrintPatch(p, g));
    assert ([p] + rest)[1..] == rest;
    assert Printed([p] + rest, g)[1..] == Printed(rest, g);
  }

  lemma {:induction false} CoalescePrinted(byPath: map<string, Entry>, seen: seq<Patch>, patches: seq<Patch>,
                                           g: Setting)
    requires Represents(byPath, seen, g) && forall i :: 0 <= i < |patches| ==> Parses(patches[i], g)
    ensures Represents(CoalesceAll(byPath, Printed(patches, g), g.env), seen + patches, g)
    decreases patches
  {
    if patches == [] {
      assert seen + patches == seen;
    } else {
      var p, rest := patches[0], patches[1..];
      var next := CoalesceFirst(byPath, seen, p, rest, g);
      assert [p] + rest == patches;
      CoalescePrinted(next, seen + [p], rest, g);
      assert (seen + [p]) + rest == seen + patches;
    }
  }

  lemma HeaderIsVisible(text: string)
    requires GIT_HEADER <= text
    ensures Trim(text) != ""
  {
    assert text[0] == GIT_HEADER[0] == 'd';
    TrimEndWithin(text);
    assert TrimStart(text) == text;
  }

  lemma {:induction false} PatchesOfShape(patches: seq<Patch>, path: string)
    ensures forall k :: 0 <= k < |PatchesOf(patches, path)| ==> PatchesOf(patches, path)[k].path == path
    ensures PatchesOf(patches, path) != [] <==> exists i :: 0 <= i < |patches| && patches[i].path == path
  {
    if patches != [] {
      PatchesOfShape(patches[1..], path);
      if i :| 0 <= i < |patches[1..]| && patches[1..][i].path == path { assert patches[i + 1].path == path; }
    }
  }

  /** One file per printed path, each what its patches should be parsed as. */
  ghost predicate IsParseOf(files: seq<PatchFile>, patches: seq<Patch>, g: Setting) {
    && SortedByPath(files)
    && (forall i :: 0 <= i < |patches| ==> HasPath(files, patches[i].path))
    && (forall f :: f in files ==> PatchesOf(patches, f.path) != [] && f == Expected(PatchesOf(patches, f.path), g))
  }

  lemma ListedFiles(files: seq<PatchFile>, byPath: map<string, Entry>, patches: seq<Patch>, g: Setting)
    requires Represents(byPath, patches, g) && IsFileList(files, byPath, g.env)
    ensures IsParseOf(files, patches, g)
  {
    forall i | 0 <= i < |patches| ensures HasPath(files, patches[i].path) {
      PatchesOfShape(patches, patches[i].path);
      assert Enters(byPath, patches[i].path, PatchesOf(patches, patches[i].path), g);
    }
    forall f | f in files ensures PatchesOf(patches, f.path) != [] && f == Expected(PatchesOf(patches, f.path), g) {
      PatchesOfShape(patches, f.path);
      assert Enters(byPath, f.path, PatchesOf(patches, f.path), g);
      DiffEntries.JoinIsTexts(Printed(PatchesOf(patches, f.path), g));
      assert f == FileOf(f.path, byPath[f.path], g.env);
    }
  }

  /** Parsing undoes printing: the parse of a printed diff is the sorted list of one file per printed path, with its
      former path, status and counts, whatever the hunk lines contain short of a hidden header or mark and whether or
      not Git quoted its name; the patches of one path are coalesced into one modified file with their summed counts. */
  lemma ParseUndoesPrint(patches: seq<Patch>, g: Setting, files: seq<PatchFile>)
    requires forall i :: 0 <= i < |patches| ==> Parses(patches[i], g)
    requires var diff := PrintAll(patches, g);
             if Trim(diff) == "" then files == []
             else IsFileList(files, CoalesceAll(map[], Blocks(SplitBlocks(diff)), g.env), g.env)
    ensures IsParseOf(files, patches, g)
  {
    if patches == [] {
      assert PrintAll(patches, g) == "" && Trim("") == "";
    } else {
      SplitsIff(patches, g);
      HeaderIsVisible(PrintAll(patches, g));
      CoalescePrinted(map[], [], patches, g);
      assert [] + patches == patches;
      ListedFiles(files, CoalesceAll(map[], Printed(patches, g), g.env), patches, g);
    }
  }

  /** The parser, run on a printed diff. */
  method ParsePrinted(patches: seq<Patch>, g: Setting) returns (files: seq<PatchFile>)
    requires forall i :: 0 <= i < |patches| ==> Parses(patches[i], g)
    ensures IsParseOf(files, patches, g)
  {
    files := ParseUnifiedDiffFiles(PrintAll(patches, g), g.env);
    ParseUndoesPrint(patches, g, files);
  }
}
