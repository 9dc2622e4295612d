/** What one carriage return in a changed line can do to the parse of a diff. */
module DiffHazards {
  import opened Json
  import opened Text
  import opened GitPaths
  import opened UnifiedDiff
  import opened GitHeaders
  import opened DiffBlocks
  import opened UnifiedDiffRoundTrip

  /** A change of file `f` that adds one line. */
  function Adds(line: string): Patch { Patch(Modify, "f", "", "", "0", [Hunk("", ["+" + line])]) }

  lemma AddsIsWellFormed(line: string, g: Setting)
    requires Without(line, IsNewline)
    ensures WellFormed(Adds(line), g) && Readable(Adds(line))
  {
    assert !NeedsQuotes("f") && !NeedsQuotes(Side('a', "f")) && !NeedsQuotes(Side('b', "f"));
    assert IsHunkLine("+" + line);
  }

  /** What a line of two segments hides is its second. */
  lemma AddsHides(first: string, tail: string, good: string -> bool)
    requires OneLine(first) && OneLine(tail)
    ensures PatchHidesOnly(Adds(first), good)
    ensures PatchHidesOnly(Adds(first + ['\r'] + tail), good) <==> good(tail)
  {
    var line := "+" + (first + ['\r'] + tail);
    OneSegment("+" + first);
    OneSegment(tail);
    assert line == ("+" + first) + ['\r'] + tail;
    SplitFirst("+" + first, '\r', tail, IsLineEnd);
    AddsIff(first, good);
    AddsIff(first + ['\r'] + tail, good);
    var segments := Segments(line);
    assert segments == ["+" + first, tail];
    assert (forall k :: 1 <= k < |segments| ==> good(segments[k])) <==> good(segments[1]);
  }

  lemma OneSegment(line: string)
    requires OneLine(line)
    ensures Segments(line) == [line]
  {
    SplitNone(line, IsLineEnd);
  }

  lemma AddsIff(line: string, good: string -> bool)
    ensures PatchHidesOnly(Adds(line), good) <==> HidesOnly("+" + line, good)
  {
    var h := Adds(line).hunks[0];
    assert "@@" + h.range == "@@" && OneLine("@@");
    OneSegment("@@");
    assert h.lines[0] == "+" + line;
    assert HunkHidesOnly(h, good) <==> HidesOnly("+" + line, good);
  }

  const MARK := "Binary files a and b differ"

  lemma MarkIsAMark()
    ensures OneLine(MARK) && IsBinaryLine(MARK) && !(GIT_HEADER <= MARK)
  {
    assert forall i :: 0 <= i < |MARK| ==> 32 <= MARK[i] as int < 127;
    assert MARK[|MARK| - |" differ"|..] == " differ";
    assert MARK[0] != GIT_HEADER[0];
  }

  /** An added line with a binary mark after a carriage return: the file is reported binary, its counts gone. */
  lemma AnAddedLineHidesItsFile(g: Setting)
    ensures var byPath := CoalesceAll(map[], Blocks(SplitBlocks(PrintAll([Adds("x" + ['\r'] + MARK)], g))), g.env);
            && "f" in byPath
            && FileOf("f", byPath["f"], g.env).binary && FileOf("f", byPath["f"], g.env).additions == None
  {
    var p := Adds("x" + ['\r'] + MARK);
    MarkIsAMark();
    AddsHides("x", MARK, StartsNoBlock);
    AddsHides("x", MARK, MarksNoBinary);
    AddsIsWellFormed("x" + ['\r'] + MARK, g);
    SplitsIff([p], g);
    NamesAreReadIff(p, g);
    CoalesceAlone(PrintPatch(p, g), g.env);
    assert Printed([p], g) == [PrintPatch(p, g)];
  }

  lemma CoalesceAlone(text: string, env: Env)
    ensures CoalesceAll(map[], [text], env) == Coalesce(map[], ScanBlock(text, env), text)
  {
    assert [text][1..] == [];
  }

  /** An added line with a block header after a carriage return: any file, though nobody changed it, can appear. */
  lemma AnAddedLineInventsAFile(path: string, g: Setting)
    requires path != "" && ' ' !in path
    requires Faithful(Side('a', path), g.encode, g.env.utf8) && Faithful(Side('b', path), g.encode, g.env.utf8)
    ensures var p := Adds("x" + ['\r'] + HeaderLine(path, path, g.encode));
            path in CoalesceAll(map[], Blocks(SplitBlocks(PrintAll([p], g))), g.env)
  {
    var header := HeaderLine(path, path, g.encode);
    var front := TextBefore("x" + ['\r'] + header, g);
    EndDoesNotMatter(front + "+x");
    HeaderStandsAlone(path, g);
    Regroup(front, header);
    TwoBlocks(front + "+x" + ['\r'], header + ['\n'], g.env);
  }

  lemma Regroup(front: string, tail: string)
    ensures front + ("+" + ("x" + ['\r'] + tail) + ['\n']) == (front + "+x" + ['\r']) + (tail + ['\n'])
  {}

  /** The second of two blocks has the entry of the path it names, whatever the first is. */
  lemma TwoBlocks(a: string, b: string, env: Env)
    requires GIT_HEADER <= a && EndsLine(a) && !HasStart(a) && GIT_HEADER <= b && EndsLine(b) && !HasStart(b)
    requires IsTruthy(ScanBlock(b, env).path)
    ensures ScanBlock(b, env).path.value in CoalesceAll(map[], Blocks(SplitBlocks(a + b)), env)
  {
    ConcatTwo(a, b);
    SplitConcatIff([a, b]);
    CoalesceTwo(a, b, env);
  }

  lemma PrintedAlone(p: Patch, g: Setting)
    ensures PrintAll([p], g) == PrintPatch(p, g)
  {
    assert Printed([p], g) == [PrintPatch(p, g)];
    assert Concat([PrintPatch(p, g)]) == PrintPatch(p, g) + "";
  }

  /** What is printed before the added line; with a harmless line it is one block. */
  lemma TextBefore(line: string, g: Setting) returns (front: string)
    ensures PrintAll([Adds(line)], g) == front + ("+" + line + ['\n'])
    ensures var text := front + "+x" + ['\n']; GIT_HEADER <= text && !HasStart(text)
  {
    front := Terminated(Preamble(Adds("x"), g) + ["@@"], '\n');
    PrintedAlone(Adds(line), g);
    AddedText(Adds(line), line, g);
    AddedText(Adds("x"), "x", g);
    HarmlessStands(g);
    assert front + ("+" + "x" + ['\n']) == front + "+x" + ['\n'];
  }

  lemma HarmlessStands(g: Setting)
    ensures var harmless := PrintPatch(Adds("x"), g); GIT_HEADER <= harmless && !HasStart(harmless)
  {
    AddsIsWellFormed("x", g);
    AddsHides("x", "", StartsNoBlock);
    PatchStandsIff(Adds("x"), g);
  }

  /** A text that ends its line with a carriage return rather than a line feed has the same starts inside. */
  lemma EndDoesNotMatter(body: string)
    requires GIT_HEADER <= body + ['\n'] && !HasStart(body + ['\n'])
    ensures GIT_HEADER <= body + ['\r'] && EndsLine(body + ['\r']) && !HasStart(body + ['\r'])
  {
    var a, text := body + ['\r'], body + ['\n'];
    assert text == body + ['\n'] + "" && a == body + ['\r'] + "";
    SplitAppend(body, '\n', "", IsLineEnd);
    SplitAppend(body, '\r', "", IsLineEnd);
    assert Segments(a) == Segments(text);
    StartsAreSegments(text);
    StartsAreSegments(a);
    HeaderIsOneLine();
    assert |GIT_HEADER| != |text| by { assert |GIT_HEADER| == |text| ==> GIT_HEADER == text; }
  }

  /** What follows it is a block that names the file. */
  lemma HeaderStandsAlone(path: string, g: Setting)
    requires path != "" && ' ' !in path
    requires Faithful(Side('a', path), g.encode, g.env.utf8) && Faithful(Side('b', path), g.encode, g.env.utf8)
    ensures var b := HeaderLine(path, path, g.encode) + ['\n'];
            && GIT_HEADER <= b && EndsLine(b) && !HasStart(b) && ScanBlock(b, g.env).path == Some(path)
  {
    var header := HeaderLine(path, path, g.encode);
    SpelledShape(Side('a', path), g.encode, g.env.utf8);
    SpelledShape(Side('b', path), g.encode, g.env.utf8);
    PrintableIsOneLine(Spelled(Side('a', path), g.encode));
    PrintableIsOneLine(Spelled(Side('b', path), g.encode));
    HeaderIsOneLine();
    HeaderReadIff(path, path, g.encode, g.env.utf8);
    assert header[0] == 'd' && header[1] == 'i';
    LoneHeader(header, g.env);
  }

  lemma LoneHeader(header: string, env: Env)
    requires OneLine(header) && GIT_HEADER <= header && |header| > 4 && header[0] == 'd' && header[1] == 'i'
    ensures var b := header + ['\n'];
            && GIT_HEADER <= b && EndsLine(b) && !HasStart(b)
            && ScanBlock(b, env) == WithHeader(FRESH_SCAN, header, env)
  {
    var lines := [header];
    assert lines[1..] == [] && Terminated(lines, '\n') == header + ['\n'];
    BlockStandsIff(lines, header + ['\n']);
    assert Without(header, IsNewline) by { assert forall i :: 0 <= i < |header| ==> !IsLineEnd(header[i]); }
    SplitTerminated(lines, '\n', IsNewline);
    SkippedLine(FRESH_SCAN, header, env);
    SkippedLine(FRESH_SCAN, "", env);
    ScanTwo(FRESH_SCAN, header, "", env);
    assert lines + [""] == [header, ""];
  }

  lemma AddedText(p: Patch, line: string, g: Setting)
    requires p == Adds(line)
    ensures PrintPatch(p, g) == Terminated(Preamble(Adds("x"), g) + ["@@"], '\n') + ("+" + line + ['\n'])
  {
    var front := Preamble(p, g) + ["@@"];
    assert Preamble(p, g) == Preamble(Adds("x"), g);
    AddedLines(p, line);
    assert PatchLines(p, g) == front + ["+" + line];
    TerminatedAppend(front, ["+" + line], '\n');
    assert ["+" + line][1..] == [];
    assert Terminated(["+" + line], '\n') == "+" + line + ['\n'] + Terminated([], '\n');
  }

  lemma AddedLines(p: Patch, line: string)
    requires p == Adds(line)
    ensures HunkLines(p.hunks) == ["@@", "+" + line]
  {
    assert p.hunks[1..] == [];
    assert "@@" + p.hunks[0].range == "@@";
  }

  lemma ConcatTwo(a: string, b: string)
    ensures Concat([a, b]) == a + b
  {
    assert [a, b][1..] == [b] && [b][1..] == [];
    assert Concat([b]) == b + "" == b;
  }

  lemma CoalesceTwo(a: string, b: string, env: Env)
    requires ScanBlock(b, env).path.Some? && ScanBlock(b, env).path.value != ""
    ensures ScanBlock(b, env).path.value in CoalesceAll(map[], [a, b], env)
  {
    assert [a, b][1..] == [b] && [b][1..] == [];
    var first := Coalesce(map[], ScanBlock(a, env), a);
    assert CoalesceAll(first, [b], env) == CoalesceAll(Coalesce(first, ScanBlock(b, env), b), [], env);
  }
}
