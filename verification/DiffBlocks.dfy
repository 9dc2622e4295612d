/** Where a diff splits into blocks, and what a multi-line pattern sees inside one: a line ends at a line feed, but
    also at a carriage return or a Unicode line or paragraph separator. */
module DiffBlocks {
  import opened Json
  import opened Text
  import opened UnifiedDiff

  ghost predicate OneLine(s: string) { Without(s, IsLineEnd) }

  /** The lines of a text as a multi-line pattern sees them. */
  function Segments(s: string): (segments: seq<string>)
    ensures segments != []
  {
    SplitWhere(s, IsLineEnd)
  }

  predicate StartsNoBlock(segment: string) { !(GIT_HEADER <= segment) }

  predicate MarksNoBinary(segment: string) { !IsBinaryLine(segment) }

  predicate AllAre(segments: seq<string>, good: string -> bool) {
    forall k :: 0 <= k < |segments| ==> good(segments[k])
  }

  /** Every segment of the line is good. */
  predicate IsLineOf(line: string, good: string -> bool) { AllAre(Segments(line), good) }

  // ----- block starts -----

  predicate StartsAt(s: string, i: nat)
    requires i < |s|
  {
    IsLineEnd(s[i]) && GIT_HEADER <= s[i + 1..]
  }

  /** A block starts somewhere inside the text. */
  predicate HasStart(s: string) { exists i :: 0 <= i < |s| && StartsAt(s, i) }

  lemma HasStartFirst(s: string)
    requires s != ""
    ensures HasStart(s) <==> StartsAt(s, 0) || HasStart(s[1..])
  {
    if i :| 0 <= i < |s| && StartsAt(s, i) {
      if i > 0 {
        assert s[1..][i - 1 + 1..] == s[i + 1..];
        assert StartsAt(s[1..], i - 1);
      }
    }
    if i :| 0 <= i < |s[1..]| && StartsAt(s[1..], i) {
      assert s[1..][i + 1..] == s[i + 1 + 1..];
      assert StartsAt(s, i + 1);
    }
  }

  /** One line is a prefix of a text exactly if it is one of the text's first segment. */
  lemma {:induction false} FirstSegment(line: string, s: string)
    requires OneLine(line)
    ensures line <= s <==> line <= Segments(s)[0]
    decreases line
  {
    if line != "" && s != "" {
      FirstSegment(line[1..], s[1..]);
      assert line <= s <==> line[0] == s[0] && line[1..] <= s[1..];
      if !IsLineEnd(s[0]) {
        var first := Segments(s)[0];
        assert first == [s[0]] + Segments(s[1..])[0] && first[1..] == Segments(s[1..])[0];
        assert line <= first <==> line[0] == first[0] && line[1..] <= first[1..];
      }
    }
  }

  lemma HeaderIsOneLine()
    ensures OneLine(GIT_HEADER)
  {
    assert forall i :: 0 <= i < |GIT_HEADER| ==> 32 <= GIT_HEADER[i] as int < 127;
  }

  /** The block starts inside a text are the segments after the first that begin with the header. */
  lemma {:induction false} StartsAreSegments(s: string)
    ensures HasStart(s) <==> exists k :: 1 <= k < |Segments(s)| && GIT_HEADER <= Segments(s)[k]
    decreases s
  {
    if s != "" {
      var rest := Segments(s[1..]);
      HasStartFirst(s);
      StartsAreSegments(s[1..]);
      HeaderIsOneLine();
      FirstSegment(GIT_HEADER, s[1..]);
      if IsLineEnd(s[0]) {
        assert Segments(s) == [[]] + rest;
        if k :| 0 <= k < |rest| && GIT_HEADER <= rest[k] { assert GIT_HEADER <= Segments(s)[k + 1]; }
        if k :| 1 <= k < |Segments(s)| && GIT_HEADER <= Segments(s)[k] { assert GIT_HEADER <= rest[k - 1]; }
      } else {
        assert Segments(s) == [[s[0]] + rest[0]] + rest[1..];
        assert forall k :: 1 <= k < |rest| ==> Segments(s)[k] == rest[k];
      }
    }
  }

  // ----- splitting -----

  /** The parts of `text + rest`, given that `text` stays whole: a block in `rest` starts a new part. */
  function Glue(text: string, rest: string, parts: seq<string>): seq<string>
    requires parts != []
  {
    if GIT_HEADER <= rest then [text] + parts else [text + parts[0]] + parts[1..]
  }

  predicate EndsLine(text: string) { text != "" && IsLineEnd(text[|text| - 1]) }

  lemma HeaderStaysWithin(text: string, rest: string)
    requires EndsLine(text)
    ensures GIT_HEADER <= text + rest ==> GIT_HEADER <= text
  {
    HeaderIsOneLine();
    assert (text + rest)[|text| - 1] == text[|text| - 1];
  }

  /** One more character in front of a text that stays whole. */
  lemma SplitPrepend(c: char, later: string, rest: string)
    requires SplitBlocks(later + rest) == Glue(later, rest, SplitBlocks(rest))
    requires !(IsLineEnd(c) && GIT_HEADER <= later + rest)
    ensures SplitBlocks([c] + later + rest) == Glue([c] + later, rest, SplitBlocks(rest))
  {
    var s := [c] + later + rest;
    assert s[0] == c && s[1..] == later + rest;
    assert [c] + (later + SplitBlocks(rest)[0]) == ([c] + later) + SplitBlocks(rest)[0];
  }

  /** Splitting passes over a text with no start inside, to whatever follows it. */
  lemma {:induction false} SplitOverText(text: string, rest: string)
    requires EndsLine(text) && !HasStart(text)
    ensures SplitBlocks(text + rest) == Glue(text, rest, SplitBlocks(rest))
    decreases text
  {
    var later := text[1..];
    if |text| == 1 {
      assert (text + rest)[1..] == rest && text == [text[0]];
    } else {
      HasStartFirst(text);
      SplitOverText(later, rest);
      HeaderStaysWithin(later, rest);
      assert [text[0]] + later == text;
      SplitPrepend(text[0], later, rest);
    }
  }

  /** No part has a start inside it. */
  lemma {:induction false} PartsHaveNoStart(s: string)
    ensures SplitBlocks(s)[0] <= s
    ensures forall k :: 0 <= k < |SplitBlocks(s)| ==> !HasStart(SplitBlocks(s)[k])
    decreases s
  {
    if s != "" {
      var parts, rest := SplitBlocks(s), SplitBlocks(s[1..]);
      PartsHaveNoStart(s[1..]);
      HasStartFirst(parts[0]);
      if IsLineEnd(s[0]) && GIT_HEADER <= s[1..] {
        assert parts[0][1..] == "" && !HasStart("");
      } else {
        assert parts[0][1..] == rest[0];
        assert GIT_HEADER <= rest[0] ==> GIT_HEADER <= s[1..];
      }
    }
  }

  function Concat(texts: seq<string>): string {
    if texts == [] then "" else texts[0] + Concat(texts[1..])
  }

  /** Texts that each begin a block and end a line, put one after another, are what the whole splits into exactly if
      no block starts inside one of them. */
  lemma SplitConcatIff(texts: seq<string>)
    requires texts != [] && forall i :: 0 <= i < |texts| ==> GIT_HEADER <= texts[i] && EndsLine(texts[i])
    ensures SplitBlocks(Concat(texts)) == texts <==> forall i :: 0 <= i < |texts| ==> !HasStart(texts[i])
    ensures Blocks(texts) == texts && GIT_HEADER <= Concat(texts)
  {
    PartsHaveNoStart(Concat(texts));
    AllAreBlocks(texts);
    if forall i :: 0 <= i < |texts| ==> !HasStart(texts[i]) { SplitConcat(texts); }
  }

  lemma {:induction false} AllAreBlocks(texts: seq<string>)
    requires forall i :: 0 <= i < |texts| ==> GIT_HEADER <= texts[i]
    ensures Blocks(texts) == texts
  {
    if texts != [] {
      assert "diff --git" <= GIT_HEADER <= texts[0];
      AllAreBlocks(texts[1..]);
      assert [texts[0]] + texts[1..] == texts;
    }
  }

  lemma {:induction false} SplitConcat(texts: seq<string>)
    requires texts != [] && forall i :: 0 <= i < |texts| ==> GIT_HEADER <= texts[i] && EndsLine(texts[i])
    requires forall i :: 0 <= i < |texts| ==> !HasStart(texts[i])
    ensures SplitBlocks(Concat(texts)) == texts
    decreases texts
  {
    SplitOverText(texts[0], Concat(texts[1..]));
    if |texts| == 1 {
      assert texts[1..] == [] && texts[0] + "" == texts[0] && [texts[0]] == texts;
    } else {
      SplitConcat(texts[1..]);
      assert GIT_HEADER <= texts[1] <= Concat(texts[1..]);
      assert [texts[0]] + texts[1..] == texts;
    }
  }

  // ----- one block of printed lines -----

  function SegmentsOf(lines: seq<string>): seq<string> {
    if lines == [] then [] else Segments(lines[0]) + SegmentsOf(lines[1..])
  }

  lemma {:induction false} SegmentsOfText(lines: seq<string>)
    ensures Segments(Terminated(lines, '\n')) == SegmentsOf(lines) + [""]
  {
    if lines != [] {
      SplitAppend(lines[0], '\n', Terminated(lines[1..], '\n'), IsLineEnd);
      SegmentsOfText(lines[1..]);
    }
  }

  lemma AllAreIff(a: seq<string>, b: seq<string>, good: string -> bool)
    ensures AllAre(a + b, good) <==> AllAre(a, good) && AllAre(b, good)
  {
    assert forall k :: 0 <= k < |a| ==> (a + b)[k] == a[k];
    assert forall k :: 0 <= k < |b| ==> (a + b)[|a| + k] == b[k];
  }

  lemma {:induction false} SegmentsAreIff(lines: seq<string>, good: string -> bool)
    ensures AllAre(SegmentsOf(lines), good) <==> forall i :: 0 <= i < |lines| ==> IsLineOf(lines[i], good)
  {
    if lines != [] {
      var rest := lines[1..];
      SegmentsAreIff(rest, good);
      AllAreIff(Segments(lines[0]), SegmentsOf(rest), good);
      assert forall i :: 0 <= i < |rest| ==> rest[i] == lines[i + 1];
      assert forall i :: 1 <= i < |lines| ==> lines[i] == rest[i - 1];
    }
  }

  /** The lines of one block: first its header line. */
  ghost predicate IsHeaded(lines: seq<string>) {
    lines != [] && OneLine(lines[0]) && GIT_HEADER <= lines[0] && !IsBinaryLine(lines[0])
  }

  /** A printed block stays whole exactly if no line after its header starts a block anywhere in it, and is no binary
      file exactly if none reads as a binary mark anywhere in it. */
  lemma BlockStandsIff(lines: seq<string>, text: string)
    requires IsHeaded(lines) && text == Terminated(lines, '\n')
    ensures !HasStart(text) <==> forall i :: 1 <= i < |lines| ==> IsLineOf(lines[i], StartsNoBlock)
    ensures !IsBinary(text) <==> forall i :: 1 <= i < |lines| ==> IsLineOf(lines[i], MarksNoBinary)
    ensures GIT_HEADER <= text && EndsLine(text)
  {
    BlockSegments(lines);
    TailDecides(lines[0], SegmentsOf(lines[1..]) + [""], text);
    RestDecides(lines, StartsNoBlock);
    RestDecides(lines, MarksNoBinary);
    TextEndsLine(lines);
  }

  lemma BlockSegments(lines: seq<string>)
    requires lines != [] && OneLine(lines[0])
    ensures Segments(Terminated(lines, '\n')) == [lines[0]] + (SegmentsOf(lines[1..]) + [""])
  {
    SegmentsOfText(lines);
    SplitNone(lines[0], IsLineEnd);
  }

  lemma RestDecides(lines: seq<string>, good: string -> bool)
    requires lines != [] && good("")
    ensures AllAre(SegmentsOf(lines[1..]) + [""], good) <==> forall i :: 1 <= i < |lines| ==> IsLineOf(lines[i], good)
  {
    var rest := lines[1..];
    AllAreIff(SegmentsOf(rest), [""], good);
    SegmentsAreIff(rest, good);
    assert forall i :: 0 <= i < |rest| ==> rest[i] == lines[i + 1];
    assert forall i :: 1 <= i < |lines| ==> lines[i] == rest[i - 1];
  }

  lemma {:induction false} TextEndsLine(lines: seq<string>)
    requires lines != []
    ensures EndsLine(Terminated(lines, '\n')) && lines[0] <= Terminated(lines, '\n')
  {
    if |lines| > 1 { TextEndsLine(lines[1..]); }
  }

  lemma TailDecides(header: string, tail: seq<string>, text: string)
    requires Segments(text) == [header] + tail && !IsBinaryLine(header)
    ensures !HasStart(text) <==> AllAre(tail, StartsNoBlock)
    ensures !IsBinary(text) <==> AllAre(tail, MarksNoBinary)
  {
    StartsAreSegments(text);
    assert forall k :: 0 <= k < |tail| ==> Segments(text)[k + 1] == tail[k];
    assert forall k :: 1 <= k < |Segments(text)| ==> Segments(text)[k] == tail[k - 1];
  }
}
