/** The JavaScript string operations the Git parsers use. A character stands for one UTF-16 code unit. */
module Text {

  /** `s.split(sep)` for a one-character separator, given as a test. */
  function SplitWhere<T(==)>(s: seq<T>, sep: T -> bool): (parts: seq<seq<T>>)
    ensures parts != []
  {
    if s == [] then [[]]
    else
      var rest := SplitWhere(s[1..], sep);
      if sep(s[0]) then [[]] + rest else [[s[0]] + rest[0]] + rest[1..]
  }

  ghost predicate Without<T>(s: seq<T>, sep: T -> bool) {
    forall i :: 0 <= i < |s| ==> !sep(s[i])
  }

  /** Each line followed by the terminator. */
  function Terminated<T>(lines: seq<seq<T>>, end: T): seq<T> {
    if lines == [] then [] else lines[0] + [end] + Terminated(lines[1..], end)
  }

  lemma {:induction false} SplitFirst<T>(a: seq<T>, end: T, b: seq<T>, sep: T -> bool)
    requires Without(a, sep) && sep(end)
    ensures SplitWhere(a + [end] + b, sep) == [a] + SplitWhere(b, sep)
  {
    var s := a + [end] + b;
    if a == [] {
      assert s[1..] == b;
    } else {
      assert s[1..] == a[1..] + [end] + b;
      SplitFirst(a[1..], end, b, sep);
      assert [s[0]] + a[1..] == a;
    }
  }

  lemma {:induction false} SplitNone<T>(s: seq<T>, sep: T -> bool)
    requires Without(s, sep)
    ensures SplitWhere(s, sep) == [s]
  {
    if s != [] {
      SplitNone(s[1..], sep);
      assert [s[0]] + s[1..] == s;
    }
  }

  lemma {:induction false} SplitAppend<T>(a: seq<T>, end: T, b: seq<T>, sep: T -> bool)
    requires sep(end)
    ensures SplitWhere(a + [end] + b, sep) == SplitWhere(a, sep) + SplitWhere(b, sep)
  {
    var s := a + [end] + b;
    if a == [] {
      assert s[1..] == b;
    } else {
      assert s[1..] == a[1..] + [end] + b;
      SplitAppend(a[1..], end, b, sep);
    }
  }

  /** Splitting terminated lines gives them back, then the empty rest. */
  lemma {:induction false} SplitTerminated<T>(lines: seq<seq<T>>, end: T, sep: T -> bool)
    requires sep(end) && forall i :: 0 <= i < |lines| ==> Without(lines[i], sep)
    ensures SplitWhere(Terminated(lines, end), sep) == lines + [[]]
  {
    if lines != [] {
      SplitFirst(lines[0], end, Terminated(lines[1..], end), sep);
      SplitTerminated(lines[1..], end, sep);
    }
  }

  lemma {:induction false} TerminatedAppend<T>(a: seq<seq<T>>, b: seq<seq<T>>, end: T)
    ensures Terminated(a + b, end) == Terminated(a, end) + Terminated(b, end)
  {
    if a == [] {
      assert a + b == b;
    } else {
      assert (a + b)[1..] == a[1..] + b;
      TerminatedAppend(a[1..], b, end);
      assert a[0] + [end] + (Terminated(a[1..], end) + Terminated(b, end)) ==
             (a[0] + [end] + Terminated(a[1..], end)) + Terminated(b, end);
    }
  }

  /** What stands between two separators, or between one and an end, with none inside. */
  ghost predicate IsPiece<T>(s: seq<T>, sep: T -> bool, start: nat, end: nat) {
    && start <= end <= |s| && (start == 0 || sep(s[start - 1])) && (end == |s| || sep(s[end]))
    && forall i :: start <= i < end ==> !sep(s[i])
  }

  ghost predicate HasPiece<T>(s: seq<T>, sep: T -> bool, from: nat, part: seq<T>) {
    exists start: nat, end: nat :: from <= start && IsPiece(s, sep, start, end) && s[start..end] == part
  }

  lemma PieceShifts<T>(s: seq<T>, sep: T -> bool, start: nat, end: nat)
    requires s != [] && start <= end < |s|
    ensures IsPiece(s, sep, start + 1, end + 1) <==> (start == 0 ==> sep(s[0])) && IsPiece(s[1..], sep, start, end)
    ensures s[start + 1..end + 1] == s[1..][start..end]
  {
    var rest := s[1..];
    if IsPiece(rest, sep, start, end) {
      assert forall i :: start + 1 <= i < end + 1 ==> s[i] == rest[i - 1];
    }
    if IsPiece(s, sep, start + 1, end + 1) {
      assert forall i :: start <= i < end ==> rest[i] == s[i + 1];
    }
  }

  lemma LaterPieces<T>(s: seq<T>, sep: T -> bool, part: seq<T>)
    requires s != []
    ensures HasPiece(s, sep, 1, part) <==> HasPiece(s[1..], sep, if sep(s[0]) then 0 else 1, part)
  {
    if HasPiece(s, sep, 1, part) {
      var start: nat, end: nat :| 1 <= start && IsPiece(s, sep, start, end) && s[start..end] == part;
      PieceShifts(s, sep, start - 1, end - 1);
    }
    if HasPiece(s[1..], sep, if sep(s[0]) then 0 else 1, part) {
      var start: nat, end: nat :|
        (if sep(s[0]) then 0 else 1) <= start && IsPiece(s[1..], sep, start, end) && s[1..][start..end] == part;
      PieceShifts(s, sep, start, end);
    }
  }

  lemma {:induction false} FirstPart<T>(s: seq<T>, sep: T -> bool)
    ensures var first := SplitWhere(s, sep)[0];
            |first| <= |s| && s[..|first|] == first && IsPiece(s, sep, 0, |first|)
  {
    if s != [] && !sep(s[0]) {
      FirstPart(s[1..], sep);
      var first := SplitWhere(s, sep)[0];
      assert s == [s[0]] + s[1..];
      assert forall i :: 1 <= i < |first| ==> s[i] == s[1..][i - 1];
    }
  }

  lemma {:induction false} LaterParts<T>(s: seq<T>, sep: T -> bool, part: seq<T>)
    ensures part in SplitWhere(s, sep)[1..] <==> HasPiece(s, sep, 1, part)
  {
    if s != [] {
      var rest := SplitWhere(s[1..], sep);
      LaterParts(s[1..], sep, part);
      LaterPieces(s, sep, part);
      if sep(s[0]) {
        FirstPart(s[1..], sep);
        FirstPiece(s[1..], sep, part);
        assert SplitWhere(s, sep)[1..] == rest;
        assert rest == [rest[0]] + rest[1..];
      }
    }
  }

  /** There is one piece at the front. */
  lemma FirstPiece<T>(s: seq<T>, sep: T -> bool, part: seq<T>)
    requires var first := SplitWhere(s, sep)[0];
             |first| <= |s| && s[..|first|] == first && IsPiece(s, sep, 0, |first|)
    ensures HasPiece(s, sep, 0, part) <==> part == SplitWhere(s, sep)[0] || HasPiece(s, sep, 1, part)
  {
    var first := SplitWhere(s, sep)[0];
    if HasPiece(s, sep, 0, part) {
      var start: nat, end: nat :| IsPiece(s, sep, start, end) && s[start..end] == part;
      assert start == 0 ==> end == |first|;
    }
    assert s[0..|first|] == first;
  }

  /** The parts of a split are the pieces between separators. */
  lemma SplitMeans<T>(s: seq<T>, sep: T -> bool, part: seq<T>)
    ensures part in SplitWhere(s, sep) <==> HasPiece(s, sep, 0, part)
  {
    FirstPart(s, sep);
    LaterParts(s, sep, part);
    FirstPiece(s, sep, part);
    var parts := SplitWhere(s, sep);
    assert parts == [parts[0]] + parts[1..];
  }

  /** White space as `trim` removes it. */
  predicate IsSpace(c: char) {
    var u := c as int;
    9 <= u <= 13 || u == 32 || u == 160 || u == 0x1680 || 0x2000 <= u <= 0x200A ||
    u == 0x2028 || u == 0x2029 || u == 0x202F || u == 0x205F || u == 0x3000 || u == 0xFEFF
  }

  function TrimStart(s: string): string {
    if s != "" && IsSpace(s[0]) then TrimStart(s[1..]) else s
  }

  function TrimEnd(s: string): string {
    if s != "" && IsSpace(s[|s| - 1]) then TrimEnd(s[..|s| - 1]) else s
  }

  function Trim(s: string): string { TrimEnd(TrimStart(s)) }

  lemma TrimKeeps(s: string)
    requires s != "" && !IsSpace(s[0]) && !IsSpace(s[|s| - 1])
    ensures Trim(s) == s
  {}

  /** Code-unit order, as `<` on strings. */
  predicate Less(a: string, b: string) {
    if b == "" then false
    else if a == "" then true
    else if a[0] != b[0] then a[0] < b[0]
    else Less(a[1..], b[1..])
  }

  lemma {:induction false} LessIsTotal(a: string, b: string)
    ensures !(Less(a, b) && Less(b, a))
    ensures Less(a, b) || Less(b, a) || a == b
    ensures a == b ==> !Less(a, b)
  {
    if a != "" && b != "" {
      LessIsTotal(a[1..], b[1..]);
      assert a == [a[0]] + a[1..] && b == [b[0]] + b[1..];
    }
  }

  lemma {:induction false} LessIsTransitive(a: string, b: string, c: string)
    requires Less(a, b) && Less(b, c)
    ensures Less(a, c)
  {
    if a != "" && a[0] == b[0] == c[0] {
      LessIsTransitive(a[1..], b[1..], c[1..]);
    }
  }

  /** The bytes of a text in UTF-8; section 3 of RFC 3629. */
  function Utf8(text: string): seq<nat> {
    if text == "" then [] else Utf8Char(text[0]) + Utf8(text[1..])
  }

  function Utf8Char(c: char): seq<nat> {
    var u := c as int;
    if u <= 0x7F then [u]
    else if u <= 0x7FF then [0xC0 + u / 64, 0x80 + u % 64]
    else if u <= 0xFFFF then [0xE0 + u / 4096, 0x80 + u / 64 % 64, 0x80 + u % 64]
    else [0xF0 + u / 262144, 0x80 + u / 4096 % 64, 0x80 + u / 64 % 64, 0x80 + u % 64]
  }

  /** Decimal digits and their value. */
  predicate IsDigit(c: char) { '0' <= c <= '9' }

  function DigitOf(c: char): nat
    requires IsDigit(c)
  {
    c as int - '0' as int
  }

  predicate AllDigits(s: string) { forall i :: 0 <= i < |s| ==> IsDigit(s[i]) }

  function DecimalValue(s: string): nat
    requires AllDigits(s)
  {
    if s == "" then 0 else DecimalValue(s[..|s| - 1]) * 10 + DigitOf(s[|s| - 1])
  }

  function Decimal(n: nat): (s: string)
    ensures s != "" && AllDigits(s)
  {
    var digit := ('0' as int + n % 10) as char;
    if n < 10 then [digit] else Decimal(n / 10) + [digit]
  }

  lemma {:induction false} DecimalRoundTrip(n: nat)
    ensures DecimalValue(Decimal(n)) == n
  {
    var s := Decimal(n);
    if n < 10 {
      assert s[..|s| - 1] == "";
    } else {
      DecimalRoundTrip(n / 10);
      assert s[..|s| - 1] == Decimal(n / 10);
    }
  }
}
