/** How Git names the files of a patch in its header lines, and exactly when the parser gets a name back. */
module GitHeaders {
  import opened Json
  import opened Text
  import opened GitPaths
  import opened UnifiedDiff

  // ----- Git's spelling -----

  /** A character Git never quotes a name for. */
  predicate IsOrdinary(c: char) { 32 <= c as int < 127 && c != '"' && c != '\\' }

  predicate NeedsQuotes(name: string) { exists i :: 0 <= i < |name| && !IsOrdinary(name[i]) }

  /** A name as it stands in a header line; `encode` gives its UTF-8 bytes. */
  function Spelled(name: string, encode: string -> seq<Byte>): string {
    if NeedsQuotes(name) then Quote(encode(name)) else name
  }

  /** What UTF-8 does for a name that is quoted: decoding undoes encoding, and spaces are kept. */
  ghost predicate Faithful(name: string, encode: string -> seq<Byte>, utf8: seq<Byte> -> string) {
    NeedsQuotes(name) ==> utf8(encode(name)) == name && (32 in encode(name) <==> ' ' in name)
  }

  predicate IsPrintable(c: char) { 32 <= c as int < 127 }

  predicate AllPrintable(s: string) { forall i :: 0 <= i < |s| ==> IsPrintable(s[i]) }

  /** Every double quote is escaped. */
  predicate Escaped(s: string) { forall i :: 0 <= i < |s| && s[i] == '"' ==> i > 0 && s[i - 1] == '\\' }

  lemma QuoteByteShape(b: Byte)
    ensures AllPrintable(QuoteByte(b)) && Escaped(QuoteByte(b))
    ensures ' ' in QuoteByte(b) <==> b == 32
  {
    assert IsPrintable(OctalChar(b / 64)) && IsPrintable(OctalChar(b / 8 % 8)) && IsPrintable(OctalChar(b % 8));
    if b == 32 { assert QuoteByte(b)[0] == ' '; }
  }

  lemma {:induction false} QuoteBytesShape(bytes: seq<Byte>)
    ensures AllPrintable(QuoteBytes(bytes)) && Escaped(QuoteBytes(bytes))
    ensures ' ' in QuoteBytes(bytes) <==> 32 in bytes
  {
    if bytes != [] {
      QuoteByteShape(bytes[0]);
      QuoteBytesShape(bytes[1..]);
      assert bytes == [bytes[0]] + bytes[1..];
    }
  }

  lemma SpelledShape(name: string, encode: string -> seq<Byte>, utf8: seq<Byte> -> string)
    requires name != "" && Faithful(name, encode, utf8)
    ensures var s := Spelled(name, encode);
            && s != "" && AllPrintable(s) && (' ' in s <==> ' ' in name)
            && (if NeedsQuotes(name) then IsQuoted(s) && Escaped(s[1..|s| - 1]) else s == name && '"' !in s)
  {
    if NeedsQuotes(name) {
      var inner := QuoteBytes(encode(name));
      var s := Quote(encode(name));
      QuoteBytesShape(encode(name));
      assert s[1..|s| - 1] == inner;
      assert ' ' in s <==> ' ' in inner by {
        if ' ' in inner { var i :| 0 <= i < |inner| && inner[i] == ' '; assert s[i + 1] == ' '; }
        if ' ' in s { var i :| 0 <= i < |s| && s[i] == ' '; assert inner[i - 1] == ' '; }
      }
    }
  }

  // ----- a name on a line of its own -----

  /** What `unprefix` makes of a spelled name. */
  function Read(name: string): string { StripPrefix(if NeedsQuotes(name) then name else Trim(name)) }

  lemma {:induction false} TrimStartWithin(s: string)
    ensures |TrimStart(s)| <= |s| && forall c :: c in TrimStart(s) ==> c in s
    ensures s != "" && IsSpace(s[0]) ==> TrimStart(s) != s
    ensures TrimStart(s) != "" ==> !IsSpace(TrimStart(s)[0]) && TrimStart(s)[|TrimStart(s)| - 1] == s[|s| - 1]
  {
    if s != "" && IsSpace(s[0]) { TrimStartWithin(s[1..]); }
  }

  lemma {:induction false} TrimEndWithin(s: string)
    ensures TrimEnd(s) <= s && forall i :: |TrimEnd(s)| <= i < |s| ==> IsSpace(s[i])
    ensures TrimEnd(s) != "" ==> !IsSpace(TrimEnd(s)[|TrimEnd(s)| - 1])
    ensures s != "" && IsSpace(s[|s| - 1]) ==> TrimEnd(s) != s
  {
    if s != "" && IsSpace(s[|s| - 1]) { TrimEndWithin(s[..|s| - 1]); }
  }

  /** Trimming takes characters away exactly if there is white space at an end. */
  lemma TrimWithin(s: string)
    ensures |Trim(s)| <= |s| && forall c :: c in Trim(s) ==> c in s
    ensures s != "" ==> (Trim(s) == s <==> !IsSpace(s[0]) && !IsSpace(s[|s| - 1]))
  {
    TrimStartWithin(s);
    TrimEndWithin(TrimStart(s));
    if s != "" && !IsSpace(s[0]) { TrimEndWithin(s); }
  }

  lemma ReadIsUnprefix(name: string, tab: string, encode: string -> seq<Byte>, utf8: seq<Byte> -> string)
    requires name != "" && Faithful(name, encode, utf8)
    requires tab == "" || (tab == "\t" && !IsSpace(name[0]))
    ensures Unprefix(Spelled(name, encode) + tab, utf8) == Read(name)
  {
    var s := Spelled(name, encode);
    SpelledShape(name, encode, utf8);
    assert s + "" == s;
    if tab != "" {
      assert (s + tab)[..|s + tab| - 1] == s;
      assert Trim(s + tab) == TrimEnd(s);
    }
    if NeedsQuotes(name) {
      TrimKeeps(s);
      UnquoteUndoesQuote(encode(name));
    } else {
      TrimWithin(name);
    }
  }

  /** The name survives on a line with its diff prefix. */
  predicate KeepsEnd(path: string)
    requires path != ""
  {
    NeedsQuotes(path) || path[|path| - 1] != ' '
  }

  lemma ReadPrefixedIff(side: char, path: string)
    requires (side == 'a' || side == 'b') && path != ""
    ensures Read([side, '/'] + path) == path <==> KeepsEnd(path)
  {
    var name := [side, '/'] + path;
    assert NeedsQuotes(name) <==> NeedsQuotes(path) by {
      if i :| 0 <= i < |path| && !IsOrdinary(path[i]) { assert !IsOrdinary(name[i + 2]); }
      if i :| 0 <= i < |name| && !IsOrdinary(name[i]) { assert name[i] == path[i - 2]; }
    }
    assert name[2..] == path && name[|name| - 1] == path[|path| - 1];
    if !NeedsQuotes(path) {
      assert IsOrdinary(path[|path| - 1]);
      TrimEndWithin(name);
      assert TrimStart(name) == name && !IsSpace(name[1]);
    }
  }

  predicate HasPrefix(path: string) { |path| >= 2 && (path[0] == 'a' || path[0] == 'b') && path[1] == '/' }

  /** The name survives on a `rename` line, which has no diff prefix for `unprefix` to strip. */
  predicate KeepsWhole(path: string)
    requires path != ""
  {
    !HasPrefix(path) && (NeedsQuotes(path) || (path[0] != ' ' && path[|path| - 1] != ' '))
  }

  lemma ReadWholeIff(path: string)
    requires path != ""
    ensures Read(path) == path <==> KeepsWhole(path)
    ensures Read(path) == "" ==> ' ' in path || path[|path| - 1] == '/'
  {
    TrimWithin(path);
    if !NeedsQuotes(path) {
      assert IsOrdinary(path[0]) && IsOrdinary(path[|path| - 1]);
      if ' ' !in path { assert path[0] != ' ' && path[|path| - 1] != ' '; }
    }
  }

  // ----- two names on one line -----

  /** The greedy header split is at the last space that has something on either side. */
  lemma {:induction false} SplitIsLast(s: string, n: nat)
    requires n <= |s|
    ensures var at := SplitSpace(s, n);
            && (at.Some? ==> s[at.value] == ' ' && forall i :: at.value < i < n && i < |s| - 1 ==> s[i] != ' ')
            && (at.None? ==> forall i :: 1 <= i < n && i < |s| - 1 ==> s[i] != ' ')
  {
    if n >= 2 && !(n < |s| && s[n - 1] == ' ') { SplitIsLast(s, n - 1); }
  }

  function HeaderLine(was: string, path: string, encode: string -> seq<Byte>): string {
    GIT_HEADER + (Spelled(['a', '/'] + was, encode) + [' '] + Spelled(['b', '/'] + path, encode))
  }

  /** The header line splits somewhere in the second name, after its last inner space if it has one. */
  lemma HeaderSplits(left: string, right: string) returns (at: nat)
    requires left != "" && |right| >= 2 && AllPrintable(left) && AllPrintable(right)
    ensures HeaderPaths(GIT_HEADER + (left + [' '] + right)).Some?
    ensures at <= |right| && HeaderPaths(GIT_HEADER + (left + [' '] + right)).value.1 == right[at..]
    ensures at == 0 || right[at - 1] == ' '
    ensures forall i :: at <= i < |right| - 1 ==> right[i] != ' '
  {
    var rest := left + [' '] + right;
    var line := GIT_HEADER + rest;
    forall i | 0 <= i < |line| ensures !IsLineEnd(line[i]) {
      if i < |GIT_HEADER| { assert IsPrintable(GIT_HEADER[i]); } else { assert IsPrintable(rest[i - |GIT_HEADER|]); }
    }
    assert line[|GIT_HEADER|..] == rest && rest[|left|] == ' ';
    SplitIsLast(rest, |rest|);
    var split := SplitSpace(rest, |rest|).value;
    at := split - |left|;
    assert rest[split + 1..] == right[at..];
    forall i | at <= i < |right| - 1 ensures right[i] != ' ' { assert rest[|left| + 1 + i] == right[i]; }
    if at > 0 { assert right[at - 1] == rest[split]; }
  }

  /** The second name of a header line is read back exactly if it contains no space: quoting does not protect one. */
  lemma HeaderReadIff(was: string, path: string, encode: string -> seq<Byte>, utf8: seq<Byte> -> string)
    requires was != "" && path != ""
    requires Faithful(['a', '/'] + was, encode, utf8) && Faithful(['b', '/'] + path, encode, utf8)
    ensures HeaderPaths(HeaderLine(was, path, encode)).Some?
    ensures Unprefix(HeaderPaths(HeaderLine(was, path, encode)).value.1, utf8) == path <==> ' ' !in path
  {
    var left, right := Spelled(['a', '/'] + was, encode), Spelled(['b', '/'] + path, encode);
    SpelledShape(['a', '/'] + was, encode, utf8);
    SpelledShape(['b', '/'] + path, encode, utf8);
    assert |right| >= 2;
    var at := HeaderSplits(left, right);
    if ' ' !in path {
      assert ' ' !in ['b', '/'] + path;
      assert at == 0 && right[at..] == right && right + "" == right;
      ReadIsUnprefix(['b', '/'] + path, "", encode, utf8);
      ReadPrefixedIff('b', path);
    } else {
      var i :| 0 <= i < |path| && path[i] == ' ';
      assert (['b', '/'] + path)[i + 2] == ' ';
      SuffixHasNoSpace(right, at, NeedsQuotes(['b', '/'] + path), utf8);
    }
  }

  lemma SuffixHasNoSpace(right: string, at: nat, quoted: bool, utf8: seq<Byte> -> string)
    requires AllPrintable(right) && |right| >= 2 && at <= |right| && (at == 0 || right[at - 1] == ' ')
    requires forall i :: at <= i < |right| - 1 ==> right[i] != ' '
    requires ' ' in right && if quoted then IsQuoted(right) && Escaped(right[1..|right| - 1]) else '"' !in right
    ensures ' ' !in Unprefix(right[at..], utf8)
  {
    var w := right[at..];
    TrimWithin(w);
    assert ' ' !in Trim(w) by {
      if w != "" && w[|w| - 1] == ' ' {
        NoSpaceLeft(w);
      }
    }
    if quoted {
      assert at > 1 && w[|w| - 1] == '"';
      if |w| > 1 {
        var inner := right[1..|right| - 1];
        assert inner[at - 1] == w[0] && inner[at - 2] == ' ' && IsPrintable(right[at]);
      }
      TrimKeeps(w);
    } else {
      assert '"' !in w;
      assert Trim(w) != "" ==> Trim(w)[0] in w;
    }
  }

  /** A text whose only space is its last character has none once trimmed. */
  lemma NoSpaceLeft(w: string)
    requires w != "" && AllPrintable(w) && w[|w| - 1] == ' ' && forall i :: 0 <= i < |w| - 1 ==> w[i] != ' '
    ensures ' ' !in Trim(w)
  {
    if |w| > 1 {
      assert IsPrintable(w[0]);
      assert TrimStart(w) == w;
      TrimEndWithin(w);
    } else {
      assert TrimStart(w) == "" by { assert w[1..] == ""; }
    }
  }
}
