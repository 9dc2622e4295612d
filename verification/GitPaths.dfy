/** File statuses, and C-quoted paths in Git's diff headers (`git-range-diff.ts`). */
module GitPaths {
  import opened Json
  import opened Text

  datatype FileStatus = Added | Deleted | Modified | Renamed

  type Byte = b: int | 0 <= b < 256

  /** The UTF-8 bytes of one code unit; each half of a surrogate pair encodes as U+FFFD. */
  function EncodeUnit(c: char): seq<Byte> {
    var u := c as int;
    if u < 0x80 then [u]
    else if u < 0x800 then [0xC0 + u / 64, 0x80 + u % 64]
    else if u < 0x10000 then [0xE0 + u / 4096, 0x80 + u / 64 % 64, 0x80 + u % 64]
    else [0xEF, 0xBF, 0xBD, 0xEF, 0xBF, 0xBD]
  }

  predicate IsOctal(c: char) { '0' <= c <= '7' }

  function OctalDigit(c: char): nat
    requires IsOctal(c)
  {
    c as int - '0' as int
  }

  /** A three-digit octal escape starts at `i`; its byte wraps as a typed array element does. */
  predicate OctalAt(value: string, i: nat) {
    i + 3 <= |value| && IsOctal(value[i]) && IsOctal(value[i + 1]) && IsOctal(value[i + 2])
  }

  function OctalByte(value: string, i: nat): Byte
    requires OctalAt(value, i)
  {
    (OctalDigit(value[i]) * 64 + OctalDigit(value[i + 1]) * 8 + OctalDigit(value[i + 2])) % 256
  }

  /** The named escapes; an escape Git never emits keeps its character. */
  function SimpleEscape(c: char): seq<Byte> {
    if c == 'a' then [7] else if c == 'b' then [8] else if c == 'f' then [12] else if c == 'n' then [10]
    else if c == 'r' then [13] else if c == 't' then [9] else if c == 'v' then [11] else if c == '"' then [34]
    else if c == '\\' then [92] else EncodeUnit(c)
  }

  /** The bytes of a quoted path from position `i` up to the closing quote. */
  function DecodeFrom(value: string, i: nat): seq<Byte>
    decreases |value| - i
  {
    if i + 1 >= |value| then []
    else if value[i] != '\\' then EncodeUnit(value[i]) + DecodeFrom(value, i + 1)
    else if OctalAt(value, i + 1) then [OctalByte(value, i + 1)] + DecodeFrom(value, i + 4)
    else SimpleEscape(value[i + 1]) + DecodeFrom(value, i + 2)
  }

  lemma Reassociate(done: seq<Byte>, part: seq<Byte>, rest: seq<Byte>)
    ensures done + (part + rest) == (done + part) + rest
  {}

  /** `unquoteGitPath`, up to the final UTF-8 decoding. */
  method UnquoteBytes(value: string) returns (bytes: seq<Byte>)
    ensures bytes == DecodeFrom(value, 1)
  {
    bytes := [];
    var i := 1;
    ghost var whole := DecodeFrom(value, 1);
    while i < |value| - 1
      invariant 1 <= i
      invariant bytes + DecodeFrom(value, i) == whole
    {
      var part: seq<Byte>;
      if value[i] != '\\' {
        part := EncodeUnit(value[i]);
        Reassociate(bytes, part, DecodeFrom(value, i + 1));
        bytes := bytes + part;
        i := i + 1;
        continue;
      }
      i := i + 1;
      if OctalAt(value, i) {
        part := [OctalByte(value, i)];
        Reassociate(bytes, part, DecodeFrom(value, i + 3));
        i := i + 2;
      } else {
        part := SimpleEscape(value[i]);
        Reassociate(bytes, part, DecodeFrom(value, i + 1));
      }
      bytes := bytes + part;
      i := i + 1;
    }
    assert bytes + [] == bytes;
  }

  // ----- Git's quoting -----

  function OctalChar(d: nat): char
    requires d < 8
  {
    ('0' as int + d) as char
  }

  function EscapeLetter(b: Byte): Option<char> {
    if b == 7 then Some('a') else if b == 8 then Some('b') else if b == 9 then Some('t') else if b == 10 then Some('n')
    else if b == 11 then Some('v') else if b == 12 then Some('f') else if b == 13 then Some('r')
    else if b == 34 then Some('"') else if b == 92 then Some('\\') else None
  }

  /** Git's `quote_c_style` with the default `core.quotePath`: named escapes, octal for every other control
      byte and for every byte from 0x7F up. */
  function QuoteByte(b: Byte): (q: string)
    ensures |q| > 0
  {
    match EscapeLetter(b)
    case Some(c) => ['\\', c]
    case None =>
      if b < 32 || b >= 127 then ['\\', OctalChar(b / 64), OctalChar(b / 8 % 8), OctalChar(b % 8)] else [b as char]
  }

  function QuoteBytes(bytes: seq<Byte>): string {
    if bytes == [] then "" else QuoteByte(bytes[0]) + QuoteBytes(bytes[1..])
  }

  function Quote(bytes: seq<Byte>): string { "\"" + QuoteBytes(bytes) + "\"" }

  lemma OctalRoundTrip(b: Byte)
    ensures b / 64 * 64 + b / 8 % 8 * 8 + b % 8 == b
  {}

  lemma EscapeRoundTrip(b: Byte)
    ensures EscapeLetter(b).Some? ==> SimpleEscape(EscapeLetter(b).value) == [b] && !IsOctal(EscapeLetter(b).value)
  {}

  lemma DecodePlain(value: string, i: nat, b: Byte)
    requires i + 1 < |value| && value[i] == b as char && 32 <= b < 127 && b != 92
    ensures DecodeFrom(value, i) == [b] + DecodeFrom(value, i + 1)
  {}

  lemma DecodeNamed(value: string, i: nat, b: Byte)
    requires i + 2 < |value| && value[i] == '\\' && EscapeLetter(b) == Some(value[i + 1])
    ensures DecodeFrom(value, i) == [b] + DecodeFrom(value, i + 2)
  {
    EscapeRoundTrip(b);
  }

  lemma DecodeOctal(value: string, i: nat, b: Byte)
    requires i + 4 < |value| && value[i] == '\\' && value[i + 1] == OctalChar(b / 64)
    requires value[i + 2] == OctalChar(b / 8 % 8) && value[i + 3] == OctalChar(b % 8)
    ensures DecodeFrom(value, i) == [b] + DecodeFrom(value, i + 4)
  {
    OctalRoundTrip(b);
    assert OctalByte(value, i + 1) == b;
  }

  predicate StandsAt(q: string, value: string, i: nat) {
    i + |q| < |value| && forall j :: 0 <= j < |q| ==> value[i + j] == q[j]
  }

  lemma FirstFour(q: string, value: string, i: nat)
    requires StandsAt(q, value, i) && q != []
    ensures value[i] == q[0] && (|q| > 1 ==> value[i + 1] == q[1])
    ensures |q| > 3 ==> value[i + 2] == q[2] && value[i + 3] == q[3]
  {
    assert value[i + 0] == q[0];
  }

  /** One quoted byte, wherever it stands, decodes to itself. */
  lemma DecodeOne(value: string, i: nat, b: Byte, n: nat)
    requires StandsAt(QuoteByte(b), value, i) && n == |QuoteByte(b)|
    ensures DecodeFrom(value, i) == [b] + DecodeFrom(value, i + n)
  {
    FirstFour(QuoteByte(b), value, i);
    if EscapeLetter(b).Some? {
      DecodeNamed(value, i, b);
    } else if b < 32 || b >= 127 {
      DecodeOctal(value, i, b);
    } else {
      DecodePlain(value, i, b);
    }
  }

  lemma {:induction false} DecodeRest(value: string, i: nat, bytes: seq<Byte>)
    requires i <= |value| && value[i..] == QuoteBytes(bytes) + "\""
    ensures DecodeFrom(value, i) == bytes
    decreases |bytes|
  {
    if bytes == [] {
      DecodeEnd(value, i);
    } else {
      var q, rest := QuoteByte(bytes[0]), QuoteBytes(bytes[1..]) + "\"";
      SliceAt(value, i, q, rest);
      DecodeOne(value, i, bytes[0], |q|);
      DecodeRest(value, i + |q|, bytes[1..]);
    }
  }

  lemma DecodeEnd(value: string, i: nat)
    requires i <= |value| && |value[i..]| == 1
    ensures DecodeFrom(value, i) == []
  {}

  lemma SliceAt(value: string, i: nat, q: string, rest: string)
    requires i <= |value| && value[i..] == q + rest && rest != ""
    ensures StandsAt(q, value, i) && value[i + |q|..] == rest
  {
    assert value[i..][|q|..] == rest;
    forall j | 0 <= j < |q| ensures value[i + j] == q[j] { assert value[i..][j] == value[i + j]; }
  }

  /** Unquoting undoes Git's quoting, for every byte string. */
  lemma UnquoteUndoesQuote(bytes: seq<Byte>)
    ensures DecodeFrom(Quote(bytes), 1) == bytes
  {
    assert Quote(bytes)[1..] == QuoteBytes(bytes) + "\"";
    DecodeRest(Quote(bytes), 1, bytes);
  }

  // ----- quoting that leaves other scripts as they are -----

  /** With `core.quotePath` off, Git writes whatever is not ASCII as it is. */
  function QuoteRaw(path: string): string {
    if path == "" then "" else QuoteChar(path[0]) + QuoteRaw(path[1..])
  }

  function QuoteChar(c: char): (q: string)
    ensures q != ""
  {
    if c as int < 0x80 then QuoteByte(c as int) else [c]
  }

  /** What the decoder makes of each character. */
  function EncodeAll(path: string): seq<Byte> {
    if path == "" then [] else EncodeUnit(path[0]) + EncodeAll(path[1..])
  }

  lemma DecodeRaw(value: string, i: nat)
    requires i + 1 < |value| && value[i] != '\\'
    ensures DecodeFrom(value, i) == EncodeUnit(value[i]) + DecodeFrom(value, i + 1)
  {}

  lemma DecodeChar(value: string, i: nat, c: char, n: nat)
    requires StandsAt(QuoteChar(c), value, i) && n == |QuoteChar(c)|
    ensures DecodeFrom(value, i) == EncodeUnit(c) + DecodeFrom(value, i + n)
  {
    if c as int < 0x80 {
      DecodeOne(value, i, c as int, n);
    } else {
      FirstFour(QuoteChar(c), value, i);
      DecodeRaw(value, i);
    }
  }

  lemma {:induction false} DecodeRawRest(value: string, i: nat, path: string)
    requires i <= |value| && value[i..] == QuoteRaw(path) + "\""
    ensures DecodeFrom(value, i) == EncodeAll(path)
    decreases |path|
  {
    if path == "" {
      DecodeEnd(value, i);
    } else {
      var q, rest := QuoteChar(path[0]), QuoteRaw(path[1..]) + "\"";
      assert QuoteRaw(path) + "\"" == q + rest;
      SliceAt(value, i, q, rest);
      DecodeChar(value, i, path[0], |q|);
      DecodeRawRest(value, i + |q|, path[1..]);
    }
  }

  lemma {:induction false} EncodeAllIsUtf8Iff(path: string)
    ensures |EncodeAll(path)| >= |Utf8(path)|
    ensures |EncodeAll(path)| == |Utf8(path)| <==> forall i :: 0 <= i < |path| ==> path[i] as int < 0x10000
    ensures EncodeAll(path) == Utf8(path) <==> forall i :: 0 <= i < |path| ==> path[i] as int < 0x10000
  {
    if path != "" {
      EncodeAllIsUtf8Iff(path[1..]);
      assert path == [path[0]] + path[1..];
    }
  }

  /** A path quoted this way comes back exactly if it has no character that JavaScript writes as a surrogate pair:
      each half of one is encoded alone. */
  lemma UnquoteUndoesRawQuoteIff(path: string)
    ensures DecodeFrom("\"" + QuoteRaw(path) + "\"", 1) == Utf8(path) <==>
              forall i :: 0 <= i < |path| ==> path[i] as int < 0x10000
  {
    var value := "\"" + QuoteRaw(path) + "\"";
    assert value[1..] == QuoteRaw(path) + "\"";
    DecodeRawRest(value, 1, path);
    EncodeAllIsUtf8Iff(path);
  }

  // ----- the diff prefix -----

  predicate IsQuoted(value: string) {
    |value| >= 2 && value[0] == '"' && value[|value| - 1] == '"'
  }

  function StripPrefix(value: string): string {
    if |value| >= 2 && (value[0] == 'a' || value[0] == 'b') && value[1] == '/' then value[2..] else value
  }

  /** `unprefix`; `utf8` is the decoder applied to the unquoted bytes. */
  function Unprefix(path: string, utf8: seq<Byte> -> string): string {
    var value := Trim(path);
    StripPrefix(if IsQuoted(value) then utf8(DecodeFrom(value, 1)) else value)
  }

  /** A plain path: no white space, so nothing to trim, and no name at all is not a path. */
  predicate IsPlain(path: string) {
    path != "" && forall i :: 0 <= i < |path| ==> !IsSpace(path[i])
  }

  /** Both spellings of a header path, bare and C-quoted, come back as the path itself. */
  lemma UnprefixRecovers(side: char, path: string, bytes: seq<Byte>, utf8: seq<Byte> -> string)
    requires side == 'a' || side == 'b'
    ensures IsPlain(path) ==> Unprefix([side, '/'] + path, utf8) == path
    ensures utf8(bytes) == [side, '/'] + path ==> Unprefix(Quote(bytes), utf8) == path
  {
    var bare := [side, '/'] + path;
    assert bare[2..] == path;
    if IsPlain(path) {
      assert bare[|bare| - 1] == path[|path| - 1];
      TrimKeeps(bare);
    }
    TrimKeeps(Quote(bytes));
    UnquoteUndoesQuote(bytes);
  }
}
