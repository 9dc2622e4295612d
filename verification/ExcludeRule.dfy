/** `ensureInfoExcludeRule` of the rooted landing host (`rooted-landing-host.c`): append one ignore rule to the
    repository's exclude file unless a line already says it. Every append may stop after part of it was written. */
module ExcludeRule {
  import opened Text

  newtype Byte = b: int | 0 <= b < 256
  type Bytes = seq<Byte>

  const LF: Byte := 10
  const CR: Byte := 13

  predicate IsLF(b: Byte) { b == LF }

  predicate OneLine(rule: Bytes) { rule != [] && LF !in rule && CR !in rule }

  // ----- what a file says -----

  function Lines(file: Bytes): seq<Bytes> { SplitWhere(file, IsLF) }

  /** A line without the carriage return before its end. */
  function Chomp(line: Bytes): Bytes {
    if line != [] && line[|line| - 1] == CR then line[..|line| - 1] else line
  }

  /** How many lines say the rule. */
  function Count(lines: seq<Bytes>, rule: Bytes): nat {
    if lines == [] then 0 else (if Chomp(lines[0]) == rule then 1 else 0) + Count(lines[1..], rule)
  }

  predicate Has(file: Bytes, rule: Bytes) { Count(Lines(file), rule) > 0 }

  // ----- the scan -----

  /** `line_matches` on the bytes from `start` to `end`. */
  predicate LineMatches(file: Bytes, start: nat, end: nat, rule: Bytes)
    requires start <= end <= |file|
  {
    var stop := if end > start && file[end - 1] == CR then end - 1 else end;
    stop - start == |rule| && file[start..stop] == rule
  }

  lemma LineMatchesIsChomp(file: Bytes, start: nat, end: nat, rule: Bytes)
    requires start <= end <= |file|
    ensures LineMatches(file, start, end, rule) <==> Chomp(file[start..end]) == rule
  {
    var line := file[start..end];
    if line != [] && line[|line| - 1] == CR { assert line[..|line| - 1] == file[start..end - 1]; }
  }

  /** A line, and what its line end leaves to say. */
  lemma CountSplit(line: Bytes, rest: Bytes, rule: Bytes)
    requires LF !in line
    ensures Count(Lines(line + [LF] + rest), rule) == (if Chomp(line) == rule then 1 else 0) + Count(Lines(rest), rule)
    ensures Count(Lines(line), rule) == if Chomp(line) == rule then 1 else 0
  {
    SplitFirst(line, LF, rest, IsLF);
    SplitNone(line, IsLF);
  }

  predicate NoLF(file: Bytes, start: nat, end: nat) {
    forall j :: start <= j < end && j < |file| ==> file[j] != LF
  }

  /** A line that begins at `start` or later says the rule. */
  predicate HasFrom(file: Bytes, start: nat, rule: Bytes) { start <= |file| && Has(file[start..], rule) }

  lemma ScanStep(file: Bytes, start: nat, index: nat, rule: Bytes)
    requires start <= index <= |file| && NoLF(file, start, index) && (index == |file| || file[index] == LF)
    ensures HasFrom(file, start, rule) <==> LineMatches(file, start, index, rule) || HasFrom(file, index + 1, rule)
  {
    assert LF !in file[start..index];
    LineMatchesIsChomp(file, start, index, rule);
    if index < |file| {
      assert file[start..] == file[start..index] + [LF] + file[index + 1..];
      CountSplit(file[start..index], file[index + 1..], rule);
    } else {
      assert file[start..] == file[start..index];
      CountSplit(file[start..index], [], rule);
    }
  }

  /** `contains_rule`: walk to every line end, and compare the line that ends there. */
  method ContainsRule(file: Bytes, rule: Bytes) returns (found: bool)
    ensures found <==> Has(file, rule)
  {
    var start := 0;
    var index := 0;
    assert file[0..] == file;
    while index <= |file|
      invariant start <= index <= |file| + 1
      invariant NoLF(file, start, index)
      invariant index == |file| + 1 ==> start == index
      invariant HasFrom(file, 0, rule) <==> HasFrom(file, start, rule)
    {
      if index == |file| || file[index] == LF {
        ScanStep(file, start, index, rule);
        if LineMatches(file, start, index, rule) { return true; }
        start := index + 1;
      }
      index := index + 1;
    }
    return false;
  }

  lemma {:induction false} CountMeans(lines: seq<Bytes>, rule: Bytes)
    ensures Count(lines, rule) > 0 <==> exists line :: line in lines && Chomp(line) == rule
  {
    if lines != [] {
      CountMeans(lines[1..], rule);
      assert lines == [lines[0]] + lines[1..];
    }
  }

  lemma ChompMeans(line: Bytes, rule: Bytes)
    requires OneLine(rule)
    ensures Chomp(line) == rule <==> line == rule || line == rule + [CR]
  {
    assert CR !in rule;
    if line != [] && line[|line| - 1] == CR { assert line == line[..|line| - 1] + [CR]; }
    if line == rule { assert rule[|rule| - 1] in rule; }
  }

  /** A file has a one-line rule exactly if the rule, or the rule and a carriage return, stands somewhere in it between
      line ends or an end of the file. */
  lemma HasMeans(file: Bytes, rule: Bytes)
    requires OneLine(rule)
    ensures Has(file, rule) <==> HasPiece(file, IsLF, 0, rule) || HasPiece(file, IsLF, 0, rule + [CR])
  {
    CountMeans(Lines(file), rule);
    SplitMeans(file, IsLF, rule);
    SplitMeans(file, IsLF, rule + [CR]);
    ChompMeans(rule, rule);
    ChompMeans(rule + [CR], rule);
    if Has(file, rule) {
      var line :| line in Lines(file) && Chomp(line) == rule;
      ChompMeans(line, rule);
    }
  }

  // ----- the append -----

  /** What ends an unended last line. */
  function LineEnd(file: Bytes): Bytes { if file != [] && file[|file| - 1] != LF then [LF] else [] }

  /** What is appended for a missing rule. */
  function Addition(file: Bytes, rule: Bytes): Bytes {
    LineEnd(file) + rule + [LF]
  }

  datatype Outcome = BadRule | AlreadyPresent | Installed | Failed

  /** The file the host appends to. It only ever grows, and `Ensure` runs under the file's lock. */
  class ExcludeFile {
    var bytes: Bytes

    constructor (bytes: Bytes)
      ensures this.bytes == bytes
    {
      this.bytes := bytes;
    }

    /** `write_all`, with room for so many more bytes. */
    method WriteAll(data: Bytes, room: nat) returns (ok: bool, left: nat)
      modifies this
      ensures bytes == old(bytes) + Stored(data, room)
      ensures ok == (room >= |data|) && left == if ok then room - |data| else 0
    {
      bytes := bytes + (if room < |data| then data[..room] else data);
      ok := room >= |data|;
      left := if ok then room - |data| else 0;
    }

    /** The appends for a missing rule, each only if the one before it was stored whole. */
    method Install(rule: Bytes, room: nat) returns (ok: bool)
      modifies this
      ensures bytes == old(bytes) + Stored(Addition(old(bytes), rule), room)
      ensures ok == (room >= |Addition(old(bytes), rule)|)
    {
      ghost var was := bytes;
      ghost var end := LineEnd(bytes);
      var left := room;
      ok := true;
      if |bytes| > 0 && bytes[|bytes| - 1] != LF { ok, left := WriteAll([LF], left); }
      assert bytes == was + Stored(end, room);
      NextWrite(was, end, rule, room);
      if ok { ok, left := WriteAll(rule, left); }
      NextWrite(was, end + rule, [LF], room);
      if ok { ok, left := WriteAll([LF], left); }
    }

    /** `stored` bounds how many bytes the writes get to store, and `synced` tells whether the final sync works. */
    method Ensure(rule: Bytes, stored: nat, synced: bool) returns (outcome: Outcome)
      modifies this
      ensures outcome == OutcomeOf(old(bytes), rule, stored, synced)
      ensures bytes == After(old(bytes), rule, stored)
    {
      if rule == [] || LF in rule || CR in rule { return BadRule; }
      var found := ContainsRule(bytes, rule);
      if found { return AlreadyPresent; }
      var ok := Install(rule, stored);
      return if ok && synced then Installed else Failed;
    }
  }

  /** Writing two parts one after the other, the second only if the first was stored whole. */
  lemma NextWrite(file: Bytes, a: Bytes, b: Bytes, room: nat)
    ensures file + Stored(a + b, room) ==
              if room >= |a| then (file + Stored(a, room)) + Stored(b, room - |a|) else file + Stored(a, room)
  {
    if room >= |a| { assert Stored(a + b, room) == a + Stored(b, room - |a|); }
  }

  function OutcomeOf(file: Bytes, rule: Bytes, stored: nat, synced: bool): Outcome {
    if !OneLine(rule) then BadRule
    else if Has(file, rule) then AlreadyPresent
    else if stored >= |Addition(file, rule)| && synced then Installed
    else Failed
  }

  function Stored(addition: Bytes, stored: nat): Bytes {
    if stored < |addition| then addition[..stored] else addition
  }

  /** The file after a call that managed to store `stored` bytes. */
  function After(file: Bytes, rule: Bytes, stored: nat): Bytes {
    if !OneLine(rule) || Has(file, rule) then file else file + Stored(Addition(file, rule), stored)
  }

  // ----- what a call does to every rule -----

  lemma {:induction false} CountAppend(a: seq<Bytes>, b: seq<Bytes>, rule: Bytes)
    ensures Count(a + b, rule) == Count(a, rule) + Count(b, rule)
    decreases a
  {
    if a == [] {
      assert a + b == b;
    } else {
      assert (a + b)[1..] == a[1..] + b;
      CountAppend(a[1..], b, rule);
    }
  }

  lemma CountJoin(a: Bytes, b: Bytes, rule: Bytes)
    ensures Count(Lines(a + [LF] + b), rule) == Count(Lines(a), rule) + Count(Lines(b), rule)
  {
    SplitAppend(a, LF, b, IsLF);
    CountAppend(Lines(a), Lines(b), rule);
  }

  /** The part of the rule a call got to store. */
  function Written(file: Bytes, rule: Bytes, stored: nat): Bytes {
    if stored <= |LineEnd(file)| then [] else Stored(rule, stored - |LineEnd(file)|)
  }

  /** The rule's own bytes, cut short or with its line end. */
  lemma CountTail(rule: Bytes, room: nat, r: Bytes)
    requires OneLine(rule) && OneLine(r)
    ensures Count(Lines(Stored(rule + [LF], room)), r) == if Stored(rule, room) == r then 1 else 0
  {
    var part := Stored(rule, room);
    assert LF !in part && CR !in part && Chomp(part) == part;
    if room > |rule| {
      CountSplit(rule, [], r);
      assert rule + [LF] + [] == rule + [LF];
      CountSplit([], [], r);
    } else {
      assert Stored(rule + [LF], room) == part;
      CountSplit(part, [], r);
    }
  }

  /** What follows a file whose last line is ended stands on lines of its own. */
  lemma CountAfterEnd(file: Bytes, tail: Bytes, r: Bytes)
    requires LineEnd(file) == [] && r != []
    ensures Count(Lines(file + tail), r) == Count(Lines(file), r) + Count(Lines(tail), r)
  {
    CountSplit([], [], r);
    if file == [] {
      assert file + tail == tail;
    } else {
      var head := file[..|file| - 1];
      assert file == head + [LF] + [] && file + tail == head + [LF] + tail;
      CountJoin(head, [], r);
      CountJoin(head, tail, r);
    }
  }

  lemma AfterUnended(file: Bytes, rule: Bytes, stored: nat)
    requires LineEnd(file) != [] && OneLine(rule) && !Has(file, rule) && stored > 0
    ensures After(file, rule, stored) == file + [LF] + Stored(rule + [LF], stored - 1)
  {
    assert Addition(file, rule) == [LF] + (rule + [LF]);
    NextWrite(file, [LF], rule + [LF], stored);
  }

  /** Beyond what the file already said, a call adds exactly one thing: whatever part of the rule it stored. */
  lemma AppendAddsWhatWasStored(file: Bytes, rule: Bytes, stored: nat, r: Bytes)
    requires OneLine(rule) && !Has(file, rule) && OneLine(r)
    ensures Count(Lines(After(file, rule, stored)), r) ==
              Count(Lines(file), r) + if Written(file, rule, stored) == r then 1 else 0
  {
    if LineEnd(file) == [] {
      assert Addition(file, rule) == rule + [LF];
      CountAfterEnd(file, Stored(rule + [LF], stored), r);
      CountTail(rule, stored, r);
    } else if stored == 0 {
      assert file + [] == file;
    } else {
      AfterUnended(file, rule, stored);
      CountJoin(file, Stored(rule + [LF], stored - 1), r);
      CountTail(rule, stored - 1, r);
    }
  }

  predicate Succeeds(file: Bytes, rule: Bytes, stored: nat, synced: bool) {
    var outcome := OutcomeOf(file, rule, stored, synced); outcome.Installed? || outcome.AlreadyPresent?
  }

  /** A call reports the rule installed exactly if it is one line, was missing, was stored whole on a line of its own
      and was synced; a rule that is no line is refused and one that is there is left, both with nothing written. */
  lemma OutcomeMeans(file: Bytes, rule: Bytes, stored: nat, synced: bool)
    ensures var after, outcome := After(file, rule, stored), OutcomeOf(file, rule, stored, synced);
            && (outcome == BadRule <==> !OneLine(rule))
            && (outcome == AlreadyPresent <==> OneLine(rule) && Has(file, rule))
            && (outcome == Installed <==>
                  && OneLine(rule) && !Has(file, rule) && synced
                  && after == file + (if file == [] || file[|file| - 1] == LF then [] else [LF]) + rule + [LF])
            && (outcome in {BadRule, AlreadyPresent} ==> after == file)
  {
    var end := if file == [] || file[|file| - 1] == LF then [] else [LF];
    assert file + end + rule + [LF] == file + Addition(file, rule);
    if OneLine(rule) && !Has(file, rule) && stored < |Addition(file, rule)| {
      assert |After(file, rule, stored)| < |file + Addition(file, rule)|;
    }
  }

  /** After success, a rule is present if and only if it was before or is the one asked for. */
  lemma SuccessAddsExactlyTheRule(file: Bytes, rule: Bytes, stored: nat, synced: bool, r: Bytes)
    requires Succeeds(file, rule, stored, synced) && OneLine(r)
    ensures Has(After(file, rule, stored), r) <==> Has(file, r) || r == rule
  {
    if !Has(file, rule) {
      AppendAddsWhatWasStored(file, rule, stored, r);
      assert Written(file, rule, stored) == rule;
    }
  }

  /** After any call, failed or not, a rule is present if and only if it was before or is what got stored of the
      one asked for: a torn write can leave a shorter rule nobody asked for. */
  lemma FailureAddsExactlyWhatWasStored(file: Bytes, rule: Bytes, stored: nat, r: Bytes)
    requires OneLine(rule) && !Has(file, rule) && OneLine(r)
    ensures Has(After(file, rule, stored), r) <==> Has(file, r) || r == Written(file, rule, stored)
  {
    AppendAddsWhatWasStored(file, rule, stored, r);
  }

  /** No call loses a byte, and one that follows a success writes nothing. */
  lemma AppendOnlyAndIdempotent(file: Bytes, rule: Bytes, stored: nat, synced: bool, again: nat)
    ensures file <= After(file, rule, stored)
    ensures Succeeds(file, rule, stored, synced) ==>
              var after := After(file, rule, stored);
              After(after, rule, again) == after && OutcomeOf(after, rule, again, synced).AlreadyPresent?
  {
    if Succeeds(file, rule, stored, synced) { SuccessAddsExactlyTheRule(file, rule, stored, synced, rule); }
  }

  // ----- callers one after another under the lock -----

  /** The file after calls for one rule, each storing what it can. */
  function AfterAll(file: Bytes, rule: Bytes, calls: seq<nat>): Bytes
    decreases calls
  {
    if calls == [] then file else AfterAll(After(file, rule, calls[0]), rule, calls[1..])
  }

  /** Callers that take turns add the rule at most once between them, whatever each managed to store. */
  lemma {:induction false} AtMostOnceInTotal(file: Bytes, rule: Bytes, calls: seq<nat>)
    requires OneLine(rule)
    ensures Count(Lines(AfterAll(file, rule, calls)), rule) <=
            Count(Lines(file), rule) + (if Has(file, rule) then 0 else 1)
    decreases calls
  {
    if calls != [] {
      if !Has(file, rule) { AppendAddsWhatWasStored(file, rule, calls[0], rule); }
      AtMostOnceInTotal(After(file, rule, calls[0]), rule, calls[1..]);
    }
  }

  /** Without the lock two callers that both looked first would both append. */
  lemma WithoutTheLockItIsAddedTwice(file: Bytes, rule: Bytes)
    requires OneLine(rule) && !Has(file, rule)
    ensures Count(Lines(file + Addition(file, rule) + Addition(file, rule)), rule) == 2
  {
    var all := |Addition(file, rule)|;
    var first := file + Addition(file, rule);
    AppendAddsWhatWasStored(file, rule, all, rule);
    assert After(file, rule, all) == first && Written(file, rule, all) == rule;
    CountAfterEnd(first, Addition(file, rule), rule);
    CountAddition(file, rule);
  }

  lemma CountAddition(file: Bytes, rule: Bytes)
    requires OneLine(rule)
    ensures Count(Lines(Addition(file, rule)), rule) == 1
  {
    CountTail(rule, |rule| + 1, rule);
    assert Stored(rule + [LF], |rule| + 1) == rule + [LF];
    if LineEnd(file) == [] {
      assert Addition(file, rule) == rule + [LF];
    } else {
      assert Addition(file, rule) == [] + [LF] + (rule + [LF]);
      CountSplit([], rule + [LF], rule);
    }
  }
}
