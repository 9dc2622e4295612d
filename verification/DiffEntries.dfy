/** What the parser makes of any blocks at all, binary ones included: one entry per path they name. */
module DiffEntries {
  import opened Json
  import opened Text
  import opened GitPaths
  import opened UnifiedDiff

  /** The blocks whose scan names this path, in order. */
  function Own(blocks: seq<string>, path: string, env: Env): seq<string> {
    if blocks == [] then []
    else
      var last := blocks[|blocks| - 1];
      Own(blocks[..|blocks| - 1], path, env) + if ScanBlock(last, env).path == Some(path) then [last] else []
  }

  function AddedIn(own: seq<string>, env: Env): nat {
    if own == [] then 0 else AddedIn(own[..|own| - 1], env) + ScanBlock(own[|own| - 1], env).additions
  }

  function DeletedIn(own: seq<string>, env: Env): nat {
    if own == [] then 0 else DeletedIn(own[..|own| - 1], env) + ScanBlock(own[|own| - 1], env).deletions
  }

  /** The first former path that a block names. */
  function Former(own: seq<string>, env: Env): Option<string> {
    if own == [] then None
    else
      var before := Former(own[..|own| - 1], env);
      if before.Some? then before else ScanBlock(own[|own| - 1], env).previousPath
  }

  /** The texts of the blocks, a line feed between each two. */
  function Texts(own: seq<string>): string
    requires own != []
  {
    if |own| == 1 then own[0] else Texts(own[..|own| - 1]) + "\n" + own[|own| - 1]
  }

  /** The entry for these blocks: the sums of their counts, binary if one of them is, all their texts; one block has
      its own status, several make a modified file. */
  ghost predicate Holds(e: Entry, own: seq<string>, env: Env)
    requires own != []
  {
    && e.additions == AddedIn(own, env) && e.deletions == DeletedIn(own, env)
    && (e.binary <==> exists i :: 0 <= i < |own| && IsBinary(own[i]))
    && e.rawParts == own && e.previousPath == Former(own, env)
    && e.status == if |own| == 1 then ScanBlock(own[0], env).status else Modified
  }

  ghost predicate Entered(byPath: map<string, Entry>, own: seq<string>, q: string, env: Env) {
    && (q in byPath <==> q != "" && own != [])
    && (q in byPath ==> Holds(byPath[q], own, env))
  }

  lemma OwnGrows(blocks: seq<string>, block: string, q: string, env: Env)
    ensures Own(blocks + [block], q, env) ==
            if ScanBlock(block, env).path == Some(q) then Own(blocks, q, env) + [block] else Own(blocks, q, env)
  {
    assert (blocks + [block])[..|blocks|] == blocks;
    assert Own(blocks, q, env) + [] == Own(blocks, q, env);
  }

  lemma HoldsOneMore(e: Entry, own: seq<string>, block: string, env: Env)
    requires own != [] && Holds(e, own, env)
    ensures var s := ScanBlock(block, env);
            Holds(Entry(Modified, Or(e.previousPath, s.previousPath), e.additions + s.additions,
                        e.deletions + s.deletions, e.binary || IsBinary(block), e.rawParts + [block]),
                  own + [block], env)
  {
    var more := own + [block];
    assert more[..|own|] == own && more[|own|] == block;
    assert forall i :: 0 <= i < |own| ==> more[i] == own[i];
  }

  lemma HoldsOne(block: string, env: Env)
    ensures var s := ScanBlock(block, env);
            Holds(Entry(s.status, s.previousPath, s.additions, s.deletions, IsBinary(block), [block]), [block], env)
  {
    assert [block][..0] == [];
    assert [block][0] == block;
  }

  lemma OwnEntryHolds(byPath: map<string, Entry>, own: seq<string>, s: Scan, block: string, q: string, env: Env)
    requires s == ScanBlock(block, env) && s.path == Some(q) && Entered(byPath, own, q, env)
    ensures Entered(Coalesce(byPath, s, block), own + [block], q, env)
  {
    if q != "" {
      if own == [] {
        HoldsOne(block, env);
        assert [] + [block] == [block];
      } else {
        HoldsOneMore(byPath[q], own, block, env);
      }
    }
  }

  lemma OthersStay(byPath: map<string, Entry>, own: seq<string>, s: Scan, block: string, q: string, env: Env)
    requires s.path != Some(q) && Entered(byPath, own, q, env)
    ensures Entered(Coalesce(byPath, s, block), own, q, env)
  {
    var after := Coalesce(byPath, s, block);
    assert (q in after <==> q in byPath) && (q in byPath ==> after[q] == byPath[q]);
  }

  lemma OneMoreIsEntered(byPath: map<string, Entry>, blocks: seq<string>, block: string, q: string, env: Env)
    requires Entered(byPath, Own(blocks, q, env), q, env)
    ensures Entered(Coalesce(byPath, ScanBlock(block, env), block), Own(blocks + [block], q, env), q, env)
  {
    OwnGrows(blocks, block, q, env);
    var own, s := Own(blocks, q, env), ScanBlock(block, env);
    if s.path == Some(q) {
      OwnEntryHolds(byPath, own, s, block, q, env);
    } else {
      OthersStay(byPath, own, s, block, q, env);
    }
  }

  lemma {:induction false} AllAreEntered(
      byPath: map<string, Entry>, seen: seq<string>, blocks: seq<string>, q: string, env: Env)
    requires Entered(byPath, Own(seen, q, env), q, env)
    ensures Entered(CoalesceAll(byPath, blocks, env), Own(seen + blocks, q, env), q, env)
    decreases blocks
  {
    if blocks == [] {
      assert seen + blocks == seen;
    } else {
      OneMoreIsEntered(byPath, seen, blocks[0], q, env);
      AllAreEntered(Coalesce(byPath, ScanBlock(blocks[0], env), blocks[0]), seen + [blocks[0]], blocks[1..], q, env);
      assert (seen + [blocks[0]]) + blocks[1..] == seen + blocks;
    }
  }

  /** Whatever the blocks: a path has an entry exactly if a block names it, and the entry is that of its blocks. */
  lemma EntriesAreOfTheirBlocks(blocks: seq<string>, q: string, env: Env)
    ensures Entered(CoalesceAll(map[], blocks, env), Own(blocks, q, env), q, env)
  {
    AllAreEntered(map[], [], blocks, q, env);
    assert [] + blocks == blocks;
  }

  lemma {:induction false} JoinedTexts(parts: seq<string>, last: string)
    requires parts != []
    ensures JoinParts(parts + [last]) == JoinParts(parts) + "\n" + last
  {
    if |parts| > 1 {
      assert (parts + [last])[1..] == parts[1..] + [last];
      JoinedTexts(parts[1..], last);
      assert parts[0] + "\n" + (JoinParts(parts[1..]) + "\n" + last) ==
             (parts[0] + "\n" + JoinParts(parts[1..])) + "\n" + last;
    } else {
      assert (parts + [last])[1..] == [last];
    }
  }

  lemma {:induction false} JoinIsTexts(own: seq<string>)
    requires own != []
    ensures JoinParts(own) == Texts(own)
  {
    if |own| > 1 {
      var init := own[..|own| - 1];
      assert own == init + [own[|own| - 1]];
      JoinedTexts(init, own[|own| - 1]);
      JoinIsTexts(init);
    }
  }

  /** What a file says of its entry: no counts if it is binary, a former path only if it was renamed, and the text of
      all its blocks as far as it is visible. */
  lemma FileSays(path: string, own: seq<string>, e: Entry, env: Env)
    requires own != [] && Holds(e, own, env)
    ensures var f := FileOf(path, e, env);
            && f.path == path && f.status == e.status && f.binary == e.binary
            && (f.binary ==> f.additions.None? && f.deletions.None?)
            && (!f.binary ==> f.additions == Some(AddedIn(own, env)) && f.deletions == Some(DeletedIn(own, env)))
            && (f.status != Renamed || Former(own, env) == Some("") ==> f.previousPath.None?)
            && (f.status == Renamed && Former(own, env) != Some("") ==> f.previousPath == Former(own, env))
            && f.patch == env.visible(Texts(own))
  {
    JoinIsTexts(own);
  }

  // ----- binary marks -----

  const BINARY_FILES := "Binary files "
  const DIFFER := " differ"

  lemma MarkMeans(line: string)
    ensures IsBinaryLine(line) <==>
              line == "GIT binary patch" || exists names: string :: names != "" && line == BINARY_FILES + names + DIFFER
  {
    var a, b := |BINARY_FILES|, |DIFFER|;
    if names: string :| names != "" && line == BINARY_FILES + names + DIFFER {
      assert line[|line| - b..] == DIFFER;
    }
    if BINARY_FILES <= line && |line| > a + b && line[|line| - b..] == DIFFER {
      var names := line[a..|line| - b];
      assert line == line[..a] + names + line[|line| - b..];
      assert line == BINARY_FILES + names + DIFFER;
    }
  }

  /** A block is binary exactly if between two line ends, or a line end and an end of it, stands Git's patch mark or
      its sentence about two files. */
  lemma BinaryMeans(block: string)
    ensures IsBinary(block) <==>
              || HasPiece(block, IsLineEnd, 0, "GIT binary patch")
              || exists names: string :: names != "" && HasPiece(block, IsLineEnd, 0, BINARY_FILES + names + DIFFER)
  {
    var lines := SplitWhere(block, IsLineEnd);
    SplitMeans(block, IsLineEnd, "GIT binary patch");
    MarkMeans("GIT binary patch");
    if IsBinary(block) {
      var i :| 0 <= i < |lines| && IsBinaryLine(lines[i]);
      MarkMeans(lines[i]);
      if lines[i] != "GIT binary patch" {
        var names: string :| names != "" && lines[i] == BINARY_FILES + names + DIFFER;
        SplitMeans(block, IsLineEnd, BINARY_FILES + names + DIFFER);
      }
    }
    if names: string :| names != "" && HasPiece(block, IsLineEnd, 0, BINARY_FILES + names + DIFFER) {
      SplitMeans(block, IsLineEnd, BINARY_FILES + names + DIFFER);
      MarkMeans(BINARY_FILES + names + DIFFER);
    }
  }
}
