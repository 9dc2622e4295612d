/** `AskLogStore.write` (`ask-log-store.ts`) call by call over a file system that may crash: what is not yet synced
    may come back as anything, and a directory change not yet synced may or may not have happened. */
module DurableReplace {
  import opened Json

  type Name = string
  type Inode = nat

  datatype Node = Node(text: string, synced: bool)

  /** `live` is the directory as processes see it, `durable` as it was last synced. */
  datatype Fs = Fs(nodes: map<Inode, Node>, live: map<Name, Inode>, durable: map<Name, Inode>, next: Inode)

  /** The calls `write` makes, in order; `Writes(n)` is a write that stored the first `n` characters. */
  datatype Call = Opens | Writes(n: nat) | Syncs | Renames | SyncsDirectory

  function Prefix(text: string, n: nat): string { if n < |text| then text[..n] else text }

  predicate Known(fs: Fs) {
    && (forall name :: name in fs.live ==> fs.live[name] in fs.nodes)
    && (forall name :: name in fs.durable ==> fs.durable[name] in fs.nodes)
    && (forall inode :: inode in fs.nodes ==> inode < fs.next)
  }

  /** The descriptor `write` holds is the temporary file's. */
  function Do(fs: Fs, path: Name, tmp: Name, text: string, call: Call): Fs {
    match call
    case Opens =>
      fs.(nodes := fs.nodes[fs.next := Node("", false)], live := fs.live[tmp := fs.next], next := fs.next + 1)
    case Writes(n) =>
      if tmp in fs.live then fs.(nodes := fs.nodes[fs.live[tmp] := Node(Prefix(text, n), false)]) else fs
    case Syncs =>
      if tmp in fs.live && fs.live[tmp] in fs.nodes
      then fs.(nodes := fs.nodes[fs.live[tmp] := fs.nodes[fs.live[tmp]].(synced := true)]) else fs
    case Renames => if tmp in fs.live then fs.(live := (fs.live - {tmp})[path := fs.live[tmp]]) else fs
    case SyncsDirectory => fs.(durable := fs.live)
  }

  /** The first `k` of the calls were made. */
  function After(fs: Fs, path: Name, tmp: Name, text: string, calls: seq<Call>, k: nat): Fs
    requires k <= |calls|
  {
    if k == 0 then fs else Do(After(fs, path, tmp, text, calls, k - 1), path, tmp, text, calls[k - 1])
  }

  function Content(nodes: map<Inode, Node>, directory: map<Name, Inode>, name: Name,
                   junk: Inode -> string): Option<string> {
    if name !in directory || directory[name] !in nodes then None
    else Some(if nodes[directory[name]].synced then nodes[directory[name]].text else junk(directory[name]))
  }

  /** What a reader finds at `name` after a crash: `flushed` tells whether the directory's pending changes made it,
      `junk` what an unsynced file came back as. */
  function AfterCrash(fs: Fs, name: Name, flushed: bool, junk: Inode -> string): Option<string> {
    Content(fs.nodes, if flushed then fs.live else fs.durable, name, junk)
  }

  /** The log is absent, or on disk with its bytes. */
  predicate AtRest(fs: Fs, path: Name) {
    && Known(fs)
    && (path in fs.live <==> path in fs.durable)
    && (path in fs.live ==> fs.live[path] == fs.durable[path] && fs.nodes[fs.live[path]].synced)
  }

  function Read(fs: Fs, path: Name): Option<string> {
    if path in fs.live && fs.live[path] in fs.nodes then Some(fs.nodes[fs.live[path]].text) else None
  }

  function TheWrite(n: nat): (calls: seq<Call>)
    ensures |calls| == 5
  {
    [Opens, Writes(n), Syncs, Renames, SyncsDirectory]
  }

  /** The state between the calls. */
  function StateAt(fs: Fs, path: Name, tmp: Name, text: string, n: nat, k: nat): Fs {
    var i, t := fs.next, Prefix(text, n);
    match k
    case 0 => fs
    case 1 => fs.(nodes := fs.nodes[i := Node("", false)], live := fs.live[tmp := i], next := i + 1)
    case 2 => fs.(nodes := fs.nodes[i := Node(t, false)], live := fs.live[tmp := i], next := i + 1)
    case 3 => fs.(nodes := fs.nodes[i := Node(t, true)], live := fs.live[tmp := i], next := i + 1)
    case 4 => fs.(nodes := fs.nodes[i := Node(t, true)], live := (fs.live - {tmp})[path := i], next := i + 1)
    case _ => fs.(nodes := fs.nodes[i := Node(t, true)], live := (fs.live - {tmp})[path := i], next := i + 1,
                  durable := (fs.live - {tmp})[path := i])
  }

  lemma FileSteps(fs: Fs, path: Name, tmp: Name, text: string, n: nat)
    ensures Do(StateAt(fs, path, tmp, text, n, 1), path, tmp, text, Writes(n)) == StateAt(fs, path, tmp, text, n, 2)
    ensures Do(StateAt(fs, path, tmp, text, n, 2), path, tmp, text, Syncs) == StateAt(fs, path, tmp, text, n, 3)
  {
    var i, t := fs.next, Prefix(text, n);
    assert fs.nodes[i := Node("", false)][i := Node(t, false)] == fs.nodes[i := Node(t, false)];
    assert fs.nodes[i := Node(t, false)][i := Node(t, true)] == fs.nodes[i := Node(t, true)];
  }

  lemma DirectorySteps(fs: Fs, path: Name, tmp: Name, text: string, n: nat)
    ensures Do(fs, path, tmp, text, Opens) == StateAt(fs, path, tmp, text, n, 1)
    ensures Do(StateAt(fs, path, tmp, text, n, 3), path, tmp, text, Renames) == StateAt(fs, path, tmp, text, n, 4)
    ensures Do(StateAt(fs, path, tmp, text, n, 4), path, tmp, text, SyncsDirectory) ==
            StateAt(fs, path, tmp, text, n, 5)
  {
    assert fs.live[tmp := fs.next] - {tmp} == fs.live - {tmp};
  }

  lemma {:induction false} States(fs: Fs, path: Name, tmp: Name, text: string, n: nat, k: nat)
    requires k <= 5
    ensures After(fs, path, tmp, text, TheWrite(n), k) == StateAt(fs, path, tmp, text, n, k)
  {
    if k > 0 {
      States(fs, path, tmp, text, n, k - 1);
      FileSteps(fs, path, tmp, text, n);
      DirectorySteps(fs, path, tmp, text, n);
    }
  }

  /** A crash after any of the calls leaves the whole old log or what the write stored of the new one: the old one
      before the rename, the new one once `write` has returned. */
  lemma CrashKeepsOldOrNew(fs: Fs, path: Name, tmp: Name, text: string, n: nat, k: nat, flushed: bool,
                           junk: Inode -> string)
    requires AtRest(fs, path) && tmp != path && k <= 5
    ensures var found := AfterCrash(After(fs, path, tmp, text, TheWrite(n), k), path, flushed, junk);
            && (found == Read(fs, path) || found == Some(Prefix(text, n)))
            && (k <= 3 ==> found == Read(fs, path))
            && (k == 5 ==> found == Some(Prefix(text, n)))
  {
    States(fs, path, tmp, text, n, k);
  }

  /** So the log is whole, old or new, exactly when the one write call stored all of it: the code does not look at
      how much was written. */
  lemma WholeExactlyWhenFullyWritten(fs: Fs, path: Name, tmp: Name, text: string, n: nat)
    requires AtRest(fs, path) && tmp != path && Read(fs, path) != Some(Prefix(text, n))
    ensures (forall k, flushed, junk :: 0 <= k <= 5 ==>
               var found := AfterCrash(After(fs, path, tmp, text, TheWrite(n), k), path, flushed, junk);
               found == Read(fs, path) || found == Some(text))
            <==> n >= |text|
  {
    forall k, flushed, junk | 0 <= k <= 5 && n >= |text|
      ensures var found := AfterCrash(After(fs, path, tmp, text, TheWrite(n), k), path, flushed, junk);
              found == Read(fs, path) || found == Some(text)
    {
      CrashKeepsOldOrNew(fs, path, tmp, text, n, k, flushed, junk);
    }
    if n < |text| {
      var junk: Inode -> string := _ => "";
      CrashKeepsOldOrNew(fs, path, tmp, text, n, 5, true, junk);
      assert Prefix(text, n) != text;
      var found := AfterCrash(After(fs, path, tmp, text, TheWrite(n), 5), path, true, junk);
      assert found != Read(fs, path) && found != Some(text);
    }
  }

  lemma Unfold(fs: Fs, path: Name, tmp: Name, text: string, calls: seq<Call>)
    requires |calls| == 3
    ensures After(fs, path, tmp, text, calls, 3) ==
              Do(Do(Do(fs, path, tmp, text, calls[0]), path, tmp, text, calls[1]), path, tmp, text, calls[2])
  {
    assert After(fs, path, tmp, text, calls, 0) == fs;
    assert After(fs, path, tmp, text, calls, 1) == Do(fs, path, tmp, text, calls[0]);
    assert After(fs, path, tmp, text, calls, 2) == Do(After(fs, path, tmp, text, calls, 1), path, tmp, text, calls[1]);
  }

  /** Both syncs are needed: without the first, a crash after the rename can leave neither log. */
  lemma WithoutTheFirstSyncACrashTears(fs: Fs, path: Name, tmp: Name, text: string)
    requires AtRest(fs, path) && tmp != path
    ensures exists junk: Inode -> string ::
              var found := AfterCrash(After(fs, path, tmp, text, [Opens, Writes(|text|), Renames], 3), path, true,
                                      junk);
              found != Read(fs, path) && found != Some(text)
  {
    var bad := if Read(fs, path) == Some(text + "?") then text + "??" else text + "?";
    var junk: Inode -> string := _ => bad;
    var calls := [Opens, Writes(|text|), Renames];
    var fs1 := Do(fs, path, tmp, text, Opens);
    var fs2 := Do(fs1, path, tmp, text, Writes(|text|));
    var fs3 := Do(fs2, path, tmp, text, Renames);
    Unfold(fs, path, tmp, text, calls);
    assert bad != text by { assert |bad| > |text|; }
    assert AfterCrash(fs3, path, true, junk) == Some(bad);
  }

  /** Without the second, a log whose append already returned can be lost. */
  lemma WithoutTheSecondSyncAnAppendIsLost(fs: Fs, path: Name, tmp: Name, text: string, junk: Inode -> string)
    requires AtRest(fs, path) && tmp != path
    ensures AfterCrash(After(fs, path, tmp, text, TheWrite(|text|), 4), path, false, junk) == Read(fs, path)
  {
    States(fs, path, tmp, text, |text|, 4);
  }
}
