/** The directory of JSON files a store works over, and `ParsedFileCache` (`parsed-file-cache.ts`): a memo of parsed
    files, each hit checked against the file's stamp, the coldest entries dropped beyond the limit. */
module ParsedFileCaches {
  import opened Json

  const LIMIT: nat := 256

  /** A file as it is now; every write gives it a stamp no earlier state of any file had. */
  datatype File<C> = File(content: C, stamp: nat)

  class Directory<C> {
    var files: map<string, File<C>>
    var nextStamp: nat

    ghost predicate Valid()
      reads this
    {
      forall path :: path in files ==> files[path].stamp < nextStamp
    }

    constructor ()
      ensures Valid() && files == map[]
    {
      files, nextStamp := map[], 0;
    }

    /** A whole new file lands at the path (every writer here renames over it). */
    method Replace(path: string, content: C)
      requires Valid()
      modifies this
      ensures Valid() && nextStamp == old(nextStamp) + 1
      ensures files == old(files)[path := File(content, old(nextStamp))]
    {
      files := files[path := File(content, nextStamp)];
      nextStamp := nextStamp + 1;
    }

    method Delete(path: string)
      requires Valid()
      modifies this`files
      ensures Valid() && files == old(files) - {path}
    {
      files := files - {path};
    }
  }

  datatype Entry<T> = Entry(path: string, stamp: nat, value: T)

  predicate Distinct<T>(entries: seq<Entry<T>>) {
    forall i, j :: 0 <= i < j < |entries| ==> entries[i].path != entries[j].path
  }

  /** The entries for other paths, in order. */
  function Without<T(!new)>(entries: seq<Entry<T>>, path: string): (r: seq<Entry<T>>)
    ensures |r| <= |entries|
    ensures forall e :: e in r <==> e in entries && e.path != path
    ensures Distinct(entries) ==> Distinct(r)
  {
    if entries == [] then []
    else if entries[0].path == path then Without(entries[1..], path)
    else
      var rest := Without(entries[1..], path);
      assert forall e :: e in entries <==> e == entries[0] || e in entries[1..];
      [entries[0]] + rest
  }

  function Hottest<T>(entries: seq<Entry<T>>): seq<Entry<T>> {
    if |entries| > LIMIT then entries[|entries| - LIMIT..] else entries
  }

  function Lookup<T(!new)>(entries: seq<Entry<T>>, path: string): (r: Option<Entry<T>>)
    ensures r.None? <==> forall e :: e in entries ==> e.path != path
    ensures r.Some? ==> r.value in entries && r.value.path == path
  {
    if entries == [] then None
    else if entries[0].path == path then Some(entries[0])
    else
      assert forall e :: e in entries <==> e == entries[0] || e in entries[1..];
      Lookup(entries[1..], path)
  }

  lemma {:induction false} LookupIsUnique<T(!new)>(entries: seq<Entry<T>>, e: Entry<T>)
    requires Distinct(entries) && e in entries
    ensures Lookup(entries, e.path) == Some(e)
  {
    if entries[0] != e {
      assert entries[0].path != e.path by {
        var k :| 0 <= k < |entries| && entries[k] == e;
      }
      LookupIsUnique(entries[1..], e);
    }
  }

  /** A stamp: of a file that exists. */
  function StampOf<C>(files: map<string, File<C>>, path: string): Option<nat> {
    if path in files then Some(files[path].stamp) else None
  }

  lemma AppendIsDistinct<T(!new)>(entries: seq<Entry<T>>, e: Entry<T>)
    requires Distinct(entries) && forall d :: d in entries ==> d.path != e.path
    ensures Distinct(entries + [e])
  {
  }

  lemma HottestAreFew<T(!new)>(entries: seq<Entry<T>>)
    requires Distinct(entries)
    ensures Distinct(Hottest(entries)) && |Hottest(entries)| <= LIMIT
    ensures forall e :: e in Hottest(entries) ==> e in entries
  {
  }

  lemma NewestStays<T(!new)>(entries: seq<Entry<T>>, e: Entry<T>)
    requires Distinct(entries + [e])
    ensures Lookup(Hottest(entries + [e]), e.path) == Some(e)
  {
    HottestAreFew(entries + [e]);
    var hottest := Hottest(entries + [e]);
    assert hottest[|hottest| - 1] == e;
    LookupIsUnique(hottest, e);
  }

  /** The eviction loop of `set`. */
  method DropColdest<T>(entries: seq<Entry<T>>) returns (r: seq<Entry<T>>)
    ensures r == Hottest(entries)
  {
    r := entries;
    ghost var k := 0;
    while |r| > LIMIT
      invariant 0 <= k <= |entries| && r == entries[k..]
      invariant k > 0 ==> |r| >= LIMIT
    {
      r := r[1..];
      k := k + 1;
    }
  }

  /** Least recently used first. */
  class ParsedFileCache<C, T(!new)> {
    const dir: Directory<C>
    var entries: seq<Entry<T>>

    ghost predicate Valid()
      reads this, dir
    {
      dir.Valid() && Distinct(entries) && |entries| <= LIMIT
      && forall e :: e in entries ==> e.stamp < dir.nextStamp
    }

    constructor (dir: Directory<C>)
      requires dir.Valid()
      ensures this.dir == dir && entries == [] && Valid()
    {
      this.dir, entries := dir, [];
    }

    /** A hit only if the file is unchanged since `Put`; a stale entry is dropped, a live one becomes the newest. */
    method Get(path: string) returns (value: Option<T>)
      requires Valid()
      modifies this
      ensures Valid()
      ensures value.Some? <==>
                (var hit := old(Lookup(entries, path)); hit.Some? && Some(hit.value.stamp) == StampOf(dir.files, path))
      ensures value.Some? ==> value == Some(old(Lookup(entries, path)).value.value)
                              && entries == Without(old(entries), path) + [old(Lookup(entries, path)).value]
      ensures value.Some? ==> Lookup(entries, path) == old(Lookup(entries, path))
      ensures value.None? ==> Lookup(entries, path).None?
      ensures value.None? ==>
                entries == (if old(Lookup(entries, path)).None? then old(entries) else Without(old(entries), path))
    {
      var entry := Lookup(entries, path);
      if entry.None? { return None; }
      entries := Without(entries, path);
      if Some(entry.value.stamp) != StampOf(dir.files, path) { return None; }
      Shrinks(old(entries), entry.value);
      entries := entries + [entry.value];
      LookupIsUnique(entries, entry.value);
      return Some(entry.value.value);
    }

    lemma {:induction false} Shrinks(all: seq<Entry<T>>, e: Entry<T>)
      requires e in all
      ensures |Without(all, e.path)| < |all|
    {
      if all[0].path != e.path { Shrinks(all[1..], e); }
    }

    /** Memoize a value against the file as it is now, dropping the coldest entries beyond the limit. */
    method Put(path: string, value: T)
      requires Valid()
      modifies this
      ensures Valid()
      ensures entries == if path in dir.files
                         then Hottest(Without(old(entries), path) + [Entry(path, dir.files[path].stamp, value)])
                         else Without(old(entries), path)
      ensures path in dir.files ==> Lookup(entries, path) == Some(Entry(path, dir.files[path].stamp, value))
      ensures forall e :: e in entries ==> e.path == path || e in old(entries)
    {
      var kept := Without(entries, path);
      entries := kept;
      if path !in dir.files { return; }
      var newest := Entry(path, dir.files[path].stamp, value);
      AppendIsDistinct(kept, newest);
      HottestAreFew(kept + [newest]);
      entries := DropColdest(kept + [newest]);
      NewestStays(kept, newest);
    }

    /** The memoized value is edited in place. */
    method Edit(path: string, value: T)
      requires Valid() && Lookup(entries, path).Some?
      modifies this
      ensures Valid() && |entries| == |old(entries)|
      ensures forall i :: 0 <= i < |entries| ==>
                entries[i] == if old(entries)[i].path == path then old(entries)[i].(value := value) else old(entries)[i]
    {
      entries := seq(|entries|, i requires 0 <= i < |entries| reads this =>
                       if entries[i].path == path then entries[i].(value := value) else entries[i]);
    }
  }
}
