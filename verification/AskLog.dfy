/** `AskLogStore` (`ask-log-store.ts`): one append-only event log per session, its parse and its fold memoized and
    extended in step with the file. The fold's step is a parameter. */
module AskLog {
  import opened Json
  import opened ParsedFileCaches

  const VERSION: int := 1

  datatype AskEvent<B> = AskEvent(body: B, sessionId: string, seqNo: int)

  /** What a session's file can hold. A missing file is no entry at all. */
  datatype Content<B> = Unreadable | NotJson | BadShape | Document(version: int, events: seq<AskEvent<B>>)

  /** `readState`: a missing file is the honest empty state, everything else that is not trusted is corrupt. */
  datatype State<B> = Absent | Trusted(events: seq<AskEvent<B>>) | Corrupt

  /** Event `i` belongs to the session and carries seq `i`. */
  predicate Stamped<B>(events: seq<AskEvent<B>>, session: string) {
    forall i :: 0 <= i < |events| ==> events[i].sessionId == session && events[i].seqNo == i
  }

  function StateOf<B>(files: map<string, File<Content<B>>>, session: string): State<B> {
    if session !in files then Absent
    else match files[session].content
         case Document(version, events) =>
           if version == VERSION && Stamped(events, session) then Trusted(events) else Corrupt
         case _ => Corrupt
  }

  /** A log is trusted exactly if its file is a document of version 1 whose event `i` has seq `i` and this session's
      id; it is absent only if there is no file, so whatever else is there is corrupt. */
  lemma OnlyStampedLogsAreTrusted<B>(files: map<string, File<Content<B>>>, session: string, events: seq<AskEvent<B>>)
    ensures StateOf(files, session) == Trusted(events) <==>
              && session in files && files[session].content == Document(1, events)
              && forall i :: 0 <= i < |events| ==> events[i].sessionId == session && events[i].seqNo == i
    ensures StateOf(files, session).Absent? <==> session !in files
  {
  }

  /** The events a state is read as. */
  function EventsOf<B>(state: State<B>): seq<AskEvent<B>> {
    if state.Trusted? then state.events else []
  }

  // ----- the fold -----

  function Fold<B, P>(apply: (P, AskEvent<B>) -> P, p: P, events: seq<AskEvent<B>>): P {
    if events == [] then p else Fold(apply, apply(p, events[0]), events[1..])
  }

  lemma {:induction false} FoldAppend<B, P>(apply: (P, AskEvent<B>) -> P, p: P, a: seq<AskEvent<B>>,
                                            b: seq<AskEvent<B>>)
    ensures Fold(apply, p, a + b) == Fold(apply, Fold(apply, p, a), b)
    decreases a
  {
    if a == [] {
      assert a + b == b;
    } else {
      assert (a + b)[1..] == a[1..] + b;
      FoldAppend(apply, apply(p, a[0]), a[1..], b);
    }
  }

  // ----- appending -----

  /** The stamped events of a batch appended after `first` others. */
  function StampAll<B>(bodies: seq<B>, session: string, first: int): (r: seq<AskEvent<B>>)
    ensures |r| == |bodies|
  {
    seq(|bodies|, i requires 0 <= i < |bodies| => AskEvent(bodies[i], session, first + i))
  }

  /** `(events.at(-1)?.seq ?? -1) + 1`. */
  function NextSeq<B>(events: seq<AskEvent<B>>): int {
    (if events == [] then -1 else events[|events| - 1].seqNo) + 1
  }

  /** Appending to a well-stamped log keeps it so, whatever the batch. */
  lemma AppendIsStamped<B>(events: seq<AskEvent<B>>, bodies: seq<B>, session: string)
    requires Stamped(events, session)
    ensures NextSeq(events) == |events|
    ensures Stamped(events + StampAll(bodies, session, NextSeq(events)), session)
  {
  }

  /** The parse of one file and, once anyone asked, its fold. */
  datatype CachedLog<B, P> = CachedLog(events: seq<AskEvent<B>>, projection: Option<P>)

  /** An entry that a read would be answered from holds its file's parse, and its fold if any. */
  ghost predicate Faithful<B(!new), P(!new)>(e: Entry<CachedLog<B, P>>, files: map<string, File<Content<B>>>,
                                             apply: (P, AskEvent<B>) -> P, empty: P)
  {
    StampOf(files, e.path) == Some(e.stamp) ==>
      && StateOf(files, e.path) == Trusted(e.value.events)
      && (e.value.projection.Some? ==> e.value.projection.value == Fold(apply, empty, e.value.events))
  }

  ghost predicate CoherentWith<B(!new), P(!new)>(entries: seq<Entry<CachedLog<B, P>>>,
                                               files: map<string, File<Content<B>>>,
                                                 apply: (P, AskEvent<B>) -> P, empty: P)
  {
    forall e :: e in entries ==> Faithful(e, files, apply, empty)
  }

  /** A put entry that speaks for its file, beside faithful others. */
  lemma PutIsCoherent<B(!new), P(!new)>(was: seq<Entry<CachedLog<B, P>>>, now: seq<Entry<CachedLog<B, P>>>,
                                        files: map<string, File<Content<B>>>,
                                        put: Entry<CachedLog<B, P>>, apply: (P, AskEvent<B>) -> P, empty: P)
    requires CoherentWith(Without(was, put.path), files, apply, empty) && Faithful(put, files, apply, empty)
    requires Distinct(now) && Lookup(now, put.path) == Some(put)
    requires forall e :: e in now ==> e.path == put.path || e in was
    ensures CoherentWith(now, files, apply, empty)
  {
    forall e | e in now ensures Faithful(e, files, apply, empty) {
      if e.path == put.path { LookupIsUnique(now, e); } else { assert e in Without(was, put.path); }
    }
  }

  /** Replacing one file leaves the entries for the others faithful. */
  lemma OthersStayFaithful<B(!new), P(!new)>(entries: seq<Entry<CachedLog<B, P>>>, session: string,
                                             filesWas: map<string, File<Content<B>>>,
                                               files: map<string, File<Content<B>>>,
                                             apply: (P, AskEvent<B>) -> P, empty: P)
    requires CoherentWith(entries, filesWas, apply, empty)
    requires files - {session} == filesWas - {session}
    ensures CoherentWith(Without(entries, session), files, apply, empty)
  {
    forall e | e in Without(entries, session) ensures Faithful(e, files, apply, empty) {
      assert Faithful(e, filesWas, apply, empty);
      assert e.path in files <==> e.path in files - {session};
      assert e.path in filesWas <==> e.path in filesWas - {session};
      if e.path in files {
        assert files[e.path] == (files - {session})[e.path];
        assert filesWas[e.path] == (filesWas - {session})[e.path];
      }
    }
  }

  /** One entry is edited in place into another faithful one. */
  lemma EditIsCoherent<B(!new), P(!new)>(was: seq<Entry<CachedLog<B, P>>>, now: seq<Entry<CachedLog<B, P>>>,
                                         files: map<string, File<Content<B>>>, session: string, edited: CachedLog<B, P>,
                                         apply: (P, AskEvent<B>) -> P, empty: P)
    requires CoherentWith(was, files, apply, empty) && Distinct(was) && |now| == |was|
    requires forall i :: 0 <= i < |was| ==>
               now[i] == if was[i].path == session then was[i].(value := edited) else was[i]
    requires Lookup(was, session).Some? && Faithful(Lookup(was, session).value.(value := edited), files, apply, empty)
    ensures CoherentWith(now, files, apply, empty)
  {
    forall i | 0 <= i < |now| ensures Faithful(now[i], files, apply, empty) {
      assert was[i] in was;
      if was[i].path == session { LookupIsUnique(was, was[i]); }
    }
  }

  datatype Outcome<T> = Ok(value: T) | CorruptLog

  class AskLogStore<B(!new, ==), P(!new)> {
    const apply: (P, AskEvent<B>) -> P
    const empty: P
    const dir: Directory<Content<B>>
    const cache: ParsedFileCache<Content<B>, CachedLog<B, P>>
    var tmpSeq: nat

    ghost predicate Valid()
      reads this, dir, cache
    {
      cache.dir == dir && cache.Valid() && CoherentWith(cache.entries, dir.files, apply, empty)
    }

    ghost function Events(session: string): seq<AskEvent<B>>
      reads dir
    {
      EventsOf(StateOf(dir.files, session))
    }

    constructor (dir: Directory<Content<B>>, apply: (P, AskEvent<B>) -> P, empty: P)
      requires dir.Valid()
      ensures this.dir == dir && this.apply == apply && this.empty == empty && fresh(cache) && Valid()
    {
      this.dir, this.apply, this.empty, tmpSeq := dir, apply, empty, 0;
      cache := new ParsedFileCache(dir);
    }

    /** The contiguity loop of `readState`. */
    method CheckStamps(session: string, events: seq<AskEvent<B>>) returns (trusted: bool)
      ensures trusted <==> Stamped(events, session)
    {
      for i := 0 to |events|
        invariant Stamped(events[..i], session)
      {
        if events[i].sessionId != session || events[i].seqNo != i { return false; }
      }
      assert events[..|events|] == events;
      return true;
    }

    method ReadState(session: string) returns (state: State<B>)
      ensures state == StateOf(dir.files, session)
    {
      if session !in dir.files { return Absent; }
      match dir.files[session].content
      case Document(version, events) =>
        if version != VERSION { return Corrupt; }
        var trusted := CheckStamps(session, events);
        return if trusted then Trusted(events) else Corrupt;
      case _ => return Corrupt;
    }

    /** The state a file holds is memoized with it. */
    method Memoize(session: string, entry: CachedLog<B, P>)
      requires cache.dir == dir && cache.Valid() &&
               CoherentWith(Without(cache.entries, session), dir.files, apply, empty)
      requires session in dir.files && StateOf(dir.files, session) == Trusted(entry.events)
      requires entry.projection.Some? ==> entry.projection.value == Fold(apply, empty, entry.events)
      modifies cache
      ensures Valid() && Lookup(cache.entries, session) == Some(Entry(session, dir.files[session].stamp, entry))
    {
      ghost var was := cache.entries;
      cache.Put(session, entry);
      PutIsCoherent(was, cache.entries, dir.files, Entry(session, dir.files[session].stamp, entry), apply, empty);
    }

    /** The memoized log: the file's own events, parsed only on a miss; a corrupt file is never memoized. */
    method GetLog(session: string) returns (log: Outcome<CachedLog<B, P>>)
      requires Valid()
      modifies cache
      ensures Valid()
      ensures log.CorruptLog? <==> StateOf(dir.files, session).Corrupt?
      ensures log.Ok? ==> log.value.events == Events(session)
      ensures log.Ok? && log.value.projection.Some? ==>
                log.value.projection.value == Fold(apply, empty, Events(session))
      ensures log.Ok? && Lookup(cache.entries, session).Some? ==>
                Lookup(cache.entries, session).value.value == log.value
                && StampOf(dir.files, session) == Some(Lookup(cache.entries, session).value.stamp)
    {
      var hit := cache.Get(session);
      if hit.Some? { return Ok(hit.value); }
      var state := ReadState(session);
      if state.Corrupt? { return CorruptLog; }
      var entry: CachedLog<B, P> := CachedLog(EventsOf(state), None);
      if state.Trusted? {
        OthersStayFaithful(cache.entries, session, dir.files, dir.files, apply, empty);
        Memoize(session, entry);
      }
      return Ok(entry);
    }

    /** The whole log, in append order. */
    method Read(session: string) returns (log: Outcome<seq<AskEvent<B>>>)
      requires Valid()
      modifies cache
      ensures Valid()
      ensures log == if StateOf(dir.files, session).Corrupt? then CorruptLog else Ok(Events(session))
    {
      var cached := GetLog(session);
      return if cached.CorruptLog? then CorruptLog else Ok(cached.value.events);
    }

    /** The projection is the full fold of the events on disk, however it was come by. */
    method ReadProjection(session: string) returns (projection: Outcome<P>)
      requires Valid()
      modifies cache
      ensures Valid()
      ensures projection == if StateOf(dir.files, session).Corrupt? then CorruptLog
                            else Ok(Fold(apply, empty, Events(session)))
    {
      var cached := GetLog(session);
      if cached.CorruptLog? { return CorruptLog; }
      if cached.value.projection.Some? { return Ok(cached.value.projection.value); }
      var p := Fold(apply, empty, cached.value.events);
      if Lookup(cache.entries, session).Some? {
        var edited := CachedLog(cached.value.events, Some(p));
        ghost var was := cache.entries;
        cache.Edit(session, edited);
        EditIsCoherent(was, cache.entries, dir.files, session, edited, apply, empty);
      }
      return Ok(p);
    }

    /** The whole document replaces the file. */
    method Write(session: string, events: seq<AskEvent<B>>)
      requires Valid()
      modifies this`tmpSeq, dir
      ensures cache.Valid() && session in dir.files && dir.files[session].content == Document(VERSION, events)
      ensures dir.files - {session} == old(dir.files) - {session}
      ensures CoherentWith(Without(cache.entries, session), dir.files, apply, empty)
    {
      tmpSeq := tmpSeq + 1;
      ghost var filesWas := dir.files;
      dir.Replace(session, Document(VERSION, events));
      OthersStayFaithful(cache.entries, session, filesWas, dir.files, apply, empty);
    }

    /** Append a batch: every earlier event stays, the new ones follow with the session's id and the next numbers, no
        other session changes, and a corrupt log is refused and left as it is. */
    method AppendMany(session: string, bodies: seq<B>) returns (appended: Outcome<seq<AskEvent<B>>>)
      requires Valid()
      modifies this`tmpSeq, dir, cache
      ensures Valid()
      ensures bodies == [] ==> appended == Ok([]) && dir.files == old(dir.files)
      ensures bodies != [] && old(StateOf(dir.files, session)).Corrupt? ==>
                appended.CorruptLog? && dir.files == old(dir.files)
      ensures bodies != [] && !old(StateOf(dir.files, session)).Corrupt? ==>
                && appended == Ok(StampAll(bodies, session, |old(Events(session))|))
                && StateOf(dir.files, session) == Trusted(old(Events(session)) + appended.value)
                && dir.files - {session} == old(dir.files) - {session}
    {
      if bodies == [] { return Ok([]); }
      var cached := GetLog(session);
      if cached.CorruptLog? { return CorruptLog; }
      var events, projection := cached.value.events, cached.value.projection;
      var batch := StampAll(bodies, session, NextSeq(events));
      AppendIsStamped(events, bodies, session);
      FoldAppend(apply, empty, events, batch);
      Write(session, events + batch);
      Memoize(session,
              CachedLog(events + batch, if projection.None? then None else Some(Fold(apply, projection.value, batch))));
      return Ok(batch);
    }

    method Append(session: string, body: B) returns (appended: Outcome<AskEvent<B>>)
      requires Valid()
      modifies this`tmpSeq, dir, cache
      ensures Valid()
      ensures old(StateOf(dir.files, session)).Corrupt? ==> appended.CorruptLog? && dir.files == old(dir.files)
      ensures !old(StateOf(dir.files, session)).Corrupt? ==>
                && appended == Ok(AskEvent(body, session, |old(Events(session))|))
                && StateOf(dir.files, session) == Trusted(old(Events(session)) + [appended.value])
                && dir.files - {session} == old(dir.files) - {session}
    {
      var batch := AppendMany(session, [body]);
      if batch.CorruptLog? { return CorruptLog; }
      assert batch.value == [batch.value[0]];
      return Ok(batch.value[0]);
    }

    /** Another writer lands a file, trusted or not, or removes one: the store still answers from the disk. */
    method ForeignWrite(session: string, content: Option<Content<B>>)
      requires Valid()
      modifies dir
      ensures Valid()
      ensures content.Some? ==> dir.files == old(dir.files)[session := File(content.value, old(dir.nextStamp))]
      ensures content.None? ==> dir.files == old(dir.files) - {session}
    {
      if content.Some? { dir.Replace(session, content.value); } else { dir.Delete(session); }
    }
  }
}
