/** `createEventQueue` of `codex-adapter.ts`: an array, a head cursor and a compaction that together are a
    bounded first-in first-out queue between one producer and one consumer. */
module EventQueue {
  import opened Json

  /** The total retained size of a sequence of events. */
  ghost function Total<T>(sizeOf: T -> nat, events: seq<T>): nat {
    if events == [] then 0 else Total(sizeOf, events[..|events| - 1]) + sizeOf(events[|events| - 1])
  }

  lemma TotalPush<T>(sizeOf: T -> nat, events: seq<T>, event: T)
    ensures Total(sizeOf, events + [event]) == Total(sizeOf, events) + sizeOf(event)
  {
    assert (events + [event])[..|events|] == events;
  }

  lemma {:induction false} TotalPop<T>(sizeOf: T -> nat, events: seq<T>)
    requires events != []
    ensures Total(sizeOf, events) == sizeOf(events[0]) + Total(sizeOf, events[1..])
  {
    if |events| == 1 {
      assert events[..0] == [] && events[1..] == [];
    } else {
      TotalPop(sizeOf, events[..|events| - 1]);
      assert events[..|events| - 1][1..] == events[1..][..|events| - 2];
    }
  }

  /** Whether the queue accepts one more event: the occupancy it would reach stays within both ceilings. */
  ghost predicate Fits<T>(sizeOf: T -> nat, maxEvents: nat, maxBytes: nat, unread: seq<T>, event: T) {
    |unread| + 1 <= maxEvents && Total(sizeOf, unread) + sizeOf(event) <= maxBytes
  }

  const COMPACT_AT := 1024

  datatype Entry<T> = Entry(event: T, size: nat)

  /** Undrained slots: each holds an event with its recorded size. */
  ghost predicate Live<T>(sizeOf: T -> nat, entries: seq<Option<Entry<T>>>) {
    forall i :: 0 <= i < |entries| ==> entries[i].Some? && entries[i].value.size == sizeOf(entries[i].value.event)
  }

  ghost function Events<T>(entries: seq<Option<Entry<T>>>): seq<T> {
    if entries == [] then []
    else (if entries[0].Some? then [entries[0].value.event] else []) + Events(entries[1..])
  }

  lemma {:induction false} EventsPush<T>(entries: seq<Option<Entry<T>>>, entry: Entry<T>)
    ensures Events(entries + [Some(entry)]) == Events(entries) + [entry.event]
  {
    if entries == [] {
      assert entries + [Some(entry)] == [Some(entry)] && [Some(entry)][1..] == [];
    } else {
      var longer := entries + [Some(entry)];
      var first := if entries[0].Some? then [entries[0].value.event] else [];
      assert longer[1..] == entries[1..] + [Some(entry)] && longer[0] == entries[0];
      EventsPush(entries[1..], entry);
      assert Events(longer) == first + Events(longer[1..]);
      assert first + (Events(entries[1..]) + [entry.event]) == (first + Events(entries[1..])) + [entry.event];
    }
  }

  lemma {:induction false} EventsCount<T>(sizeOf: T -> nat, entries: seq<Option<Entry<T>>>)
    requires Live(sizeOf, entries)
    ensures |Events(entries)| == |entries|
  {
    if entries != [] { EventsCount(sizeOf, entries[1..]); }
  }

  /** The oldest live slot, and what is left without it. */
  lemma FirstSlot<T>(sizeOf: T -> nat, slots: seq<Option<Entry<T>>>)
    requires Live(sizeOf, slots) && slots != []
    ensures Live(sizeOf, slots[1..])
    ensures Events(slots) == [slots[0].value.event] + Events(slots[1..])
    ensures Total(sizeOf, Events(slots)) == slots[0].value.size + Total(sizeOf, Events(slots[1..]))
  {
    TotalPop(sizeOf, Events(slots));
    assert Events(slots)[1..] == Events(slots[1..]);
  }

  /** What one turn of the consumer's loop does. */
  datatype Poll<T> = Delivered(event: T) | Finished | Waiting

  class Queue<T> {
    const maxEvents: nat
    const maxBytes: nat
    const sizeOf: T -> nat

    var buffer: seq<Option<Entry<T>>>
    var head: nat
    var bufferedBytes: int
    var done: bool
    var overflowed: bool
    /** The consumer is parked on its wake-up promise. */
    var wake: bool

    ghost var accepted: seq<T>
    ghost var delivered: seq<T>

    ghost predicate Valid()
      reads this
    {
      && head < COMPACT_AT && head <= |buffer|
      && (forall i :: 0 <= i < head ==> buffer[i].None?)
      && Live(sizeOf, buffer[head..])
      && bufferedBytes == Total(sizeOf, Unread())
      && accepted == delivered + Unread()
      && (wake ==> Unread() == [] && !done)
    }

    /** The abstract contents: accepted and not yet delivered. */
    ghost function Unread(): seq<T>
      requires head <= |buffer|
      reads this
    {
      Events(buffer[head..])
    }

    constructor (maxEvents: nat, maxBytes: nat, sizeOf: T -> nat)
      ensures Valid()
      ensures this.maxEvents == maxEvents && this.maxBytes == maxBytes && this.sizeOf == sizeOf
      ensures accepted == [] && delivered == [] && Unread() == [] && !done && !overflowed && !wake
    {
      this.maxEvents, this.maxBytes, this.sizeOf := maxEvents, maxBytes, sizeOf;
      buffer, head, bufferedBytes := [], 0, 0;
      done, overflowed, wake := false, false, false;
      accepted, delivered := [], [];
    }

    method Accept(event: T, size: nat)
      requires Valid() && size == sizeOf(event)
      modifies this
      ensures Valid()
      ensures Unread() == old(Unread()) + [event]
      ensures accepted == old(accepted) + [event] && delivered == old(delivered)
      ensures done == old(done) && overflowed == old(overflowed) && !wake
      ensures bufferedBytes == old(bufferedBytes) + sizeOf(event)
    {
      ghost var before := Unread();
      var entry := Some(Entry(event, size));
      TotalPush(sizeOf, before, event);
      EventsPush(buffer[head..], entry.value);
      assert (buffer + [entry])[head..] == buffer[head..] + [entry];
      assert (delivered + before) + [event] == delivered + (before + [event]);
      buffer := buffer + [entry];
      bufferedBytes := bufferedBytes + size;
      wake := false;
      accepted := accepted + [event];
    }

    /** Accepts exactly when the projected occupancy fits; a rejection is flagged and leaves the contents. */
    method Push(event: T) returns (ok: bool)
      requires Valid()
      modifies this
      ensures Valid()
      ensures ok <==> Fits(sizeOf, maxEvents, maxBytes, old(Unread()), event)
      ensures Unread() == old(Unread()) + (if ok then [event] else [])
      ensures accepted == old(accepted) + (if ok then [event] else []) && delivered == old(delivered)
      ensures done == old(done) && overflowed == (old(overflowed) || !ok)
      ensures wake == (old(wake) && !ok)
      ensures bufferedBytes == old(bufferedBytes) + (if ok then sizeOf(event) else 0)
    {
      var size := sizeOf(event);
      EventsCount(sizeOf, buffer[head..]);
      if |buffer| - head + 1 > maxEvents || bufferedBytes + size > maxBytes {
        overflowed := true;
        return false;
      }
      Accept(event, size);
      return true;
    }

    /** Ceiling-exempt acceptance, for the settlement that must always land. */
    method ForcePush(event: T)
      requires Valid()
      modifies this
      ensures Valid()
      ensures Unread() == old(Unread()) + [event]
      ensures accepted == old(accepted) + [event] && delivered == old(delivered)
      ensures done == old(done) && overflowed == old(overflowed) && !wake
      ensures bufferedBytes == old(bufferedBytes) + sizeOf(event)
    {
      var size := sizeOf(event);
      Accept(event, size);
    }

    method Close()
      requires Valid()
      modifies this
      ensures Valid()
      ensures done && !wake && Unread() == old(Unread()) && overflowed == old(overflowed)
      ensures accepted == old(accepted) && delivered == old(delivered) && bufferedBytes == old(bufferedBytes)
    {
      done := true;
      wake := false;
    }

    /** Take the oldest slot, and drop the taken ones once there are enough of them. */
    method Pop() returns (event: T)
      requires Valid() && !wake && head < |buffer|
      modifies this
      ensures Valid()
      ensures accepted == old(accepted) && done == old(done) && overflowed == old(overflowed) && !wake
      ensures old(Unread()) == [event] + Unread() && delivered == old(delivered) + [event]
      ensures bufferedBytes == old(bufferedBytes) - sizeOf(event)
    {
      ghost var slots := buffer[head..];
      FirstSlot(sizeOf, slots);
      var entry := buffer[head].value;
      buffer := buffer[head := None];
      head := head + 1;
      bufferedBytes := bufferedBytes - entry.size;
      assert buffer[head..] == slots[1..];
      if head >= COMPACT_AT {
        buffer := buffer[head..];
        head := 0;
        assert buffer[0..] == slots[1..];
      }
      delivered := delivered + [entry.event];
      assert old(delivered) + ([entry.event] + Unread()) == delivered + Unread();
      return entry.event;
    }

    /** One turn of the consumer: the oldest unread event if there is one; otherwise the end of the stream if
        the queue is closed; otherwise the consumer parks. */
    method Next() returns (r: Poll<T>)
      requires Valid() && !wake
      modifies this
      ensures Valid()
      ensures accepted == old(accepted) && done == old(done) && overflowed == old(overflowed)
      ensures match r
              case Delivered(event) =>
                old(Unread()) == [event] + Unread() && delivered == old(delivered) + [event] && !wake &&
                bufferedBytes == old(bufferedBytes) - sizeOf(event)
              case Finished =>
                old(Unread()) == [] && done && Unread() == [] && delivered == old(delivered) && !wake &&
                bufferedBytes == old(bufferedBytes)
              case Waiting =>
                old(Unread()) == [] && !done && Unread() == [] && delivered == old(delivered) && wake &&
                bufferedBytes == old(bufferedBytes)
    {
      EventsCount(sizeOf, buffer[head..]);
      if head < |buffer| {
        var event := Pop();
        return Delivered(event);
      }
      if done { return Finished; }
      wake := true;
      return Waiting;
    }
  }
}
