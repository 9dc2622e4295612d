/** Runs of a deterministic machine, and when inserted inputs leave a run undisturbed. */
module Machine {

  function Run<S, I>(step: (S, I) -> S, s: S, inputs: seq<I>): S
    decreases inputs
  {
    if inputs == [] then s else Run(step, step(s, inputs[0]), inputs[1..])
  }

  lemma {:induction false} RunAppend<S, I>(step: (S, I) -> S, s: S, a: seq<I>, b: seq<I>)
    ensures Run(step, s, a + b) == Run(step, Run(step, s, a), b)
    decreases a
  {
    if a == [] {
      assert a + b == b;
    } else {
      assert (a + b)[1..] == a[1..] + b;
      RunAppend(step, step(s, a[0]), a[1..], b);
    }
  }

  lemma RunFirst<S, I>(step: (S, I) -> S, s: S, input: I, rest: seq<I>)
    ensures Run(step, s, [input] + rest) == Run(step, step(s, input), rest)
  {
    assert ([input] + rest)[1..] == rest;
  }

  /** A run written out state by state. */
  lemma {:induction false} RunIsChain<S, I>(step: (S, I) -> S, states: seq<S>, inputs: seq<I>)
    requires |states| == |inputs| + 1
    requires forall i :: 0 <= i < |inputs| ==> states[i + 1] == step(states[i], inputs[i])
    ensures Run(step, states[0], inputs) == states[|inputs|]
    decreases inputs
  {
    if inputs != [] {
      assert states[1] == step(states[0], inputs[0]);
      RunIsChain(step, states[1..], inputs[1..]);
    }
  }

  /** An invariant of every step is an invariant of every run. */
  lemma {:induction false} RunKeeps<S(!new), I(!new)>(step: (S, I) -> S, inv: S -> bool, s: S, inputs: seq<I>)
    requires inv(s)
    requires forall t, i :: inv(t) ==> inv(step(t, i))
    ensures inv(Run(step, s, inputs))
    decreases inputs
  {
    if inputs != [] { RunKeeps(step, inv, step(s, inputs[0]), inputs[1..]); }
  }

  /** An input, or an output, together with whether it is (caused by) an insertion. */
  datatype Tagged<T> = Tagged(item: T, noise: bool)

  function Items<T>(tagged: seq<Tagged<T>>): seq<T> {
    if tagged == [] then [] else [tagged[0].item] + Items(tagged[1..])
  }

  /** The items with the given tag, in order. */
  function Select<T>(tagged: seq<Tagged<T>>, noise: bool): seq<T> {
    if tagged == [] then []
    else if tagged[0].noise == noise then [tagged[0].item] + Select(tagged[1..], noise)
    else Select(tagged[1..], noise)
  }

  function Tag<T>(items: seq<T>, noise: bool): seq<Tagged<T>> {
    if items == [] then [] else [Tagged(items[0], noise)] + Tag(items[1..], noise)
  }

  function Map<A, B>(f: A -> B, items: seq<A>): seq<B> {
    if items == [] then [] else [f(items[0])] + Map(f, items[1..])
  }

  lemma {:induction false} ItemsAppend<T>(a: seq<Tagged<T>>, b: seq<Tagged<T>>)
    ensures Items(a + b) == Items(a) + Items(b)
  {
    if a == [] {
      assert a + b == b;
    } else {
      assert (a + b)[1..] == a[1..] + b;
      ItemsAppend(a[1..], b);
      assert [a[0].item] + (Items(a[1..]) + Items(b)) == ([a[0].item] + Items(a[1..])) + Items(b);
    }
  }

  lemma {:induction false} SelectAppend<T>(a: seq<Tagged<T>>, b: seq<Tagged<T>>, noise: bool)
    ensures Select(a + b, noise) == Select(a, noise) + Select(b, noise)
  {
    if a == [] {
      assert a + b == b;
    } else {
      assert (a + b)[1..] == a[1..] + b;
      SelectAppend(a[1..], b, noise);
      var first := if a[0].noise == noise then [a[0].item] else [];
      assert first + (Select(a[1..], noise) + Select(b, noise)) == (first + Select(a[1..], noise)) + Select(b, noise);
    }
  }

  lemma {:induction false} SelectTag<T>(items: seq<T>, tag: bool, noise: bool)
    ensures Select(Tag(items, tag), noise) == if tag == noise then items else []
    ensures Items(Tag(items, tag)) == items
  {
    if items != [] {
      SelectTag(items[1..], tag, noise);
    }
  }

  lemma LastItem<T>(tagged: seq<Tagged<T>>)
    requires tagged != []
    ensures var last := tagged[|tagged| - 1];
            && Items(tagged) != [] && Items(tagged)[|Items(tagged)| - 1] == last.item
            && Select(tagged, last.noise) != []
            && Select(tagged, last.noise)[|Select(tagged, last.noise)| - 1] == last.item
  {
    var last := tagged[|tagged| - 1];
    assert tagged == tagged[..|tagged| - 1] + [last];
    SelectAppend(tagged[..|tagged| - 1], [last], last.noise);
    ItemsAppend(tagged[..|tagged| - 1], [last]);
    assert [last][1..] == [];
  }

  /** The outputs of a run, each tagged with its cause. */
  function Trace<S, I, O>(step: (S, I) -> S, emitted: (S, I) -> seq<O>, s: S, schedule: seq<Tagged<I>>): seq<Tagged<O>>
    decreases schedule
  {
    if schedule == [] then []
    else Tag(emitted(s, schedule[0].item), schedule[0].noise) +
         Trace(step, emitted, step(s, schedule[0].item), schedule[1..])
  }

  /** Every inserted input is inert at its point of the run. */
  predicate OnlyInert<S, I>(step: (S, I) -> S, inert: (S, I) -> bool, s: S, schedule: seq<Tagged<I>>)
    decreases schedule
  {
    schedule == [] ||
    ((schedule[0].noise ==> inert(s, schedule[0].item)) &&
     OnlyInert(step, inert, step(s, schedule[0].item), schedule[1..]))
  }

  /** `log(s, y)` is state `s` with output history `y`: steps append to the history and never read it. */
  ghost predicate Logs<S(!new), I(!new), O(!new)>(step: (S, I) -> S, emitted: (S, I) -> seq<O>, log: (S, seq<O>) -> S) {
    forall s, y, i :: step(log(s, y), i) == log(step(s, i), y + emitted(s, i))
  }

  /** An inert input outputs its own surfaced form and changes nothing else. */
  ghost predicate Surfaces<S(!new), I(!new), O(!new)>(step: (S, I) -> S, emitted: (S, I) -> seq<O>,
                                                      log: (S, seq<O>) -> S,
                                                      inert: (S, I) -> bool, surfaced: I -> O)
  {
    && (forall s, i | inert(s, i) :: emitted(s, i) == [surfaced(i)])
    && (forall s, i, y | inert(s, i) :: log(step(s, i), y) == log(s, y))
  }

  lemma SplitTrace<S, I, O>(step: (S, I) -> S, emitted: (S, I) -> seq<O>, s: S, schedule: seq<Tagged<I>>, noise: bool)
    requires schedule != []
    ensures var outputs := emitted(s, schedule[0].item);
            var rest := Trace(step, emitted, step(s, schedule[0].item), schedule[1..]);
            && Items(Trace(step, emitted, s, schedule)) == outputs + Items(rest)
            && Select(Trace(step, emitted, s, schedule), noise) ==
               (if schedule[0].noise == noise then outputs else []) + Select(rest, noise)
  {
    var outputs := emitted(s, schedule[0].item);
    SelectAppend(Tag(outputs, schedule[0].noise), Trace(step, emitted, step(s, schedule[0].item), schedule[1..]),
                 noise);
    ItemsAppend(Tag(outputs, schedule[0].noise), Trace(step, emitted, step(s, schedule[0].item), schedule[1..]));
    SelectTag(outputs, schedule[0].noise, noise);
  }

  /** The output history of a run is what its steps emitted. */
  lemma {:induction false} TraceIsOutput<S(!new), I(!new), O(!new)>(
    step: (S, I) -> S, emitted: (S, I) -> seq<O>, log: (S, seq<O>) -> S, s: S, y: seq<O>, schedule: seq<Tagged<I>>)
    requires Logs(step, emitted, log)
    ensures Run(step, log(s, y), Items(schedule)) ==
            log(Run(step, s, Items(schedule)), y + Items(Trace(step, emitted, s, schedule)))
    decreases schedule
  {
    if schedule == [] {
      assert y + [] == y;
    } else {
      var input, rest := schedule[0].item, schedule[1..];
      var next, outputs := step(s, input), emitted(s, input);
      SplitTrace(step, emitted, s, schedule, true);
      RunFirst(step, s, input, Items(rest));
      RunFirst(step, log(s, y), input, Items(rest));
      TraceIsOutput(step, emitted, log, next, y + outputs, rest);
      var later := Items(Trace(step, emitted, next, rest));
      assert y + (outputs + later) == (y + outputs) + later;
    }
  }

  /** Each inert insertion is surfaced once, in order. */
  lemma {:induction false} InsertionsAreSurfaced<S(!new), I(!new), O(!new)>(
    step: (S, I) -> S, emitted: (S, I) -> seq<O>, log: (S, seq<O>) -> S, inert: (S, I) -> bool, surfaced: I -> O,
    s: S, schedule: seq<Tagged<I>>)
    requires Surfaces(step, emitted, log, inert, surfaced)
    requires OnlyInert(step, inert, s, schedule)
    ensures Select(Trace(step, emitted, s, schedule), true) == Map(surfaced, Select(schedule, true))
    decreases schedule
  {
    if schedule != [] {
      SplitTrace(step, emitted, s, schedule, true);
      InsertionsAreSurfaced(step, emitted, log, inert, surfaced, step(s, schedule[0].item), schedule[1..]);
    }
  }

  /** Erasing inert insertions erases exactly their surfaced forms: the clean run reaches the same state and
      outputs what the noisy run outputs on its own account. */
  lemma {:induction false} InsertionsAreErasable<S(!new), I(!new), O(!new)>(
    step: (S, I) -> S, emitted: (S, I) -> seq<O>, log: (S, seq<O>) -> S, inert: (S, I) -> bool, surfaced: I -> O,
    s: S, y: seq<O>, schedule: seq<Tagged<I>>)
    requires Logs(step, emitted, log) && Surfaces(step, emitted, log, inert, surfaced)
    requires OnlyInert(step, inert, s, schedule)
    ensures Run(step, log(s, y), Select(schedule, false)) ==
            log(Run(step, s, Items(schedule)), y + Select(Trace(step, emitted, s, schedule), false))
    decreases schedule
  {
    if schedule == [] {
      assert y + [] == y;
    } else {
      var input, rest := schedule[0].item, schedule[1..];
      var next, outputs := step(s, input), emitted(s, input);
      var later := Select(Trace(step, emitted, next, rest), false);
      var end := Run(step, next, Items(rest));
      assert Run(step, s, Items(schedule)) == end by { RunFirst(step, s, input, Items(rest)); }
      SplitTrace(step, emitted, s, schedule, false);
      if schedule[0].noise {
        InsertionsAreErasable(step, emitted, log, inert, surfaced, next, y, rest);
        assert log(next, y) == log(s, y);
        assert Select(schedule, false) == Select(rest, false);
        assert Select(Trace(step, emitted, s, schedule), false) == later;
      } else {
        InsertionsAreErasable(step, emitted, log, inert, surfaced, next, y + outputs, rest);
        assert step(log(s, y), input) == log(next, y + outputs);
        RunFirst(step, log(s, y), input, Select(rest, false));
        assert y + (outputs + later) == (y + outputs) + later;
      }
    }
  }
}
