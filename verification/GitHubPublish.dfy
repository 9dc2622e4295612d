/** `publishReview` of the GitHub adapter (`github-publish.ts`): scan the existing reviews page by page for the
    marker, oldest first and at most twenty pages, then post one review if none was found and the head matches. */
module GitHubPublish {
  import opened Json
  import opened Publication
  import Machine

  const PAGES: nat := 20
  const BOUND: nat := 2000

  /** How many reviews come before page `p`: a page holds a hundred. */
  function Before(p: nat): nat { 100 * p }

  datatype Post = Post(head: Oid, marker: Marker)

  // ----- the page loop -----

  datatype Node = Node(remark: Remark, url: Option<string>)

  datatype Page = Page(head: Oid, nodes: seq<Node>, more: bool)

  datatype Scan = Found(node: Node, head: Oid) | Missing(head: Oid) | Threw

  predicate IsMarked(node: Node, marker: Marker) { node.remark.marker == Some(marker) }

  predicate NoneMarked(nodes: seq<Node>, marker: Marker) {
    forall j :: 0 <= j < |nodes| ==> !IsMarked(nodes[j], marker)
  }

  /** The scan read the first `p` pages, found nothing on them, and each promised another. */
  predicate Passed(answers: seq<Option<Page>>, p: nat, marker: Marker) {
    && p <= |answers|
    && forall i :: 0 <= i < p ==>
         answers[i].Some? && answers[i].value.more && NoneMarked(answers[i].value.nodes, marker)
  }

  /** The first marked node of a page, or its length. */
  function IndexOfMarked(nodes: seq<Node>, marker: Marker): (k: nat)
    ensures k <= |nodes| && NoneMarked(nodes[..k], marker) && (k < |nodes| ==> IsMarked(nodes[k], marker))
  {
    if nodes == [] || IsMarked(nodes[0], marker) then 0
    else
      var k := IndexOfMarked(nodes[1..], marker);
      assert forall j :: 0 < j <= k ==> nodes[j] == nodes[1..][j - 1];
      1 + k
  }

  datatype Attempt =
    | Idle
    | Scanning(post: Post, page: nat, seen: Option<Oid>)
    | Posting(post: Post)
    | Failed
    | Finished(post: Post, reused: bool)

  /** What follows a page, given whether the marker was on it and whether there is another. */
  function Decide(post: Post, page: nat, seen: Oid, found: bool, more: bool, hasUrl: bool): Attempt {
    if found then (if hasUrl then Finished(post, true) else Failed)
    else if more && page + 1 < PAGES then Scanning(post, page + 1, Some(seen))
    else if seen == post.head then Posting(post)
    else Failed
  }

  /** What one answer to a page request makes of a scan. */
  function Turn(answer: Option<Page>, post: Post, page: nat, seen: Option<Oid>): Attempt {
    if answer.None? then Failed
    else
      var fetched := answer.value;
      var k := IndexOfMarked(fetched.nodes, post.marker);
      var found := k < |fetched.nodes|;
      Decide(post, page, if seen.Some? then seen.value else fetched.head, found, fetched.more,
             found && fetched.nodes[k].url.Some?)
  }

  /** What a sequence of answers makes of an attempt, as long as it is scanning. */
  function ScanFrom(answers: seq<Option<Page>>, a: Attempt): Attempt
    decreases answers
  {
    if answers == [] || !a.Scanning? then a else ScanFrom(answers[1..], Turn(answers[0], a.post, a.page, a.seen))
  }

  /** What the caller does with the result of a scan: reuse the review, post one if the head matches, or fail. */
  function Next(scan: Scan, post: Post): Attempt {
    match scan
    case Found(_, _) => Finished(post, true)
    case Missing(head) => if head == post.head then Posting(post) else Failed
    case Threw => Failed
  }

  method FirstMarked(nodes: seq<Node>, marker: Marker) returns (k: nat)
    ensures k == IndexOfMarked(nodes, marker)
  {
    k := 0;
    while k < |nodes| && !IsMarked(nodes[k], marker)
      invariant k <= |nodes| && IndexOfMarked(nodes, marker) == k + IndexOfMarked(nodes[k..], marker)
    {
      assert nodes[k..][1..] == nodes[k + 1..];
      k := k + 1;
    }
  }

  /** `answers[p]` is what the forge answers to the p-th page request: a page, or a failure. The scan finds the
      first marked review, and gives up only on the last page or after the twentieth. */
  method FindExistingReview(answers: seq<Option<Page>>, marker: Marker) returns (scan: Scan)
    requires |answers| >= PAGES
    ensures scan.Found? ==>
              exists p, j :: && 0 <= p < PAGES && Passed(answers, p, marker) && answers[p].Some?
                             && 0 <= j < |answers[p].value.nodes| && answers[p].value.nodes[j] == scan.node
                             && IsMarked(scan.node, marker) && NoneMarked(answers[p].value.nodes[..j], marker)
                             && scan.head == answers[p].value.head && scan.node.url.Some?
    ensures scan.Missing? ==>
              && answers[0].Some? && scan.head == answers[0].value.head
              && (Passed(answers, PAGES, marker)
                  || exists p :: && 0 <= p < PAGES && Passed(answers, p, marker) && answers[p].Some?
                                 && NoneMarked(answers[p].value.nodes, marker) && !answers[p].value.more)
    ensures scan.Threw? ==>
              exists p :: && 0 <= p < PAGES && Passed(answers, p, marker)
                          && (answers[p].None? || exists j :: && 0 <= j < |answers[p].value.nodes|
                                                              && IsMarked(answers[p].value.nodes[j], marker)
                                                              && answers[p].value.nodes[j].url.None?)
    ensures forall post: Post :: post.marker == marker ==>
              ScanFrom(answers, Scanning(post, 0, None)) == Next(scan, post)
  {
    var headOid: Option<Oid> := None;
    var page := 0;
    while page < PAGES
      invariant page <= PAGES && Passed(answers, page, marker)
      invariant headOid.Some? <==> page > 0
      invariant headOid.Some? ==> answers[0].Some? && headOid.value == answers[0].value.head
      invariant forall post: Post :: post.marker == marker && page < PAGES ==>
                  ScanFrom(answers, Scanning(post, 0, None)) == ScanFrom(answers[page..], Scanning(post, page, headOid))
      invariant forall post: Post :: post.marker == marker && page == PAGES ==>
                  ScanFrom(answers, Scanning(post, 0, None)) == Next(Missing(headOid.value), post)
    {
      assert answers[page..][1..] == answers[page + 1..];
      if answers[page].None? { return Threw; }
      var fetched := answers[page].value;
      if headOid.None? { headOid := Some(fetched.head); }
      var k := FirstMarked(fetched.nodes, marker);
      if k < |fetched.nodes| {
        if fetched.nodes[k].url.None? { return Threw; }
        return Found(fetched.nodes[k], fetched.head);
      }
      assert fetched.nodes[..k] == fetched.nodes;
      if !fetched.more { return Missing(headOid.value); }
      page := page + 1;
    }
    return Missing(headOid.value);
  }

  // ----- the machine: attempts one after another over a list of reviews that only grows -----

  datatype World = World(reviews: seq<Remark>, head: Oid, nextId: nat, attempt: Attempt, log: seq<Act>)

  datatype Event =
    | Publishes(post: Post)
    | Request(delivery: Delivery, hasUrl: bool)
    | HeadMoves(to: Oid)
    | OthersReview(marker: Option<Marker>)

  predicate Settled(a: Attempt) { a.Idle? || a.Failed? || a.Finished? }

  function Min(a: nat, b: nat): nat { if a <= b then a else b }

  /** The reviews on page `p`, oldest first. */
  function OnPage(reviews: seq<Remark>, p: nat): seq<Remark> {
    reviews[Min(Before(p), |reviews|)..Min(Before(p + 1), |reviews|)]
  }

  /** The reviews on the first `p` pages. */
  function Upto(reviews: seq<Remark>, p: nat): seq<Remark> { reviews[..Min(Before(p), |reviews|)] }

  predicate More(reviews: seq<Remark>, p: nat) { Before(p + 1) < |reviews| }

  function AfterPage(w: World, post: Post, page: nat, seen: Oid, hasUrl: bool): Attempt {
    Decide(post, page, seen, Marked(OnPage(w.reviews, page), post.marker) > 0, More(w.reviews, page), hasUrl)
  }

  function OnAnswer(w: World, hasUrl: bool): World {
    match w.attempt
    case Scanning(post, page, seen) =>
      var head := if seen.Some? then seen.value else w.head;
      w.(log := if seen.Some? then w.log else w.log + [SawHead(w.head)],
         attempt := AfterPage(w, post, page, head, hasUrl))
    case _ => w
  }

  function OnWrite(w: World, heard: bool): World {
    match w.attempt
    case Posting(post) =>
      w.(reviews := w.reviews + [Remark(w.nextId, Some(post.marker))], nextId := w.nextId + 1,
         log := w.log + [Wrote(TheRemark, post.head)], attempt := if heard then Finished(post, false) else Failed)
    case _ => w
  }

  function Step(w: World, e: Event): World {
    match e
    case Publishes(post) =>
      if Settled(w.attempt) then w.(attempt := Scanning(post, 0, None), log := w.log + [Began]) else w
    case Request(delivery, hasUrl) =>
      if Settled(w.attempt) then w
      else if delivery.LostBefore? || (delivery.LostAfter? && !w.attempt.Posting?) then w.(attempt := Failed)
      else if w.attempt.Posting? then OnWrite(w, delivery.Answered? && hasUrl)
      else OnAnswer(w, hasUrl)
    case HeadMoves(to) => w.(head := to)
    case OthersReview(marker) => w.(reviews := w.reviews + [Remark(w.nextId, marker)], nextId := w.nextId + 1)
  }

  function Run(w: World, events: seq<Event>): World { Machine.Run(Step, w, events) }

  // ----- at most one review within the page bound -----

  /** A scan has seen nothing marked so far; an attempt about to post has seen nothing within the bound. */
  predicate Unique(w: World, marker: Marker) {
    && Marked(Upto(w.reviews, PAGES), marker) <= 1
    && (w.attempt.Scanning? && w.attempt.post.marker == marker ==>
          w.attempt.page < PAGES && Before(w.attempt.page) <= |w.reviews| &&
            Marked(Upto(w.reviews, w.attempt.page), marker) == 0)
    && (w.attempt.Posting? && w.attempt.post.marker == marker ==> Marked(Upto(w.reviews, PAGES), marker) == 0)
  }

  lemma UptoGrows(reviews: seq<Remark>, remark: Remark, p: nat)
    ensures Upto(reviews + [remark], p) ==
            if Before(p) <= |reviews| then Upto(reviews, p) else Upto(reviews, p) + [remark]
  {
  }

  lemma UptoNext(reviews: seq<Remark>, p: nat, marker: Marker)
    requires Before(p) <= |reviews|
    ensures Marked(Upto(reviews, p + 1), marker) ==
            Marked(Upto(reviews, p), marker) + Marked(OnPage(reviews, p), marker)
    ensures !More(reviews, p) && p < PAGES ==> Upto(reviews, p + 1) == reviews && Upto(reviews, PAGES) == reviews
  {
    MarkedAppend(Upto(reviews, p), OnPage(reviews, p), marker);
    assert Upto(reviews, p + 1) == Upto(reviews, p) + OnPage(reviews, p);
  }

  lemma GrowthKeepsUnique(w: World, remark: Remark, marker: Marker)
    requires Unique(w, marker) && !(w.attempt.Posting? && w.attempt.post.marker == marker) &&
             remark.marker != Some(marker)
    ensures Unique(w.(reviews := w.reviews + [remark]), marker)
  {
    MarkedGrows(Upto(w.reviews, PAGES), remark, marker);
    UptoGrows(w.reviews, remark, PAGES);
    if w.attempt.Scanning? { UptoGrows(w.reviews, remark, w.attempt.page); }
  }

  lemma GrowthKeepsPosting(reviews: seq<Remark>, remark: Remark, marker: Marker)
    requires Marked(Upto(reviews, PAGES), marker) == 0
    ensures Marked(Upto(reviews + [remark], PAGES), marker) <= 1
    ensures remark.marker != Some(marker) ==> Marked(Upto(reviews + [remark], PAGES), marker) == 0
  {
    MarkedGrows(Upto(reviews, PAGES), remark, marker);
    UptoGrows(reviews, remark, PAGES);
  }

  lemma AnswerKeepsUnique(w: World, hasUrl: bool, marker: Marker)
    requires Unique(w, marker) && w.attempt.Scanning?
    ensures Unique(OnAnswer(w, hasUrl), marker)
  {
    if w.attempt.post.marker == marker {
      UptoNext(w.reviews, w.attempt.page, marker);
    }
  }

  lemma StepKeepsUnique(w: World, e: Event, marker: Marker)
    requires Unique(w, marker) && (e.OthersReview? ==> e.marker != Some(marker))
    ensures Unique(Step(w, e), marker)
  {
    match e
    case OthersReview(other) =>
      var remark := Remark(w.nextId, other);
      if w.attempt.Posting? && w.attempt.post.marker == marker { GrowthKeepsPosting(w.reviews, remark, marker); }
      else { GrowthKeepsUnique(w, remark, marker); }
    case Request(delivery, hasUrl) =>
      if w.attempt.Posting? && !delivery.LostBefore? {
        var remark := Remark(w.nextId, Some(w.attempt.post.marker));
        if w.attempt.post.marker == marker { GrowthKeepsPosting(w.reviews, remark, marker); }
        else { GrowthKeepsUnique(w, remark, marker); }
      } else if w.attempt.Scanning? && delivery.Answered? {
        AnswerKeepsUnique(w, hasUrl, marker);
      }
    case Publishes(_) => assert Upto(w.reviews, 0) == [];
    case _ =>
  }

  predicate OthersLeave(events: seq<Event>, marker: Marker) {
    forall k :: 0 <= k < |events| && events[k].OthersReview? ==> events[k].marker != Some(marker)
  }

  /** However often it is retried and whatever is lost, at most one of the first two thousand reviews carries the
      marker; so at most one of all, while there are no more than that. */
  lemma {:induction false} AtMostOneReview(w: World, events: seq<Event>, marker: Marker)
    requires Unique(w, marker) && OthersLeave(events, marker)
    ensures var u := Run(w, events);
            && Marked(Upto(u.reviews, PAGES), marker) <= 1
            && (|u.reviews| <= BOUND ==> Marked(u.reviews, marker) <= 1)
    decreases events
  {
    if events != [] {
      StepKeepsUnique(w, events[0], marker);
      AtMostOneReview(Step(w, events[0]), events[1..], marker);
    } else if |w.reviews| <= BOUND {
      assert Upto(w.reviews, PAGES) == w.reviews;
    }
  }

  // ----- the review is written only on the head that was read -----

  predicate Careful(w: World) {
    && Vouched(w.log)
    && (w.attempt.Scanning? && w.attempt.seen.Some? ==> Saw(w.log, w.attempt.seen.value))
    && (w.attempt.Posting? ==> Saw(w.log, w.attempt.post.head))
  }

  lemma DecisionIsCareful(log: seq<Act>, post: Post, page: nat, seen: Oid, found: bool, more: bool, hasUrl: bool,
                          w: World)
    requires Vouched(log) && Saw(log, seen)
    requires w.log == log && w.attempt == Decide(post, page, seen, found, more, hasUrl)
    ensures Careful(w)
  {}

  lemma AnswerIsCareful(w: World, hasUrl: bool)
    requires Careful(w) && w.attempt.Scanning?
    ensures Careful(OnAnswer(w, hasUrl))
  {
    VouchedGrows(w.log, SawHead(w.head));
    var Scanning(post, page, seen) := w.attempt;
    var u := OnAnswer(w, hasUrl);
    DecisionIsCareful(u.log, post, page, if seen.Some? then seen.value else w.head,
                      Marked(OnPage(w.reviews, page), post.marker) > 0, More(w.reviews, page), hasUrl, u);
  }

  lemma WriteIsCareful(w: World, heard: bool)
    requires Careful(w) && w.attempt.Posting?
    ensures Careful(OnWrite(w, heard))
  {
    VouchedGrows(w.log, Wrote(TheRemark, w.attempt.post.head));
  }

  lemma StepIsCareful(w: World, e: Event)
    requires Careful(w)
    ensures Careful(Step(w, e))
  {
    match e
    case Publishes(_) => VouchedGrows(w.log, Began);
    case Request(delivery, hasUrl) =>
      if !Settled(w.attempt) && !delivery.LostBefore? {
        if w.attempt.Posting? { WriteIsCareful(w, delivery.Answered? && hasUrl); }
        else if delivery.Answered? { AnswerIsCareful(w, hasUrl); }
      }
    case _ =>
  }

  /** Over any run, a review is created only after a read, in the same attempt, of a head equal to the reviewed one. */
  lemma ReviewsFollowAMatchingHead(w: World, events: seq<Event>)
    requires Careful(w)
    ensures Vouched(Run(w, events).log)
  {
    forall t, e | Careful(t) ensures Careful(Step(t, e)) { StepIsCareful(t, e); }
    Machine.RunKeeps(Step, Careful, w, events);
  }

  // ----- exactly what one undisturbed attempt does -----

  function Heard(n: nat): seq<Event> {
    if n == 0 then [] else [Request(Answered, true)] + Heard(n - 1)
  }

  /** A scan that has passed the first pages. */
  predicate OnCourse(w: World, post: Post) {
    && w.head == post.head && w.attempt.Scanning? && w.attempt.post == post && w.attempt.page < PAGES
    && Before(w.attempt.page) <= |w.reviews| && Marked(Upto(w.reviews, w.attempt.page), post.marker) == 0
    && (w.attempt.seen.Some? ==> w.attempt.seen.value == post.head)
  }

  lemma {:induction false} UptoIsMonotone(reviews: seq<Remark>, p: nat, q: nat, marker: Marker)
    requires p <= q
    ensures Marked(Upto(reviews, p), marker) <= Marked(Upto(reviews, q), marker) <= Marked(reviews, marker)
  {
    var a, b := Min(Before(p), |reviews|), Min(Before(q), |reviews|);
    MarkedAppend(reviews[..a], reviews[a..b], marker);
    assert reviews[..a] + reviews[a..b] == reviews[..b];
    MarkedAppend(reviews[..b], reviews[b..], marker);
    assert reviews[..b] + reviews[b..] == reviews;
  }

  lemma {:induction false} SettledStays(w: World, n: nat)
    requires Settled(w.attempt)
    ensures Run(w, Heard(n)) == w
  {
    if n > 0 {
      Machine.RunFirst(Step, w, Request(Answered, true), Heard(n - 1));
      SettledStays(w, n - 1);
    }
  }

  /** One page of an undisturbed scan: go on, find the marker, or reach the end of the bound with nothing found. */
  lemma PageAdvances(w: World, post: Post)
    requires OnCourse(w, post)
    ensures var v := Step(w, Request(Answered, true)); var known := Marked(Upto(w.reviews, PAGES), post.marker) > 0;
            && v.reviews == w.reviews && v.nextId == w.nextId
            && ((OnCourse(v, post) && v.attempt.page == w.attempt.page + 1)
                || (known && v.attempt == Finished(post, true))
                || (!known && v.attempt == Posting(post)))
  {
    var page := w.attempt.page;
    UptoNext(w.reviews, page, post.marker);
    UptoIsMonotone(w.reviews, page + 1, PAGES, post.marker);
    var v := OnAnswer(w, true);
    assert v.attempt == AfterPage(w, post, page, post.head, true);
  }

  lemma PostFinishes(w: World, n: nat)
    requires w.attempt.Posting? && n > 0
    ensures var u := Run(w, Heard(n));
            && u.attempt == Finished(w.attempt.post, false)
            && u.reviews == w.reviews + [Remark(w.nextId, Some(w.attempt.post.marker))]
  {
    Machine.RunFirst(Step, w, Request(Answered, true), Heard(n - 1));
    SettledStays(Step(w, Request(Answered, true)), n - 1);
  }

  /** The scan, left alone, posts exactly when none of the first two thousand reviews is marked. */
  lemma {:induction false} ScanIsExact(w: World, post: Post, n: nat)
    requires OnCourse(w, post) && n >= PAGES - w.attempt.page + 1
    ensures var u := Run(w, Heard(n)); var known := Marked(Upto(w.reviews, PAGES), post.marker) > 0;
            && u.attempt == Finished(post, known)
            && u.reviews == if known then w.reviews else w.reviews + [Remark(w.nextId, Some(post.marker))]
    decreases n
  {
    PageAdvances(w, post);
    var v := Step(w, Request(Answered, true));
    Machine.RunFirst(Step, w, Request(Answered, true), Heard(n - 1));
    if v.attempt.Scanning? {
      ScanIsExact(v, post, n - 1);
    } else if v.attempt.Posting? {
      PostFinishes(v, n - 1);
    } else {
      SettledStays(v, n - 1);
    }
  }

  /** The bound is real, because the query lists the oldest reviews first: an attempt whose marker is already
      published adds a second review if and only if no marked review is among the first two thousand. */
  lemma DuplicatesExactlyBeyondTheBound(w: World, post: Post)
    requires Settled(w.attempt) && w.head == post.head && Marked(w.reviews, post.marker) > 0
    ensures var u := Run(w, [Publishes(post)] + Heard(PAGES + 1));
            && (Marked(u.reviews, post.marker) == Marked(w.reviews, post.marker) + 1
                <==> Marked(Upto(w.reviews, PAGES), post.marker) == 0)
            && u.attempt.Finished?
  {
    var v := Step(w, Publishes(post));
    assert Upto(w.reviews, 0) == [];
    Machine.RunFirst(Step, w, Publishes(post), Heard(PAGES + 1));
    ScanIsExact(v, post, PAGES + 1);
    MarkedGrows(w.reviews, Remark(w.nextId, Some(post.marker)), post.marker);
  }

  // ----- the machine scans as the page loop does -----

  function NodeOf(remark: Remark, hasUrl: bool): Node { Node(remark, if hasUrl then Some("") else None) }

  /** The page a forge with these reviews answers. */
  function PageOf(w: World, p: nat, hasUrl: bool): Page {
    var remarks := OnPage(w.reviews, p);
    Page(w.head, seq(|remarks|, j requires 0 <= j < |remarks| => NodeOf(remarks[j], hasUrl)), More(w.reviews, p))
  }

  /** The answer an event brings to a scan, if it is a request. */
  function AnswerTo(w: World, e: Event): seq<Option<Page>> {
    if e.Request? && w.attempt.Scanning? then
      [if e.delivery.Answered? then Some(PageOf(w, w.attempt.page, e.hasUrl)) else None]
    else []
  }

  /** The answers a run brings, while others review and the head moves in between. */
  function AnswersOf(w: World, events: seq<Event>): seq<Option<Page>>
    decreases events
  {
    if events == [] then [] else AnswerTo(w, events[0]) + AnswersOf(Step(w, events[0]), events[1..])
  }

  /** No request or new attempt after the scan is over. */
  predicate OnlyScans(w: World, events: seq<Event>)
    decreases events
  {
    events == [] ||
    ((events[0].Request? || events[0].Publishes? ==> w.attempt.Scanning?) && OnlyScans(Step(w, events[0]), events[1..]))
  }

  lemma MarkedOnPage(w: World, p: nat, hasUrl: bool, marker: Marker)
    ensures var nodes := PageOf(w, p, hasUrl).nodes; var k := IndexOfMarked(nodes, marker);
            && (k < |nodes| <==> Marked(OnPage(w.reviews, p), marker) > 0)
            && (k < |nodes| ==> (nodes[k].url.Some? <==> hasUrl))
  {
    var remarks, nodes := OnPage(w.reviews, p), PageOf(w, p, hasUrl).nodes;
    MarkedIsMembership(remarks, marker);
    forall j | 0 <= j < |remarks| ensures IsMarked(nodes[j], marker) <==> remarks[j].marker == Some(marker) {
      assert nodes[j] == NodeOf(remarks[j], hasUrl);
    }
    var k := IndexOfMarked(nodes, marker);
    if k == |nodes| { assert nodes[..k] == nodes; }
  }

  lemma StepTurns(w: World, e: Event)
    requires e.Request? && w.attempt.Scanning?
    ensures Step(w, e).attempt == Turn(AnswerTo(w, e)[0], w.attempt.post, w.attempt.page, w.attempt.seen)
  {
    MarkedOnPage(w, w.attempt.page, e.hasUrl, w.attempt.post.marker);
  }

  /** However the forge changes between the requests, a scan is at every point where the page loop's answers so far
      have taken it. */
  lemma {:induction false} ScanIsThePageLoop(w: World, events: seq<Event>)
    requires OnlyScans(w, events)
    ensures Run(w, events).attempt == ScanFrom(AnswersOf(w, events), w.attempt)
    decreases events
  {
    if events != [] {
      var e, rest := events[0], events[1..];
      var v := Step(w, e);
      ScanIsThePageLoop(v, rest);
      if e.Request? {
        StepTurns(w, e);
        assert AnswersOf(w, events)[1..] == AnswersOf(v, rest);
      } else {
        assert AnswersOf(w, events) == AnswersOf(v, rest);
      }
    }
  }
}
