/** `publishReview` of the GitLab forge (`gitlab-forge.ts`): one note carrying the marker, then an approval, each a
    request of its own that may be lost, with the head read before anything is written. */
module GitLabPublish {
  import opened Json
  import opened Publication
  import Machine

  type User = string

  datatype Post = Post(head: Oid, marker: Marker, approve: bool)

  /** The request the current attempt waits for. `id` is the note the attempt reuses or wrote. */
  datatype Attempt =
    | Idle
    | Searching(post: Post)
    | CheckingNoteHead(post: Post)
    | PostingNote(post: Post)
    | AskingViewer(post: Post, id: nat)
    | ReadingApprovals(post: Post, id: nat)
    | CheckingApprovalHead(post: Post, id: nat)
    | Approving(post: Post, id: nat, reused: bool)
    | Failed
    | Finished(post: Post, id: nat, reused: bool)

  /** `viewerKnown` is the adapter's cached login; `removed` records that somebody removed a note or an approval
      since the attempt began. */
  datatype World = World(
    notes: seq<Remark>,
    approvers: set<User>,
    head: Oid,
    viewer: User,
    nextId: nat,
    viewerKnown: bool,
    attempt: Attempt,
    removed: bool,
    log: seq<Act>)

  datatype Event =
    | Publishes(post: Post)
    | Request(delivery: Delivery)
    | HeadMoves(to: Oid)
    | OthersNote(marker: Option<Marker>)
    | NoteRemoved(k: nat)
    | OthersApprove(user: User)
    | ApprovalRemoved(user: User)

  predicate Settled(a: Attempt) { a.Idle? || a.Failed? || a.Finished? }

  /** The newest note whose body carries the marker. */
  function FindNote(notes: seq<Remark>, marker: Marker): (found: Option<Remark>)
    ensures found.None? <==> Marked(notes, marker) == 0
    ensures found.Some? ==> found.value in notes && found.value.marker == Some(marker)
  {
    if notes == [] then None
    else if notes[|notes| - 1].marker == Some(marker) then Some(notes[|notes| - 1])
    else FindNote(notes[..|notes| - 1], marker)
  }

  function AfterNote(post: Post, id: nat, reused: bool): Attempt {
    if post.approve then Approving(post, id, reused) else Finished(post, id, reused)
  }

  /** The search answered: reuse the note, or go on to write one. */
  function AfterSearch(w: World, post: Post): Attempt {
    match FindNote(w.notes, post.marker)
    case None => CheckingNoteHead(post)
    case Some(note) =>
      if !post.approve then Finished(post, note.id, true)
      else if w.viewerKnown then ReadingApprovals(post, note.id)
      else AskingViewer(post, note.id)
  }

  function SeeHead(w: World, post: Post, next: Attempt): World {
    w.(log := w.log + [SawHead(w.head)], attempt := if w.head == post.head then next else Failed)
  }

  function WriteNote(w: World, post: Post): World {
    w.(notes := w.notes + [Remark(w.nextId, Some(post.marker))], nextId := w.nextId + 1,
       log := w.log + [Wrote(TheRemark, post.head)])
  }

  function WriteApproval(w: World, post: Post): World {
    w.(approvers := w.approvers + {w.viewer}, log := w.log + [Wrote(TheApproval, post.head)])
  }

  /** The awaited read was answered. */
  function OnRead(w: World): World {
    match w.attempt
    case Searching(post) => w.(attempt := AfterSearch(w, post))
    case CheckingNoteHead(post) => SeeHead(w, post, PostingNote(post))
    case AskingViewer(post, id) => w.(viewerKnown := true, attempt := ReadingApprovals(post, id))
    case ReadingApprovals(post, id) =>
      w.(attempt := if w.viewer in w.approvers then Finished(post, id, true) else CheckingApprovalHead(post, id))
    case CheckingApprovalHead(post, id) => SeeHead(w, post, Approving(post, id, true))
    case _ => w
  }

  /** The awaited write reached the forge, and its response came back or did not. */
  function OnWrite(w: World, heard: bool): World {
    match w.attempt
    case PostingNote(post) =>
      WriteNote(w, post).(attempt := if heard then AfterNote(post, w.nextId, false) else Failed)
    case Approving(post, id, reused) =>
      WriteApproval(w, post).(attempt := if heard then Finished(post, id, reused) else Failed)
    case _ => w
  }

  predicate Writes(a: Attempt) { a.PostingNote? || a.Approving? }

  function Step(w: World, e: Event): World {
    match e
    case Publishes(post) =>
      if Settled(w.attempt) then w.(attempt := Searching(post), removed := false, log := w.log + [Began]) else w
    case Request(delivery) =>
      if Settled(w.attempt) then w
      else if delivery.LostBefore? || (delivery.LostAfter? && !Writes(w.attempt)) then w.(attempt := Failed)
      else if Writes(w.attempt) then OnWrite(w, delivery.Answered?)
      else OnRead(w)
    case HeadMoves(to) => w.(head := to)
    case OthersNote(marker) => w.(notes := w.notes + [Remark(w.nextId, marker)], nextId := w.nextId + 1)
    case NoteRemoved(k) =>
      if k < |w.notes| then w.(notes := w.notes[..k] + w.notes[k + 1..], removed := true) else w
    case OthersApprove(user) => w.(approvers := w.approvers + {user})
    case ApprovalRemoved(user) => w.(approvers := w.approvers - {user}, removed := true)
  }

  function Run(w: World, events: seq<Event>): World { Machine.Run(Step, w, events) }

  // ----- at most one note -----

  /** Only an attempt that saw no marked note is about to write one. */
  predicate WillWrite(a: Attempt, marker: Marker) {
    (a.CheckingNoteHead? || a.PostingNote?) && a.post.marker == marker
  }

  predicate Unique(w: World, marker: Marker) {
    Marked(w.notes, marker) + (if WillWrite(w.attempt, marker) then 1 else 0) <= 1
  }

  lemma RemovalKeepsUnique(notes: seq<Remark>, k: nat, marker: Marker)
    requires k < |notes|
    ensures Marked(notes[..k] + notes[k + 1..], marker) <= Marked(notes, marker)
  {
    MarkedAppend(notes[..k], notes[k + 1..], marker);
    MarkedAppend(notes[..k + 1], notes[k + 1..], marker);
    MarkedGrows(notes[..k], notes[k], marker);
    assert notes[..k + 1] == notes[..k] + [notes[k]];
    assert notes[..k + 1] + notes[k + 1..] == notes;
  }

  lemma ReadKeepsUnique(w: World, marker: Marker)
    requires Unique(w, marker) && !Settled(w.attempt) && !Writes(w.attempt)
    ensures Unique(OnRead(w), marker)
  {
    if w.attempt.Searching? { assert WillWrite(OnRead(w).attempt, marker) ==> Marked(w.notes, marker) == 0; }
  }

  lemma WriteKeepsUnique(w: World, heard: bool, marker: Marker)
    requires Unique(w, marker) && Writes(w.attempt)
    ensures Unique(OnWrite(w, heard), marker)
  {
    if w.attempt.PostingNote? {
      MarkedGrows(w.notes, Remark(w.nextId, Some(w.attempt.post.marker)), marker);
    }
  }

  lemma QuietKeepsUnique(w: World, u: World, marker: Marker)
    requires Unique(w, marker) && u.notes == w.notes && (u.attempt == w.attempt || !WillWrite(u.attempt, marker))
    ensures Unique(u, marker)
  {}

  lemma OthersKeepUnique(w: World, other: Option<Marker>, marker: Marker)
    requires Unique(w, marker) && other != Some(marker)
    ensures Unique(Step(w, OthersNote(other)), marker)
  {
    MarkedGrows(w.notes, Remark(w.nextId, other), marker);
  }

  lemma RemovingKeepsUnique(w: World, k: nat, marker: Marker)
    requires Unique(w, marker)
    ensures Unique(Step(w, NoteRemoved(k)), marker)
  {
    if k < |w.notes| { RemovalKeepsUnique(w.notes, k, marker); }
  }

  lemma RequestKeepsUnique(w: World, delivery: Delivery, marker: Marker)
    requires Unique(w, marker)
    ensures Unique(Step(w, Request(delivery)), marker)
  {
    if Settled(w.attempt) || delivery.LostBefore? || (delivery.LostAfter? && !Writes(w.attempt)) {
      QuietKeepsUnique(w, Step(w, Request(delivery)), marker);
    } else if Writes(w.attempt) {
      WriteKeepsUnique(w, delivery.Answered?, marker);
    } else {
      ReadKeepsUnique(w, marker);
    }
  }

  lemma StepKeepsUnique(w: World, e: Event, marker: Marker)
    requires Unique(w, marker) && (e.OthersNote? ==> e.marker != Some(marker))
    ensures Unique(Step(w, e), marker)
  {
    match e
    case OthersNote(other) => OthersKeepUnique(w, other, marker);
    case NoteRemoved(k) => RemovingKeepsUnique(w, k, marker);
    case Request(delivery) => RequestKeepsUnique(w, delivery, marker);
    case _ => QuietKeepsUnique(w, Step(w, e), marker);
  }

  /** Nobody else writes the marker. */
  predicate OthersLeave(events: seq<Event>, marker: Marker) {
    forall k :: 0 <= k < |events| && events[k].OthersNote? ==> events[k].marker != Some(marker)
  }

  /** Whatever is lost, removed or retried, however often: at most one note carries the marker. */
  lemma {:induction false} AtMostOneNote(w: World, events: seq<Event>, marker: Marker)
    requires Unique(w, marker) && OthersLeave(events, marker)
    ensures Marked(Run(w, events).notes, marker) <= 1
    decreases events
  {
    if events != [] {
      StepKeepsUnique(w, events[0], marker);
      AtMostOneNote(Step(w, events[0]), events[1..], marker);
    }
  }

  // ----- nothing is written unless the head was read and matched -----

  predicate Careful(w: World) {
    Vouched(w.log) && (Writes(w.attempt) ==> Saw(w.log, w.attempt.post.head))
  }

  lemma HeadIsCareful(w: World, post: Post, next: Attempt)
    requires Vouched(w.log) && (Writes(next) ==> next.post == post)
    ensures Careful(SeeHead(w, post, next))
  {
    VouchedGrows(w.log, SawHead(w.head));
  }

  lemma ReadIsCareful(w: World)
    requires Careful(w) && !Writes(w.attempt)
    ensures Careful(OnRead(w))
  {
    match w.attempt
    case CheckingNoteHead(post) => HeadIsCareful(w, post, PostingNote(post));
    case CheckingApprovalHead(post, id) => HeadIsCareful(w, post, Approving(post, id, true));
    case _ =>
  }

  lemma WriteIsCareful(w: World, heard: bool)
    requires Careful(w) && Writes(w.attempt)
    ensures Careful(OnWrite(w, heard))
  {
    VouchedGrows(w.log, Wrote(if w.attempt.PostingNote? then TheRemark else TheApproval, w.attempt.post.head));
  }

  lemma StepIsCareful(w: World, e: Event)
    requires Careful(w)
    ensures Careful(Step(w, e))
  {
    match e
    case Publishes(_) => VouchedGrows(w.log, Began);
    case Request(delivery) =>
      if !Settled(w.attempt) && !delivery.LostBefore? {
        if Writes(w.attempt) { WriteIsCareful(w, delivery.Answered?); }
        else if delivery.Answered? { ReadIsCareful(w); }
      }
    case _ =>
  }

  /** Over any run, every note and every approval is preceded, in its own attempt, by a head read that equalled the
      head that was reviewed. */
  lemma WritesFollowAMatchingHead(w: World, events: seq<Event>)
    requires Careful(w)
    ensures Vouched(Run(w, events).log)
  {
    forall t, e | Careful(t) ensures Careful(Step(t, e)) { StepIsCareful(t, e); }
    Machine.RunKeeps(Step, Careful, w, events);
  }

  // ----- success is complete -----

  predicate HasNote(notes: seq<Remark>, id: nat, marker: Marker) {
    exists k :: 0 <= k < |notes| && notes[k] == Remark(id, Some(marker))
  }

  predicate Carries(a: Attempt) { !Settled(a) && !a.Searching? && !a.CheckingNoteHead? && !a.PostingNote? }

  /** The note an attempt speaks of exists, and a finished approval stands, unless somebody removed one. */
  predicate Honest(w: World) {
    !w.removed ==>
      && (Carries(w.attempt) || w.attempt.Finished? ==> HasNote(w.notes, w.attempt.id, w.attempt.post.marker))
      && (w.attempt.Finished? && w.attempt.post.approve ==> w.viewer in w.approvers)
      && (Carries(w.attempt) ==> w.attempt.post.approve)
  }

  lemma HasNoteGrows(notes: seq<Remark>, remark: Remark, id: nat, marker: Marker)
    ensures HasNote(notes, id, marker) || remark == Remark(id, Some(marker)) ==> HasNote(notes + [remark], id, marker)
  {
    var grown := notes + [remark];
    assert grown[|notes|] == remark;
    if HasNote(notes, id, marker) {
      var k :| 0 <= k < |notes| && notes[k] == Remark(id, Some(marker));
      assert grown[k] == notes[k];
    }
  }

  lemma ReadIsHonest(w: World)
    requires Honest(w) && !Settled(w.attempt) && !Writes(w.attempt)
    ensures Honest(OnRead(w))
  {
  }

  lemma WriteIsHonest(w: World, heard: bool)
    requires Honest(w) && Writes(w.attempt)
    ensures Honest(OnWrite(w, heard))
  {
    if w.attempt.PostingNote? {
      var marker := w.attempt.post.marker;
      HasNoteGrows(w.notes, Remark(w.nextId, Some(marker)), w.nextId, marker);
    }
  }

  lemma OthersAreHonest(w: World, marker: Option<Marker>)
    requires Honest(w)
    ensures Honest(Step(w, OthersNote(marker)))
  {
    if Carries(w.attempt) || w.attempt.Finished? {
      HasNoteGrows(w.notes, Remark(w.nextId, marker), w.attempt.id, w.attempt.post.marker);
    }
  }

  lemma StepIsHonest(w: World, e: Event)
    requires Honest(w)
    ensures Honest(Step(w, e))
  {
    match e
    case OthersNote(marker) => OthersAreHonest(w, marker);
    case Request(delivery) =>
      if !Settled(w.attempt) && !delivery.LostBefore? {
        if Writes(w.attempt) { WriteIsHonest(w, delivery.Answered?); }
        else if delivery.Answered? { ReadIsHonest(w); }
      }
    case _ =>
  }

  lemma RunIsHonest(w: World, events: seq<Event>)
    requires Honest(w)
    ensures Honest(Run(w, events))
  {
    forall t, e | Honest(t) ensures Honest(Step(t, e)) { StepIsHonest(t, e); }
    Machine.RunKeeps(Step, Honest, w, events);
  }

  /** A finished publication is whole: its note is there with the marker, and an approval was given by the viewer,
      as long as nobody took either away meanwhile. */
  lemma SuccessIsComplete(w: World, events: seq<Event>)
    requires Settled(w.attempt) && !w.attempt.Finished?
    requires var u := Run(w, events); u.attempt.Finished? && !u.removed
    ensures var u := Run(w, events);
            && HasNote(u.notes, u.attempt.id, u.attempt.post.marker)
            && (u.attempt.post.approve ==> u.viewer in u.approvers)
  {
    RunIsHonest(w, events);
  }

  // ----- a retry finishes what a lost response left -----

  function Heard(n: nat): seq<Event> {
    if n == 0 then [] else [Request(Answered)] + Heard(n - 1)
  }

  /** How many answered requests an attempt still needs at most. */
  function Left(w: World): nat {
    match w.attempt
    case Searching(_) => 5
    case AskingViewer(_, _) => 4
    case ReadingApprovals(_, _) => 3
    case CheckingNoteHead(_) => 3
    case CheckingApprovalHead(_, _) => 2
    case PostingNote(_) => 2
    case Approving(_, _, _) => 1
    case _ => 0
  }

  /** An attempt under way for a post whose head is still the head. */
  predicate OnCourse(w: World, post: Post) {
    (!Settled(w.attempt) || w.attempt.Finished?) && w.attempt.post == post && w.head == post.head
  }

  lemma AnswerAdvances(w: World, post: Post)
    requires OnCourse(w, post)
    ensures var u := Step(w, Request(Answered));
            OnCourse(u, post) && u.removed == w.removed && (Left(u) < Left(w) || (Left(w) == 0 && u == w))
  {
  }

  lemma {:induction false} AnsweredRequestsFinish(w: World, post: Post, n: nat)
    requires OnCourse(w, post) && Left(w) <= n
    ensures var u := Run(w, Heard(n)); u.attempt.Finished? && u.attempt.post == post && u.removed == w.removed
    decreases n
  {
    if n > 0 {
      AnswerAdvances(w, post);
      Machine.RunFirst(Step, w, Request(Answered), Heard(n - 1));
      AnsweredRequestsFinish(Step(w, Request(Answered)), post, n - 1);
    }
  }

  /** From whatever an earlier attempt left, one attempt with no lost request and the reviewed head still current
      succeeds, with exactly one marked note and, for an approval, the viewer's approval. */
  lemma RetryCompletes(w: World, post: Post)
    requires Settled(w.attempt) && w.head == post.head && Unique(w, post.marker)
    ensures var u := Run(w, [Publishes(post)] + Heard(5));
            && u.attempt.Finished? && u.attempt.post == post
            && Marked(u.notes, post.marker) == 1
            && HasNote(u.notes, u.attempt.id, post.marker)
            && (post.approve ==> u.viewer in u.approvers)
  {
    var events := [Publishes(post)] + Heard(5);
    var v := Step(w, Publishes(post));
    Machine.RunFirst(Step, w, Publishes(post), Heard(5));
    AnsweredRequestsFinish(v, post, 5);
    RunIsHonest(v, Heard(5));
    HeardIsQuiet(5);
    AtMostOneNote(w, events, post.marker);
    MarkedIsMembership(Run(v, Heard(5)).notes, post.marker);
  }

  lemma {:induction false} HeardIsQuiet(n: nat)
    ensures forall k :: 0 <= k < |Heard(n)| ==> Heard(n)[k] == Request(Answered)
  {
    if n > 0 { HeardIsQuiet(n - 1); }
  }

  // ----- what one attempt writes -----

  /** How often the current attempt wrote one. */
  function Written(log: seq<Act>, kind: Kind): nat {
    if log == [] || log[|log| - 1].Began? then 0
    else Written(log[..|log| - 1], kind) + if log[|log| - 1].Wrote? && log[|log| - 1].kind == kind then 1 else 0
  }

  lemma WrittenGrows(log: seq<Act>, act: Act, kind: Kind)
    ensures Written(log + [act], kind) ==
            if act.Began? then 0 else Written(log, kind) + if act.Wrote? && act.kind == kind then 1 else 0
  {
    assert (log + [act])[..|log|] == log;
  }

  /** What an attempt has written by the time it waits for this request, given whether it found its note. */
  predicate Consistent(a: Attempt, notes: nat, approvals: nat) {
    match a
    case Approving(post, _, reused) => post.approve && notes == (if reused then 0 else 1) && approvals == 0
    case Finished(post, _, reused) =>
      notes == (if reused then 0 else 1) && approvals <= 1 && (approvals == 1 ==> post.approve)
    case Idle => true
    case Failed => notes <= 1 && approvals <= 1
    case _ => notes == 0 && approvals == 0 && (Carries(a) ==> a.post.approve)
  }

  predicate Accounted(w: World) {
    Consistent(w.attempt, Written(w.log, TheRemark), Written(w.log, TheApproval))
  }

  lemma ReadWritesNothing(w: World, kind: Kind)
    requires !Writes(w.attempt)
    ensures Written(OnRead(w).log, kind) == Written(w.log, kind)
  {
    WrittenGrows(w.log, SawHead(w.head), kind);
  }

  lemma ReadIsConsistent(w: World, notes: nat, approvals: nat)
    requires Consistent(w.attempt, notes, approvals) && !Settled(w.attempt) && !Writes(w.attempt)
    ensures Consistent(OnRead(w).attempt, notes, approvals)
  {
  }

  lemma WriteWritesOne(w: World, heard: bool, kind: Kind)
    requires Writes(w.attempt)
    ensures Written(OnWrite(w, heard).log, kind) ==
            Written(w.log, kind) + if kind.TheRemark? == w.attempt.PostingNote? then 1 else 0
  {
    WrittenGrows(w.log, Wrote(if w.attempt.PostingNote? then TheRemark else TheApproval, w.attempt.post.head), kind);
  }

  lemma WriteIsConsistent(w: World, heard: bool, notes: nat, approvals: nat)
    requires Consistent(w.attempt, notes, approvals) && Writes(w.attempt)
    ensures Consistent(OnWrite(w, heard).attempt, notes + (if w.attempt.PostingNote? then 1 else 0),
                       approvals + if w.attempt.PostingNote? then 0 else 1)
  {
  }

  lemma AnswerIsAccounted(w: World, heard: bool)
    requires Accounted(w) && !Settled(w.attempt)
    ensures Accounted(if Writes(w.attempt) then OnWrite(w, heard) else OnRead(w))
  {
    var notes, approvals := Written(w.log, TheRemark), Written(w.log, TheApproval);
    if Writes(w.attempt) {
      WriteIsConsistent(w, heard, notes, approvals);
      WriteWritesOne(w, heard, TheRemark);
      WriteWritesOne(w, heard, TheApproval);
    } else {
      ReadIsConsistent(w, notes, approvals);
      ReadWritesNothing(w, TheRemark);
      ReadWritesNothing(w, TheApproval);
    }
  }

  lemma FailureIsAccounted(w: World)
    requires Accounted(w) && !Settled(w.attempt)
    ensures Accounted(w.(attempt := Failed))
  {
  }

  lemma RequestIsAccounted(w: World, delivery: Delivery)
    requires Accounted(w)
    ensures Accounted(Step(w, Request(delivery)))
  {
    if !Settled(w.attempt) {
      if delivery.LostBefore? || (delivery.LostAfter? && !Writes(w.attempt)) {
        FailureIsAccounted(w);
      } else {
        AnswerIsAccounted(w, delivery.Answered?);
      }
    }
  }

  lemma StepIsAccounted(w: World, e: Event)
    requires Accounted(w)
    ensures Accounted(Step(w, e))
  {
    match e
    case Publishes(_) =>
      WrittenGrows(w.log, Began, TheRemark);
      WrittenGrows(w.log, Began, TheApproval);
    case Request(delivery) => RequestIsAccounted(w, delivery);
    case _ =>
  }

  /** Over any run: an attempt writes at most one note and, if it was asked to approve, at most one approval; and
      one that finished says it reused a note exactly when it wrote none. */
  lemma ReuseIsReported(w: World, events: seq<Event>)
    requires w.attempt.Idle?
    ensures var u := Run(w, events);
            && (!u.attempt.Idle? ==> Written(u.log, TheRemark) <= 1 && Written(u.log, TheApproval) <= 1)
            && (u.attempt.Finished? ==>
                  && (u.attempt.reused <==> Written(u.log, TheRemark) == 0)
                  && (Written(u.log, TheApproval) > 0 ==> u.attempt.post.approve))
  {
    forall t, e | Accounted(t) ensures Accounted(Step(t, e)) { StepIsAccounted(t, e); }
    Machine.RunKeeps(Step, Accounted, w, events);
  }

  /** What an attempt with no lost request still has to write. */
  function Owed(w: World, kind: Kind): nat {
    match w.attempt
    case Searching(post) =>
      if kind.TheRemark? then (if Marked(w.notes, post.marker) == 0 then 1 else 0)
      else if post.approve && (Marked(w.notes, post.marker) == 0 || w.viewer !in w.approvers) then 1 else 0
    case CheckingNoteHead(post) => if kind.TheRemark? || post.approve then 1 else 0
    case PostingNote(post) => if kind.TheRemark? || post.approve then 1 else 0
    case AskingViewer(_, _) => if kind.TheRemark? || w.viewer in w.approvers then 0 else 1
    case ReadingApprovals(_, _) => if kind.TheRemark? || w.viewer in w.approvers then 0 else 1
    case CheckingApprovalHead(_, _) => if kind.TheRemark? then 0 else 1
    case Approving(_, _, _) => if kind.TheRemark? then 0 else 1
    case _ => 0
  }

  lemma ReadOwesTheSame(w: World, post: Post, kind: Kind)
    requires OnCourse(w, post) && !w.attempt.Finished? && !Writes(w.attempt)
    ensures Owed(OnRead(w), kind) == Owed(w, kind)
  {
  }

  lemma WriteOwesOneLess(w: World, kind: Kind)
    requires Writes(w.attempt)
    ensures Owed(OnWrite(w, true), kind) + (if kind.TheRemark? == w.attempt.PostingNote? then 1 else 0) == Owed(w, kind)
  {
  }

  lemma AnswerPaysTheDebt(w: World, post: Post, kind: Kind)
    requires OnCourse(w, post)
    ensures var u := Step(w, Request(Answered));
            Written(u.log, kind) + Owed(u, kind) == Written(w.log, kind) + Owed(w, kind)
  {
    if !w.attempt.Finished? {
      if Writes(w.attempt) {
        WriteOwesOneLess(w, kind);
        WriteWritesOne(w, true, kind);
      } else {
        ReadOwesTheSame(w, post, kind);
        ReadWritesNothing(w, kind);
      }
    }
  }

  lemma {:induction false} AnswersPayTheDebt(w: World, post: Post, n: nat, kind: Kind)
    requires OnCourse(w, post) && Left(w) <= n
    ensures Written(Run(w, Heard(n)).log, kind) == Written(w.log, kind) + Owed(w, kind)
    decreases n
  {
    if n > 0 {
      AnswerAdvances(w, post);
      AnswerPaysTheDebt(w, post, kind);
      Machine.RunFirst(Step, w, Request(Answered), Heard(n - 1));
      AnswersPayTheDebt(Step(w, Request(Answered)), post, n - 1, kind);
    }
  }

  /** An attempt with no lost request writes only what is missing: the note if no note carries the marker, and the
      approval if one is asked for, unless the note was there and the viewer had approved. */
  lemma RetryWritesOnlyWhatIsMissing(w: World, post: Post)
    requires Settled(w.attempt) && w.head == post.head
    ensures var u := Run(w, [Publishes(post)] + Heard(5));
            var known := Marked(w.notes, post.marker) > 0;
            && u.attempt.Finished?
            && Written(u.log, TheRemark) == (if known then 0 else 1)
            && Written(u.log, TheApproval) == if post.approve && !(known && w.viewer in w.approvers) then 1 else 0
  {
    var v := Step(w, Publishes(post));
    Machine.RunFirst(Step, w, Publishes(post), Heard(5));
    AnsweredRequestsFinish(v, post, 5);
    WrittenGrows(w.log, Began, TheRemark);
    WrittenGrows(w.log, Began, TheApproval);
    AnswersPayTheDebt(v, post, 5, TheRemark);
    AnswersPayTheDebt(v, post, 5, TheApproval);
  }

  // ----- the viewer is asked once -----

  predicate AsksOnce(w: World) { !(w.viewerKnown && w.attempt.AskingViewer?) }

  lemma StepAsksOnce(w: World, e: Event)
    requires AsksOnce(w)
    ensures AsksOnce(Step(w, e)) && (w.viewerKnown ==> Step(w, e).viewerKnown)
  {
  }

  /** Over all attempts: once the viewer is known it stays known, and is not asked for again. */
  lemma {:induction false} ViewerIsAskedOnce(w: World, events: seq<Event>)
    requires AsksOnce(w)
    ensures AsksOnce(Run(w, events)) && (w.viewerKnown ==> Run(w, events).viewerKnown)
    decreases events
  {
    if events != [] {
      StepAsksOnce(w, events[0]);
      ViewerIsAskedOnce(Step(w, events[0]), events[1..]);
    }
  }
}
