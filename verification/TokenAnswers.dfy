/** Which credential a token resolution answers for, and when it answers, renews or goes on: over every run, with or
    without the lock, told by what the CLI, the store and the forge said to it. */
module TokenAnswers {
  import opened Json
  import opened TokenRotation
  import Machine

  /** The credential a resolution stands for, and whether its one renewal is behind it. */
  datatype Claim = Claim(credential: Credential, renewed: bool)

  /** What resolution `i` stands for after `events`: the CLI's token, else what it first read of the store; from a
      reread on what the store said then; from its own rotation on what the forge minted. */
  ghost function Claimed(w: World, events: seq<Event>, i: nat): Option<Claim>
    decreases |events|
  {
    if events == [] then None
    else
      var before, e := events[..|events| - 1], events[|events| - 1];
      Reclaimed(Run(w, before), e, i, Claimed(w, before, i))
  }

  ghost function Reclaimed(v: World, e: Event, i: nat, claim: Option<Claim>): Option<Claim> {
    if i >= |v.resolutions| then claim
    else if e.AsksCli? && e.i == i && v.resolutions[i].Begun? then
      if e.cli.CliToken? then Some(Claim(Credential(e.cli.token, None), false))
      else if e.cli.CliMissing? && v.store.Some? then Some(Claim(v.store.value, false))
      else claim
    else if e == Rereads(i) && v.resolutions[i].Rereading? && v.store.Some? then Some(Claim(v.store.value, true))
    else if e.Exchanges? && e.i == i && v.resolutions[i].Exchanging? && e.how.Rotates?
            && !Consumed(v.log, v.resolutions[i].refresh) then
      Some(Claim(Credential(v.minted, if e.how.renewable then Some(v.minted) else None), true))
    else claim
  }

  predicate Judging(r: Resolution) { r.CliValidating? || r.Validating? || r.Revalidating? }

  predicate MayRenew(claim: Option<Claim>) {
    claim.Some? && !claim.value.renewed && claim.value.credential.refresh.Some?
  }

  predicate AsksInVain(e: Event, i: nat) { e.AsksCli? && e.i == i && e.cli.CliMissing? }

  predicate Expiring(v: World, e: Event) {
    e.AsksCli? && e.nearExpiry && v.store.Some? && v.store.value.refresh.Some?
  }

  predicate StoreHolds(v: World, claim: Option<Claim>) {
    v.store.Some? && claim.Some? && v.store.value.token == claim.value.credential.token
  }

  /** Why resolution `i`, in `v`, answers `r` on `e`. */
  predicate Because(v: World, e: Event, i: nat, claim: Option<Claim>, r: Result)
    requires i < |v.resolutions|
  {
    var at := v.resolutions[i];
    match r
    case Judged(token, verdict) =>
      && Judging(at) && e == Validates(i, verdict)
      && claim.Some? && token == claim.value.credential.token
      && !(verdict.Rejected? && MayRenew(claim))
    case CliUnavailable => at.Begun? && e.AsksCli? && e.i == i && e.cli.CliFailure?
    case NotConnected => at.Begun? && AsksInVain(e, i) && v.store.None?
    case RefreshDeclined =>
      || (at.Rereading? && e == Rereads(i)
          && (v.store.None? || (StoreHolds(v, claim) && v.store.value.refresh.None?)))
      || (at.Exchanging? && e.Exchanges? && e.i == i && (e.how.Declines? || (e.how.Rotates? && Spent(v, claim))))
    case NetworkDown => at.Exchanging? && e.Exchanges? && e.i == i && (e.how.NetworkFails? || e.how.RotatesUnheard?)
    case Threw =>
      || (at.Exchanging? && e.Exchanges? && e.i == i && e.how.Errors?)
      || (at.Persisting? && e == Persists(i, false))
  }

  /** The forge has already consumed the refresh half of the claim. */
  predicate Spent(v: World, claim: Option<Claim>) {
    claim.Some? && claim.value.credential.refresh.Some? && Consumed(v.log, claim.value.credential.refresh.value)
  }

  /** Resolution `i`, in `v`, sets out to renew on `e`: near the expiry it read, or rejected for the first time. */
  predicate Renews(v: World, e: Event, i: nat, claim: Option<Claim>)
    requires i < |v.resolutions|
  {
    || (v.resolutions[i].Begun? && AsksInVain(e, i) && Expiring(v, e))
    || (Judging(v.resolutions[i]) && e == Validates(i, Rejected) && MayRenew(claim))
  }

  /** Resolution `i`, in `v`, goes on to have its claim judged on `e`. */
  predicate GoesToJudgement(v: World, e: Event, i: nat, claim: Option<Claim>)
    requires i < |v.resolutions|
  {
    var at := v.resolutions[i];
    || (at.Begun? && e.AsksCli? && e.i == i && e.cli.CliToken?)
    || (at.Begun? && AsksInVain(e, i) && v.store.Some? && !Expiring(v, e))
    || (at.Rereading? && e == Rereads(i) && v.store.Some? && !StoreHolds(v, claim))
    || (at.Persisting? && e == Persists(i, true))
  }

  /** Resolution `i`, in `v`, is sent to the forge on `e` with the refresh half the store holds. */
  predicate GoesToForge(v: World, e: Event, i: nat, claim: Option<Claim>)
    requires i < |v.resolutions|
  {
    && v.resolutions[i].Rereading? && e == Rereads(i)
    && StoreHolds(v, claim) && v.store.value.refresh.Some?
  }

  // ----- one step -----

  ghost predicate StandsFor(r: Resolution, claim: Option<Claim>) {
    match r
    case Begun => claim.None?
    case CliValidating(t) => claim == Some(Claim(Credential(t, None), false))
    case Validating(stored, credential, refreshed) =>
      claim == Some(Claim(credential, refreshed)) && (!refreshed ==> stored == credential)
    case Waiting(stored, _) => claim == Some(Claim(stored, false))
    case Rereading(stored, _) => claim == Some(Claim(stored, false))
    case Exchanging(stored, refresh, _) =>
      claim == Some(Claim(Credential(stored.token, Some(refresh)), true))
    case Persisting(_, minted, _) => claim == Some(Claim(minted, true))
    case Revalidating(credential) => claim == Some(Claim(credential, true))
    case Done(_) => true
  }

  /** What somebody else does leaves a resolution where it was. */
  lemma OthersLeaveIt(v: World, e: Event, i: nat, claim: Option<Claim>)
    requires i < |v.resolutions| && !Addresses(e, i)
    ensures |Step(v, e).resolutions| >= |v.resolutions| && Step(v, e).resolutions[i] == v.resolutions[i]
    ensures Reclaimed(v, e, i, claim) == claim
  {
  }

  /** What `e` makes of resolution `i`. */
  ghost predicate Moves(v: World, e: Event, i: nat, claim: Option<Claim>, to: Resolution)
    requires i < |v.resolutions|
  {
    var at := v.resolutions[i];
    && StandsFor(to, Reclaimed(v, e, i, claim))
    && (at.Done? ==> to == at)
    && (!at.Done? ==> forall r :: to == Done(r) <==> Because(v, e, i, claim, r))
    && (!at.Waiting? ==> (to.Waiting? <==> Renews(v, e, i, claim)))
    && (!Judging(at) ==> (Judging(to) <==> GoesToJudgement(v, e, i, claim)))
    && (!at.Exchanging? ==> (to.Exchanging? <==> GoesToForge(v, e, i, claim)))
  }

  lemma CliMoves(v: World, e: Event, i: nat, claim: Option<Claim>)
    requires i < |v.resolutions| && StandsFor(v.resolutions[i], claim) && e.AsksCli? && e.i == i
    ensures |Step(v, e).resolutions| >= |v.resolutions| && Moves(v, e, i, claim, Step(v, e).resolutions[i])
  {
  }

  lemma VerdictMoves(v: World, e: Event, i: nat, claim: Option<Claim>)
    requires i < |v.resolutions| && StandsFor(v.resolutions[i], claim) && e.Validates? && e.i == i
    ensures |Step(v, e).resolutions| >= |v.resolutions| && Moves(v, e, i, claim, Step(v, e).resolutions[i])
  {
  }

  lemma AcquireMoves(v: World, e: Event, i: nat, claim: Option<Claim>)
    requires i < |v.resolutions| && StandsFor(v.resolutions[i], claim) && e == Acquires(i)
    ensures |Step(v, e).resolutions| >= |v.resolutions| && Moves(v, e, i, claim, Step(v, e).resolutions[i])
  {
  }

  /** What a resolution that rereads `store` becomes. */
  function Reread(store: Option<Credential>, at: Resolution): Resolution
    requires at.Rereading?
  {
    if store.None? then Done(RefreshDeclined)
    else if store.value.token != at.stored.token then AfterSection(at.stored, at.proactive, store)
    else if store.value.refresh.None? then Done(RefreshDeclined)
    else Exchanging(at.stored, store.value.refresh.value, at.proactive)
  }

  lemma RereadReaches(v: World, i: nat)
    requires i < |v.resolutions|
    ensures var to := Step(v, Rereads(i));
            && |to.resolutions| == |v.resolutions|
            && to.resolutions[i] ==
               if v.resolutions[i].Rereading? then Reread(v.store, v.resolutions[i]) else v.resolutions[i]
  {
  }

  lemma RereadMovesTo(v: World, i: nat, claim: Option<Claim>, to: Resolution)
    requires i < |v.resolutions| && StandsFor(v.resolutions[i], claim)
    requires to == if v.resolutions[i].Rereading? then Reread(v.store, v.resolutions[i]) else v.resolutions[i]
    ensures Moves(v, Rereads(i), i, claim, to)
  {
  }

  lemma RereadMoves(v: World, i: nat, claim: Option<Claim>)
    requires i < |v.resolutions| && StandsFor(v.resolutions[i], claim)
    ensures var u := Step(v, Rereads(i));
            |u.resolutions| >= |v.resolutions| && Moves(v, Rereads(i), i, claim, u.resolutions[i])
  {
    RereadReaches(v, i);
    RereadMovesTo(v, i, claim, Step(v, Rereads(i)).resolutions[i]);
  }

  lemma ExchangeMoves(v: World, e: Event, i: nat, claim: Option<Claim>)
    requires i < |v.resolutions| && StandsFor(v.resolutions[i], claim) && e.Exchanges? && e.i == i
    ensures |Step(v, e).resolutions| >= |v.resolutions| && Moves(v, e, i, claim, Step(v, e).resolutions[i])
  {
  }

  lemma PersistMoves(v: World, e: Event, i: nat, claim: Option<Claim>)
    requires i < |v.resolutions| && StandsFor(v.resolutions[i], claim) && e.Persists? && e.i == i
    ensures |Step(v, e).resolutions| >= |v.resolutions| && Moves(v, e, i, claim, Step(v, e).resolutions[i])
  {
  }

  lemma StepMoves(v: World, e: Event, i: nat, claim: Option<Claim>)
    requires i < |v.resolutions| && StandsFor(v.resolutions[i], claim)
    ensures |Step(v, e).resolutions| >= |v.resolutions| && Moves(v, e, i, claim, Step(v, e).resolutions[i])
  {
    if !Addresses(e, i) {
      OthersLeaveIt(v, e, i, claim);
    } else {
      match e
      case AsksCli(_, _, _) => CliMoves(v, e, i, claim);
      case Validates(_, _) => VerdictMoves(v, e, i, claim);
      case Acquires(_) => AcquireMoves(v, e, i, claim);
      case Rereads(_) => RereadMoves(v, i, claim);
      case Exchanges(_, _) => ExchangeMoves(v, e, i, claim);
      case Persists(_, _) => PersistMoves(v, e, i, claim);
    }
  }

  /** What the forge is shown and what the store is given is what the resolution stands for. */
  lemma StepUsesClaim(v: World, e: Event, i: nat, claim: Option<Claim>)
    requires i < |v.resolutions| && StandsFor(v.resolutions[i], claim) && claim.Some?
    ensures v.resolutions[i].Exchanging? && e.Exchanges? && e.i == i ==>
              |Step(v, e).log| == |v.log| + 1 &&
              Some(Step(v, e).log[|v.log|].refresh) == claim.value.credential.refresh
    ensures v.resolutions[i].Persisting? && e == Persists(i, true) ==> Step(v, e).store == Some(claim.value.credential)
  {
  }

  // ----- every run -----

  lemma RunSnoc(w: World, events: seq<Event>)
    requires events != []
    ensures Run(w, events) == Step(Run(w, events[..|events| - 1]), events[|events| - 1])
  {
    var before, e := events[..|events| - 1], events[|events| - 1];
    assert events == before + [e];
    Machine.RunAppend(Step, w, before, [e]);
    Machine.RunFirst(Step, Run(w, before), e, []);
    assert [e] + [] == [e];
  }

  lemma {:induction false} RunStandsFor(w: World, events: seq<Event>, i: nat)
    requires w.resolutions == []
    ensures i >= |Run(w, events).resolutions| ==> Claimed(w, events, i).None?
    ensures i < |Run(w, events).resolutions| ==> StandsFor(Run(w, events).resolutions[i], Claimed(w, events, i))
    decreases |events|
  {
    if events != [] {
      var before, e := events[..|events| - 1], events[|events| - 1];
      RunSnoc(w, events);
      RunStandsFor(w, before, i);
      if i < |Run(w, before).resolutions| { StepMoves(Run(w, before), e, i, Claimed(w, before, i)); }
    }
  }

  /** At every point of every run: a resolution answers exactly when there is a reason to, its answer is about the
      credential it then stands for, and it is final. It renews, goes on to be judged and is sent to the forge
      exactly when it should. */
  lemma AnswersAreAboutTheClaim(exclusive: bool, store: Option<Token>, events: seq<Event>, e: Event, i: nat)
    requires i < |Run(Initial(exclusive, store), events).resolutions|
    ensures var w := Initial(exclusive, store);
            var v, u := Run(w, events), Run(w, events + [e]);
            i < |u.resolutions| && Moves(v, e, i, Claimed(w, events, i), u.resolutions[i])
  {
    var w := Initial(exclusive, store);
    assert (events + [e])[..|events|] == events;
    RunSnoc(w, events + [e]);
    RunStandsFor(w, events, i);
    StepMoves(Run(w, events), e, i, Claimed(w, events, i));
  }

  /** What is shown to the forge and what is written to the store is the claim. */
  lemma TheClaimIsPresentedAndStored(exclusive: bool, store: Option<Token>, events: seq<Event>, e: Event, i: nat)
    requires i < |Run(Initial(exclusive, store), events).resolutions|
    requires !Run(Initial(exclusive, store), events).resolutions[i].Done?
    ensures var w := Initial(exclusive, store);
            var v, u := Run(w, events), Run(w, events + [e]);
            var claim := Claimed(w, events, i);
            && (v.resolutions[i].Exchanging? && e.Exchanges? && e.i == i ==>
                  && claim.Some? && |u.log| == |v.log| + 1
                  && Some(u.log[|v.log|].refresh) == claim.value.credential.refresh)
            && (v.resolutions[i].Persisting? && e == Persists(i, true) ==>
                  claim.Some? && u.store == Some(claim.value.credential))
  {
    var w := Initial(exclusive, store);
    assert (events + [e])[..|events|] == events;
    RunSnoc(w, events + [e]);
    RunStandsFor(w, events, i);
    if Claimed(w, events, i).Some? { StepUsesClaim(Run(w, events), e, i, Claimed(w, events, i)); }
  }

  /** A verdict in hand was pronounced, at some point of the run, on the credential the resolution stood for. */
  lemma {:induction false} EveryAnswerHasItsCause(exclusive: bool, store: Option<Token>, events: seq<Event>, i: nat)
    requires i < |Run(Initial(exclusive, store), events).resolutions|
    requires Run(Initial(exclusive, store), events).resolutions[i].Done?
    ensures exists k :: 0 <= k < |events| && AnsweredAt(Initial(exclusive, store), events, i, k)
    decreases |events|
  {
    var w := Initial(exclusive, store);
    var before, e := events[..|events| - 1], events[|events| - 1];
    assert events == before + [e];
    RunSnoc(w, events);
    var v := Run(w, before);
    NewcomersBegin(v, e, i);
    AnswersAreAboutTheClaim(exclusive, store, before, e, i);
    if v.resolutions[i].Done? {
      EveryAnswerHasItsCause(exclusive, store, before, i);
      var k :| 0 <= k < |before| && AnsweredAt(w, before, i, k);
      assert before[..k] == events[..k];
      assert AnsweredAt(w, events, i, k);
    } else {
      NewAnswer(v, e, i, Claimed(w, before, i), Run(w, events).resolutions[i]);
      assert AnsweredAt(w, events, i, |before|);
    }
  }

  lemma NewcomersBegin(v: World, e: Event, i: nat)
    requires i < |Step(v, e).resolutions|
    ensures i >= |v.resolutions| ==> Step(v, e).resolutions[i].Begun?
  {
  }

  lemma NewAnswer(v: World, e: Event, i: nat, claim: Option<Claim>, to: Resolution)
    requires i < |v.resolutions| && !v.resolutions[i].Done? && Moves(v, e, i, claim, to) && to.Done?
    ensures Because(v, e, i, claim, to.result)
  {
  }

  ghost predicate AnsweredAt(w: World, events: seq<Event>, i: nat, k: nat)
    requires k < |events|
  {
    && i < |Run(w, events[..k]).resolutions|
    && i < |Run(w, events).resolutions| && Run(w, events).resolutions[i].Done?
    && Because(Run(w, events[..k]), events[k], i, Claimed(w, events[..k], i), Run(w, events).resolutions[i].result)
  }

  // ----- leaving the section -----

  /** Resolution `i` has yet to hear, or has heard, what the forge says of `token`, and will not renew again. */
  ghost predicate IsAbout(w: World, i: nat, token: Token) {
    && i < |w.resolutions|
    && match w.resolutions[i]
       case Validating(_, credential, refreshed) => refreshed && credential.token == token
       case Revalidating(credential) => credential.token == token
       case Done(result) => result.Judged? && result.token == token
       case _ => false
  }

  lemma StaysAbout(w: World, e: Event, i: nat, token: Token)
    requires IsAbout(w, i, token)
    ensures IsAbout(Step(w, e), i, token)
  {
    if !Addresses(e, i) { OthersLeaveIt(w, e, i, None); }
  }

  lemma LeavesWithTheStore(v: World, e: Event, i: nat, claim: Option<Claim>)
    requires i < |v.resolutions| && StandsFor(v.resolutions[i], claim)
    requires InSection(v.resolutions[i]) && (e == Rereads(i) || e == Persists(i, true))
    requires Judging(Step(v, e).resolutions[i])
    ensures Step(v, e).store.Some? && IsAbout(Step(v, e), i, Step(v, e).store.value.token)
  {
  }

  /** A resolution that leaves the section with a credential answers, if ever, about the token the store held when
      it left: the minted one after its own rotation, the other caller's after theirs. */
  lemma AnswersWhatItLeftWith(
      exclusive: bool, store: Option<Token>, events: seq<Event>, e: Event, later: seq<Event>, i: nat)
    requires i < |Run(Initial(exclusive, store), events).resolutions|
    requires InSection(Run(Initial(exclusive, store), events).resolutions[i])
    requires var u := Run(Initial(exclusive, store), events + [e]);
             i < |u.resolutions| && !InSection(u.resolutions[i]) && !u.resolutions[i].Done?
    ensures var u := Run(Initial(exclusive, store), events + [e]);
            u.store.Some? && IsAbout(Run(u, later), i, u.store.value.token)
  {
    var w := Initial(exclusive, store);
    var v, u, claim := Run(w, events), Run(w, events + [e]), Claimed(w, events, i);
    assert (events + [e])[..|events|] == events;
    RunSnoc(w, events + [e]);
    RunStandsFor(w, events, i);
    StepMoves(v, e, i, claim);
    LeavesBy(v, e, i);
    LeavesWithTheStore(v, e, i, claim);
    var token := u.store.value.token;
    forall t, f | IsAbout(t, i, token) ensures IsAbout(Step(t, f), i, token) { StaysAbout(t, f, i, token); }
    Machine.RunKeeps(Step, t => IsAbout(t, i, token), u, later);
  }

  lemma LeavesBy(v: World, e: Event, i: nat)
    requires i < |v.resolutions| && i < |Step(v, e).resolutions| && InSection(v.resolutions[i])
    requires !InSection(Step(v, e).resolutions[i]) && !Step(v, e).resolutions[i].Done?
    ensures (e == Rereads(i) || e == Persists(i, true)) && Judging(Step(v, e).resolutions[i])
  {
    if !Addresses(e, i) { OthersLeaveIt(v, e, i, None); }
  }
}
