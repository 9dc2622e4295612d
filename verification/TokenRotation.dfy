/** `resolveGitHubAuth` and `refreshAndPersist` (`github-auth.ts`) as concurrent resolutions over one credential
    store, one account lock and one forge that rotates a refresh token on every successful exchange. */
module TokenRotation {
  import opened Json
  import Machine

  type Token = nat

  datatype Credential = Credential(token: Token, refresh: Option<Token>)

  datatype Cli = CliToken(token: Token) | CliFailure | CliMissing

  /** What `validateGitHubToken` says of a token. */
  datatype Verdict = Accepted | Rejected | Unreachable | OtherProblem

  datatype Result =
    | Judged(token: Token, verdict: Verdict)
    | CliUnavailable
    | NotConnected
    | RefreshDeclined
    | NetworkDown
    | Threw

  /** Where a resolution is suspended. `stored` is the credential it first read; `proactive` tells the renewal
      before validation from the one after a rejection. */
  datatype Resolution =
    | Begun
    | CliValidating(token: Token)
    | Validating(stored: Credential, credential: Credential, refreshed: bool)
    | Waiting(stored: Credential, proactive: bool)
    | Rereading(stored: Credential, proactive: bool)
    | Exchanging(stored: Credential, refresh: Token, proactive: bool)
    | Persisting(stored: Credential, minted: Credential, proactive: bool)
    | Revalidating(credential: Credential)
    | Done(result: Result)

  /** How the forge meets a refresh request; `renewable` says whether the new pair carries a refresh half. */
  datatype Exchange = Rotates(renewable: bool) | RotatesUnheard(renewable: bool) | Declines | NetworkFails | Errors

  /** A refresh token reached the forge. `lost` is the machine's `lost` at that moment. */
  datatype Presentation = Presentation(owner: nat, refresh: Token, rotated: bool, lost: bool)

  datatype Account = SignsIn(renewable: bool) | Pastes(token: Token) | Disconnects

  /** `exclusive`: the account lock is supplied (`withLock`). `latest` is the newest pair the account holder has:
      minted by the forge, signed in, pasted or removed. `lost`: a rotation happened whose pair never reached the
      store, and nobody signed in since. */
  datatype World = World(
    exclusive: bool,
    resolutions: seq<Resolution>,
    holder: Option<nat>,
    store: Option<Credential>,
    log: seq<Presentation>,
    minted: nat,
    latest: Option<Credential>,
    lost: bool)

  datatype Event =
    | Begins
    | AsksCli(i: nat, cli: Cli, nearExpiry: bool)
    | Validates(i: nat, verdict: Verdict)
    | Acquires(i: nat)
    | Rereads(i: nat)
    | Exchanges(i: nat, how: Exchange)
    | Persists(i: nat, ok: bool)
    | AccountChanges(change: Account)

  function Initial(exclusive: bool, store: Option<Token>): World {
    World(exclusive, [], None, if store.Some? then Some(Credential(store.value, Some(0))) else None, [], 1,
          if store.Some? then Some(Credential(store.value, Some(0))) else None, false)
  }

  // ----- the forge -----

  function Mint(w: World, renewable: bool): Credential {
    Credential(w.minted, if renewable then Some(w.minted) else None)
  }

  /** A refresh token is consumed once an exchange with it succeeded. */
  predicate Consumed(log: seq<Presentation>, refresh: Token) {
    exists k :: 0 <= k < |log| && log[k].rotated && log[k].refresh == refresh
  }

  // ----- one resolution -----

  function Set(w: World, i: nat, r: Resolution): World
    requires i < |w.resolutions|
  {
    w.(resolutions := w.resolutions[i := r])
  }

  /** A missing CLI falls through to the store; anything else is the CLI's own answer. */
  function AfterCli(store: Option<Credential>, cli: Cli, nearExpiry: bool): Resolution {
    match cli
    case CliToken(t) => CliValidating(t)
    case CliFailure => Done(CliUnavailable)
    case CliMissing =>
      if store.None? then Done(NotConnected)
      else if store.value.refresh.Some? && nearExpiry then Waiting(store.value, true)
      else Validating(store.value, store.value, false)
  }

  function AfterValidation(r: Resolution, verdict: Verdict): Resolution
    requires r.CliValidating? || r.Validating? || r.Revalidating?
  {
    match r
    case CliValidating(t) => Done(Judged(t, verdict))
    case Validating(stored, credential, refreshed) =>
      if verdict.Rejected? && !refreshed && stored.refresh.Some? then Waiting(stored, false)
      else Done(Judged(credential.token, verdict))
    case Revalidating(credential) => Done(Judged(credential.token, verdict))
  }

  /** The exclusive section returned a credential, or null. */
  function AfterSection(stored: Credential, proactive: bool, next: Option<Credential>): Resolution {
    if next.None? then Done(RefreshDeclined)
    else if proactive then Validating(stored, next.value, true)
    else Revalidating(next.value)
  }

  function LeaveSection(w: World, i: nat, r: Resolution): World
    requires i < |w.resolutions|
  {
    Set(w, i, r).(holder := None)
  }

  /** Re-read the store inside the section: gone, rotated by someone else, not renewable, or exchange it. */
  function DoReread(w: World, i: nat): World
    requires i < |w.resolutions| && w.resolutions[i].Rereading?
  {
    var Rereading(stored, proactive) := w.resolutions[i];
    if w.store.None? then LeaveSection(w, i, AfterSection(stored, proactive, None))
    else if w.store.value.token != stored.token then LeaveSection(w, i, AfterSection(stored, proactive, w.store))
    else if w.store.value.refresh.None? then LeaveSection(w, i, AfterSection(stored, proactive, None))
    else Set(w, i, Exchanging(stored, w.store.value.refresh.value, proactive))
  }

  /** The forge rotates only a refresh token it has not consumed. */
  predicate Rotated(w: World, refresh: Token, how: Exchange) {
    (how.Rotates? || how.RotatesUnheard?) && !Consumed(w.log, refresh)
  }

  function DoExchange(w: World, i: nat, how: Exchange): World
    requires i < |w.resolutions| && w.resolutions[i].Exchanging?
  {
    var Exchanging(stored, refresh, proactive) := w.resolutions[i];
    var rotated := Rotated(w, refresh, how);
    var v := w.(log := w.log + [Presentation(i, refresh, rotated, w.lost)]);
    if rotated then
      var pair := Mint(w, how.renewable);
      var u := v.(minted := w.minted + 1, latest := Some(pair));
      if how.Rotates? then Set(u, i, Persisting(stored, pair, proactive))
      else LeaveSection(u.(lost := true), i, Done(NetworkDown))
    else
      LeaveSection(v, i, Done(if how.NetworkFails? || how.RotatesUnheard? then NetworkDown
                              else if how.Errors? then Threw else RefreshDeclined))
  }

  function DoPersist(w: World, i: nat, ok: bool): World
    requires i < |w.resolutions| && w.resolutions[i].Persisting?
  {
    var Persisting(stored, minted, proactive) := w.resolutions[i];
    if ok then LeaveSection(w.(store := Some(minted)), i, AfterSection(stored, proactive, Some(minted)))
    else LeaveSection(w.(lost := true), i, Done(Threw))
  }

  predicate LockIsFree(w: World) { w.exclusive ==> w.holder.None? }

  /** Connect, paste and disconnect write the store under the same lock. */
  function DoAccount(w: World, change: Account): World {
    var next := match change
                case SignsIn(renewable) => Some(Mint(w, renewable))
                case Pastes(token) => Some(Credential(token, None))
                case Disconnects => None;
    w.(store := next, latest := next, lost := false, minted := w.minted + 1)
  }

  function Step(w: World, e: Event): World {
    match e
    case Begins => w.(resolutions := w.resolutions + [Begun])
    case AsksCli(i, cli, nearExpiry) =>
      if i < |w.resolutions| && w.resolutions[i].Begun? then Set(w, i, AfterCli(w.store, cli, nearExpiry)) else w
    case Validates(i, verdict) =>
      if i < |w.resolutions|
         && (w.resolutions[i].CliValidating? || w.resolutions[i].Validating? || w.resolutions[i].Revalidating?)
      then Set(w, i, AfterValidation(w.resolutions[i], verdict)) else w
    case Acquires(i) =>
      if i < |w.resolutions| && w.resolutions[i].Waiting? && LockIsFree(w) then
        Set(w, i, Rereading(w.resolutions[i].stored, w.resolutions[i].proactive)).(holder := Some(i))
      else w
    case Rereads(i) => if i < |w.resolutions| && w.resolutions[i].Rereading? then DoReread(w, i) else w
    case Exchanges(i, how) => if i < |w.resolutions| && w.resolutions[i].Exchanging? then DoExchange(w, i, how) else w
    case Persists(i, ok) => if i < |w.resolutions| && w.resolutions[i].Persisting? then DoPersist(w, i, ok) else w
    case AccountChanges(change) => if LockIsFree(w) then DoAccount(w, change) else w
  }

  function Run(w: World, events: seq<Event>): World { Machine.Run(Step, w, events) }

  // ----- the invariant -----

  predicate InSection(r: Resolution) { r.Rereading? || r.Exchanging? || r.Persisting? }

  predicate StoreIsConsumed(w: World) {
    w.store.Some? && w.store.value.refresh.Some? && Consumed(w.log, w.store.value.refresh.value)
  }

  predicate Locked(w: World) {
    && (forall i :: 0 <= i < |w.resolutions| ==> (InSection(w.resolutions[i]) <==> w.holder == Some(i)))
    && (w.holder.Some? ==> w.holder.value < |w.resolutions|)
  }

  /** The forge's tokens are fresh, and no pair it minted is consumed before it is stored. */
  predicate Fresh(w: World) {
    && (forall k :: 0 <= k < |w.log| ==> w.log[k].refresh < w.minted)
    && (w.store.Some? && w.store.value.refresh.Some? ==> w.store.value.refresh.value < w.minted)
  }

  /** Inside the section the store is what the holder read; outside it is the latest pair unless one was lost. */
  predicate Settled(w: World) {
    match Holding(w)
    case Persisting(_, minted, _) =>
      && !w.lost && StoreIsConsumed(w) && w.latest == Some(minted)
      && (minted.refresh.Some? ==> minted.refresh.value < w.minted && !Consumed(w.log, minted.refresh.value))
    case r =>
      && (StoreIsConsumed(w) <==> w.lost)
      && (!w.lost ==> w.store == w.latest)
      && (r.Exchanging? ==> w.store.Some? && w.store.value.refresh == Some(r.refresh))
  }

  function Holding(w: World): Resolution {
    if w.holder.Some? && w.holder.value < |w.resolutions| then w.resolutions[w.holder.value] else Begun
  }

  /** A presentation is a replay exactly when it was made while a rotation was lost. */
  predicate ReplaysAreLosses(log: seq<Presentation>) {
    forall k :: 0 <= k < |log| ==> (Consumed(log[..k], log[k].refresh) <==> log[k].lost)
  }

  predicate Inv(w: World) {
    w.exclusive && Locked(w) && Fresh(w) && Settled(w) && ReplaysAreLosses(w.log)
  }

  lemma ConsumedGrows(log: seq<Presentation>, p: Presentation, refresh: Token)
    ensures Consumed(log + [p], refresh) <==> Consumed(log, refresh) || (p.rotated && p.refresh == refresh)
  {
    var grown := log + [p];
    assert grown[|log|] == p;
    if Consumed(log, refresh) {
      var k :| 0 <= k < |log| && log[k].rotated && log[k].refresh == refresh;
      assert grown[k] == log[k];
    }
  }

  lemma ReplaysGrow(log: seq<Presentation>, p: Presentation)
    requires ReplaysAreLosses(log) && (Consumed(log, p.refresh) <==> p.lost)
    ensures ReplaysAreLosses(log + [p])
  {
    var grown := log + [p];
    forall k | 0 <= k < |grown| ensures Consumed(grown[..k], grown[k].refresh) <==> grown[k].lost {
      assert grown[..k] == if k < |log| then log[..k] else log;
    }
  }

  lemma FreshIsUnconsumed(w: World)
    requires Fresh(w)
    ensures forall refresh :: refresh >= w.minted ==> !Consumed(w.log, refresh)
  {
  }

  lemma RereadKeepsInv(w: World, i: nat)
    requires Inv(w) && i < |w.resolutions| && w.resolutions[i].Rereading?
    ensures Inv(DoReread(w, i))
  {
  }

  lemma ExchangeKeepsInv(w: World, i: nat, how: Exchange)
    requires Inv(w) && i < |w.resolutions| && w.resolutions[i].Exchanging?
    ensures Inv(DoExchange(w, i, how))
  {
    assert Holding(w) == w.resolutions[i];
    var refresh := w.resolutions[i].refresh;
    var p := Presentation(i, refresh, Rotated(w, refresh, how), w.lost);
    FreshIsUnconsumed(w);
    ReplaysGrow(w.log, p);
    ConsumedGrows(w.log, p, refresh);
    ConsumedGrows(w.log, p, w.minted);
  }

  lemma PersistKeepsInv(w: World, i: nat, ok: bool)
    requires Inv(w) && i < |w.resolutions| && w.resolutions[i].Persisting?
    ensures Inv(DoPersist(w, i, ok))
  {
    assert Holding(w) == w.resolutions[i];
  }

  lemma AccountKeepsInv(w: World, change: Account)
    requires Inv(w) && w.holder.None?
    ensures Inv(DoAccount(w, change))
  {
    FreshIsUnconsumed(w);
  }

  /** Steps that touch neither the lock, the store nor the forge. */
  lemma MoveKeepsInv(w: World, i: nat, r: Resolution)
    requires Inv(w) && i < |w.resolutions| && !InSection(w.resolutions[i]) && !InSection(r)
    ensures Inv(Set(w, i, r))
  {
    assert w.holder != Some(i);
    assert Holding(Set(w, i, r)) == Holding(w);
  }

  lemma StepKeepsInv(w: World, e: Event)
    requires Inv(w)
    ensures Inv(Step(w, e))
  {
    match e
    case Begins =>
      assert Holding(Step(w, e)) == Holding(w);
    case AsksCli(i, cli, nearExpiry) =>
      if i < |w.resolutions| && w.resolutions[i].Begun? { MoveKeepsInv(w, i, AfterCli(w.store, cli, nearExpiry)); }
    case Validates(i, verdict) =>
      if Step(w, e) != w { MoveKeepsInv(w, i, AfterValidation(w.resolutions[i], verdict)); }
    case Acquires(i) =>
    case Rereads(i) => if i < |w.resolutions| && w.resolutions[i].Rereading? { RereadKeepsInv(w, i); }
    case Exchanges(i, how) => if i < |w.resolutions| && w.resolutions[i].Exchanging? { ExchangeKeepsInv(w, i, how); }
    case Persists(i, ok) => if i < |w.resolutions| && w.resolutions[i].Persisting? { PersistKeepsInv(w, i, ok); }
    case AccountChanges(change) => if w.holder.None? { AccountKeepsInv(w, change); }
  }

  lemma RunKeepsInv(w: World, events: seq<Event>)
    requires Inv(w)
    ensures Inv(Run(w, events))
  {
    forall t, e | Inv(t) ensures Inv(Step(t, e)) { StepKeepsInv(t, e); }
    Machine.RunKeeps(Step, Inv, w, events);
  }

  // ----- what holds over every run under the lock -----

  /** Whatever the interleaving and the faults: a refresh token is replayed exactly when its presentation falls
      after a lost rotation, and while nobody is in the section and nothing is lost the store holds the latest
      pair, which the forge still honours. */
  lemma RotationSafety(store: Option<Token>, events: seq<Event>)
    ensures var w := Run(Initial(true, store), events);
            && ReplaysAreLosses(w.log)
            && (w.holder.None? && !w.lost ==> w.store == w.latest && !StoreIsConsumed(w))
  {
    RunKeepsInv(Initial(true, store), events);
  }

  /** The two ways a rotation gets lost: the forge rotated but its answer never came, or the new pair could not
      be written. */
  predicate Faulty(e: Event) { (e.Persists? && !e.ok) || (e.Exchanges? && e.how.RotatesUnheard?) }

  lemma {:induction false} OnlyFaultsLose(w: World, events: seq<Event>)
    requires !w.lost && forall e :: e in events ==> !Faulty(e)
    ensures !Run(w, events).lost
    ensures forall k :: |w.log| <= k < |Run(w, events).log| ==> !Run(w, events).log[k].lost
    ensures w.log <= Run(w, events).log
    decreases events
  {
    if events != [] {
      assert events[0] in events;
      OnlyFaultsLose(Step(w, events[0]), events[1..]);
    }
  }

  /** A network failure means no rotation happened and every write lands: then a refresh token consumed by a
      successful exchange is never presented again, and outside the section the store is the latest pair. */
  lemma ConsumedIsNeverPresentedAgain(store: Option<Token>, events: seq<Event>)
    requires forall e :: e in events ==> !Faulty(e)
    ensures var w := Run(Initial(true, store), events);
            && (forall i, j :: 0 <= i < j < |w.log| && w.log[i].rotated ==> w.log[j].refresh != w.log[i].refresh)
            && (w.holder.None? ==> w.store == w.latest)
  {
    RotationSafety(store, events);
    OnlyFaultsLose(Initial(true, store), events);
    var log := Run(Initial(true, store), events).log;
    forall i, j | 0 <= i < j < |log| && log[i].rotated ensures log[j].refresh != log[i].refresh {
      assert !Consumed(log[..j], log[j].refresh);
      assert log[..j][i] == log[i];
    }
  }

  // ----- what holds with or without the lock -----

  function Exchanged(log: seq<Presentation>, owner: nat): nat {
    if log == [] then 0
    else Exchanged(log[..|log| - 1], owner) + if log[|log| - 1].owner == owner then 1 else 0
  }

  lemma ExchangedGrows(log: seq<Presentation>, p: Presentation, owner: nat)
    ensures Exchanged(log + [p], owner) == Exchanged(log, owner) + if p.owner == owner then 1 else 0
  {
    assert (log + [p])[..|log|] == log;
  }

  /** A resolution that may still exchange has not yet. */
  predicate MayExchange(r: Resolution) {
    r.Begun? || r.Waiting? || r.Rereading? || r.Exchanging? || (r.Validating? && !r.refreshed)
  }

  ghost predicate Sparing(w: World) {
    && (forall i :: 0 <= i < |w.resolutions| ==>
          Exchanged(w.log, i) <= 1 && (MayExchange(w.resolutions[i]) ==> Exchanged(w.log, i) == 0))
    && (forall i :: i >= |w.resolutions| ==> Exchanged(w.log, i) == 0)
  }

  /** A step that presents nothing and gives no resolution its exchange back. */
  lemma QuietKeepsSparing(w: World, u: World)
    requires Sparing(w) && u.log == w.log && |w.resolutions| <= |u.resolutions|
    requires forall i :: 0 <= i < |w.resolutions| ==> (MayExchange(u.resolutions[i]) ==> MayExchange(w.resolutions[i]))
    ensures Sparing(u)
  {
    forall i | 0 <= i < |u.resolutions|
      ensures Exchanged(u.log, i) <= 1 && (MayExchange(u.resolutions[i]) ==> Exchanged(u.log, i) == 0)
    {
      if i < |w.resolutions| { assert MayExchange(u.resolutions[i]) ==> MayExchange(w.resolutions[i]); }
    }
  }

  lemma ExchangeKeepsSparing(w: World, i: nat, how: Exchange)
    requires Sparing(w) && i < |w.resolutions| && w.resolutions[i].Exchanging?
    ensures Sparing(DoExchange(w, i, how))
  {
    var refresh := w.resolutions[i].refresh;
    var u := DoExchange(w, i, how);
    var p := Presentation(i, refresh, Rotated(w, refresh, how), w.lost);
    assert u.log == w.log + [p] && |u.resolutions| == |w.resolutions|;
    assert !MayExchange(u.resolutions[i]);
    assert forall k :: 0 <= k < |w.resolutions| && k != i ==> u.resolutions[k] == w.resolutions[k];
    forall owner ensures Exchanged(u.log, owner) == Exchanged(w.log, owner) + if i == owner then 1 else 0 {
      ExchangedGrows(w.log, p, owner);
    }
  }

  lemma StepKeepsSparing(w: World, e: Event)
    requires Sparing(w)
    ensures Sparing(Step(w, e))
  {
    if e.Exchanges? && e.i < |w.resolutions| && w.resolutions[e.i].Exchanging? {
      ExchangeKeepsSparing(w, e.i, e.how);
    } else {
      QuietKeepsSparing(w, Step(w, e));
    }
  }

  lemma SparingRun(w: World, events: seq<Event>)
    requires Sparing(w)
    ensures Sparing(Run(w, events))
  {
    forall t, e | Sparing(t) ensures Sparing(Step(t, e)) { StepKeepsSparing(t, e); }
    Machine.RunKeeps(Step, Sparing, w, events);
  }

  /** No resolution presents a refresh token twice, whichever branch it renews in. */
  lemma AtMostOneExchange(exclusive: bool, store: Option<Token>, events: seq<Event>, i: nat)
    ensures Exchanged(Run(Initial(exclusive, store), events).log, i) <= 1
  {
    SparingRun(Initial(exclusive, store), events);
    var w := Run(Initial(exclusive, store), events);
    assert i < |w.resolutions| || i >= |w.resolutions|;
  }

  predicate Addresses(e: Event, i: nat) {
    match e
    case Begins => false
    case AsksCli(k, _, _) => k == i
    case Validates(k, _) => k == i
    case Acquires(k) => k == i
    case Rereads(k) => k == i
    case Exchanges(k, _) => k == i
    case Persists(k, _) => k == i
    case AccountChanges(_) => false
  }

  /** The CLI answered resolution `i`: with a token it never looks past, or with a failure. */
  predicate AnsweredByCli(w: World, i: nat, cli: Cli) {
    && i < |w.resolutions|
    && (cli.CliToken? ==> w.resolutions[i] == CliValidating(cli.token)
                          || (w.resolutions[i].Done? && w.resolutions[i].result.Judged? &&
                              w.resolutions[i].result.token == cli.token))
    && (cli.CliFailure? ==> w.resolutions[i] == Done(CliUnavailable))
  }

  lemma CliStep(w: World, i: nat, cli: Cli, e: Event)
    requires !cli.CliMissing? && AnsweredByCli(w, i, cli)
    ensures AnsweredByCli(Step(w, e), i, cli)
    ensures Addresses(e, i) ==> Step(w, e).(resolutions := w.resolutions) == w
  {
    if Addresses(e, i) {
      assert (e.Validates? && w.resolutions[i].CliValidating?) || Step(w, e) == w;
    } else {
      assert Step(w, e).resolutions[i] == w.resolutions[i];
    }
  }

  /** A present CLI never touches the store: none of that resolution's steps, ever, changes the store, the lock or
      what the forge has seen, and its outcome is about the CLI's token. */
  lemma {:induction false} CliStaysAuthoritative(w: World, i: nat, cli: Cli, events: seq<Event>)
    requires !cli.CliMissing? && AnsweredByCli(w, i, cli)
    ensures AnsweredByCli(Run(w, events), i, cli)
    ensures forall k :: 0 <= k < |events| && Addresses(events[k], i) ==>
              var v := Run(w, events[..k]);
              Step(v, events[k]).(resolutions := v.resolutions) == v
    decreases events
  {
    if events != [] {
      var u := Step(w, events[0]);
      CliStep(w, i, cli, events[0]);
      CliStaysAuthoritative(u, i, cli, events[1..]);
      forall k | 0 <= k < |events| && Addresses(events[k], i)
        ensures var v := Run(w, events[..k]); Step(v, events[k]).(resolutions := v.resolutions) == v
      {
        if k > 0 {
          assert events[..k] == [events[0]] + events[1..][..k - 1];
          Machine.RunFirst(Step, w, events[0], events[1..][..k - 1]);
          assert events[k] == events[1..][k - 1];
        }
      }
    }
  }

  // ----- why each hypothesis is there -----

  /** Two resolutions renew the same pair with no lock supplied: the second presents what the first consumed. */
  lemma WithoutTheLockARaceReplays()
    ensures exists events: seq<Event> ::
              && (forall e :: e in events ==> !Faulty(e))
              && var log := Run(Initial(false, Some(7)), events).log;
                 |log| == 2 && log[0].rotated && log[1].refresh == log[0].refresh
  {
    var w := Initial(false, Some(7));
    var begin := [Begins, Begins, AsksCli(0, CliMissing, true), AsksCli(1, CliMissing, true)];
    var race := [Acquires(0), Acquires(1), Rereads(0), Rereads(1)];
    var exchange := [Exchanges(0, Rotates(true)), Exchanges(1, Rotates(true))];
    var w1 := BothBegin(w, begin);
    var w2 := BothRace(w1, race);
    var w3 := BothExchange(w2, exchange);
    Machine.RunAppend(Step, w, begin, race + exchange);
    Machine.RunAppend(Step, w1, race, exchange);
    var events := begin + (race + exchange);
    assert Run(w, events) == w3;
    assert forall e :: e in events ==> !Faulty(e);
  }

  lemma BothExchange(w: World, events: seq<Event>) returns (u: World)
    requires w.log == [] && w.resolutions == [Exchanging(PAIR, 0, true), Exchanging(PAIR, 0, true)]
    requires events == [Exchanges(0, Rotates(true)), Exchanges(1, Rotates(true))]
    ensures u == Run(w, events)
    ensures |u.log| == 2 && u.log[0].rotated && u.log[1].refresh == u.log[0].refresh
  {
    var w1 := Step(w, events[0]);
    assert w1.log == [Presentation(0, 0, true, w.lost)] && w1.resolutions[1] == w.resolutions[1];
    u := Step(w1, events[1]);
    Machine.RunIsChain(Step, [w, w1, u], events);
  }

  const PAIR := Credential(7, Some(0))

  lemma BothBegin(w: World, events: seq<Event>) returns (u: World)
    requires w.resolutions == [] && w.store == Some(PAIR)
    requires events == [Begins, Begins, AsksCli(0, CliMissing, true), AsksCli(1, CliMissing, true)]
    ensures u == Run(w, events) && u == w.(resolutions := [Waiting(PAIR, true), Waiting(PAIR, true)])
  {
    var w1 := Step(w, events[0]);
    var w2 := Step(w1, events[1]);
    var w3 := Step(w2, events[2]);
    u := Step(w3, events[3]);
    assert w2.resolutions == [Begun, Begun];
    assert u.resolutions == [Waiting(PAIR, true), Waiting(PAIR, true)];
    Machine.RunIsChain(Step, [w, w1, w2, w3, u], events);
  }

  lemma BothRace(w: World, events: seq<Event>) returns (u: World)
    requires w.resolutions == [Waiting(PAIR, true), Waiting(PAIR, true)] && w.store == Some(PAIR) && !w.exclusive
    requires events == [Acquires(0), Acquires(1), Rereads(0), Rereads(1)]
    ensures u == Run(w, events) && u.log == w.log && u.lost == w.lost
    ensures u.resolutions == [Exchanging(PAIR, 0, true), Exchanging(PAIR, 0, true)]
  {
    var w1 := Step(w, events[0]);
    var w2 := Step(w1, events[1]);
    assert w2.resolutions == [Rereading(PAIR, true), Rereading(PAIR, true)];
    var w3 := Step(w2, events[2]);
    assert w3.resolutions == [Exchanging(PAIR, 0, true), Rereading(PAIR, true)];
    u := Step(w3, events[3]);
    assert u.resolutions == [Exchanging(PAIR, 0, true), Exchanging(PAIR, 0, true)];
    Machine.RunIsChain(Step, [w, w1, w2, w3, u], events);
  }

  /** A resolution that asks the CLI in vain, gets the lock and rereads the store. */
  function ToExchange(i: nat): seq<Event> { [Begins, AsksCli(i, CliMissing, true), Acquires(i), Rereads(i)] }

  /** One fault is enough: the answer with the new pair is never heard, or the pair cannot be written, nothing else
      goes wrong, and the next renewal presents a dead token. */
  lemma ALostRotationReplays(unheard: bool)
    ensures var fault := if unheard then Exchanges(0, RotatesUnheard(true)) else Persists(0, false);
            exists before: seq<Event>, after: seq<Event> ::
              && (forall e :: e in before + after ==> !Faulty(e))
              && var log := Run(Initial(true, Some(7)), before + [fault] + after).log;
                 |log| == 2 && log[0].rotated && log[1].refresh == log[0].refresh
  {
    var exchanged := if unheard then [] else [Exchanges(0, Rotates(true))];
    var before := ToExchange(0) + exchanged;
    var after := ToExchange(1) + [Exchanges(1, Rotates(true))];
    assert forall e :: e in before + after ==> !Faulty(e);
    FaultThenRenewal(unheard, before, after);
  }

  lemma FaultThenRenewal(unheard: bool, before: seq<Event>, after: seq<Event>)
    requires before == ToExchange(0) + if unheard then [] else [Exchanges(0, Rotates(true))]
    requires after == ToExchange(1) + [Exchanges(1, Rotates(true))]
    ensures var fault := if unheard then Exchanges(0, RotatesUnheard(true)) else Persists(0, false);
            var log := Run(Initial(true, Some(7)), before + [fault] + after).log;
            |log| == 2 && log[0].rotated && log[1].refresh == log[0].refresh
  {
    var w := Initial(true, Some(7));
    var fault := if unheard then Exchanges(0, RotatesUnheard(true)) else Persists(0, false);
    var losing := if unheard then [fault] else [Exchanges(0, Rotates(true)), fault];
    var again, last := ToExchange(1), [Exchanges(1, Rotates(true))];
    var w1 := ReachExchange(w, ToExchange(0));
    var w2 := LosingRun(w1, unheard, losing);
    var w3 := ReachExchange(w2, again);
    ExchangesAgain(w3, last);
    assert before + [fault] + after == ToExchange(0) + (losing + (again + last));
    Machine.RunAppend(Step, w, ToExchange(0), losing + (again + last));
    Machine.RunAppend(Step, w1, losing, again + last);
    Machine.RunAppend(Step, w2, again, last);
  }

  lemma ExchangesAgain(w: World, events: seq<Event>)
    requires |w.resolutions| == 2 && w.resolutions[1] == Exchanging(PAIR, 0, true) &&
             events == [Exchanges(1, Rotates(true))]
    ensures exists p: Presentation :: p.refresh == 0 && Run(w, events).log == w.log + [p]
  {
    var u := Step(w, events[0]);
    Machine.RunIsChain(Step, [w, u], events);
    assert u.log == w.log + [Presentation(1, 0, Rotated(w, 0, Rotates(true)), w.lost)];
  }

  /** A new resolution finds the pair near expiry, waits for a free lock and is about to exchange it. */
  lemma ReachExchange(w: World, events: seq<Event>) returns (u: World)
    requires w.store == Some(PAIR) && w.holder.None?
    requires events == ToExchange(|w.resolutions|)
    ensures u == Run(w, events)
    ensures u == w.(resolutions := w.resolutions + [Exchanging(PAIR, 0, true)], holder := Some(|w.resolutions|))
  {
    var i := |w.resolutions|;
    var w1 := Step(w, events[0]);
    var w2 := Step(w1, events[1]);
    assert w2.resolutions == w.resolutions + [Waiting(PAIR, true)];
    var w3 := Step(w2, events[2]);
    assert w3.resolutions == w.resolutions + [Rereading(PAIR, true)];
    u := Step(w3, events[3]);
    assert u.resolutions == w.resolutions + [Exchanging(PAIR, 0, true)];
    Machine.RunIsChain(Step, [w, w1, w2, w3, u], events);
  }

  lemma LosingRun(w: World, unheard: bool, events: seq<Event>) returns (u: World)
    requires w.log == [] && w.resolutions == [Exchanging(PAIR, 0, true)]
    requires events ==
             if unheard then [Exchanges(0, RotatesUnheard(true))] else [Exchanges(0, Rotates(true)), Persists(0, false)]
    ensures u == Run(w, events)
    ensures |u.resolutions| == 1 && u.holder.None? && u.store == w.store && u.exclusive == w.exclusive
    ensures u.log == [Presentation(0, 0, true, w.lost)]
  {
    var w1 := Step(w, events[0]);
    if unheard {
      u := w1;
      Machine.RunIsChain(Step, [w, w1], events);
    } else {
      u := Step(w1, events[1]);
      Machine.RunIsChain(Step, [w, w1, u], events);
    }
  }
}
