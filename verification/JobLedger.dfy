/**
  The ledger of appearance jobs.  Requests, workers, deadlines and cleaning up interleave; each
  method is one stretch of the program under its lock, or one call of a worker to the service.
*/
module JobLedger {
  import opened Wrappers
  import opened JobJournal

  // Where a worker stands.
  datatype PreviewStage = Compiling | Made(preview: PreviewId) | Kept
  datatype Outcome = Success | Refused(category: string) | Unexpected
  datatype ApplyStage = Waiting | Locked | InService | Returned(outcome: Outcome) | Released(outcome: Outcome)
  datatype Previewer = Previewer(request: RequestId, stage: PreviewStage)
  datatype Applier = Applier(request: RequestId, preview: PreviewId, stage: ApplyStage)

  datatype Step =
    | RequestPreview(request: RequestId, mode: string, sources: map<string, string>, starts: bool, now: Time)
    | RequestApply(request: RequestId, preview: PreviewId, starts: bool, now: Time)
    | PreviewGoesOn(worker: Worker, result: Result<PreviewId, string>, now: Time)
    | ApplyGoesOn(worker: Worker, outcome: Outcome, now: Time)
    | AskStatus(request: RequestId, now: Time)

  // An applying worker holds its preview until it has released the reservation.
  predicate Holds(a: Applier) {
    !a.stage.Released?
  }

  // After this the token is of no more use; after the others the apply may be asked for again.
  predicate UsesUp(outcome: Outcome) {
    outcome == Success || (outcome.Refused? && outcome.category != "busy")
  }

  // How the job of an applying worker ends.
  function PhaseOf(outcome: Outcome): (phase: Phase)
    ensures !IsRunning(phase) && (phase == Complete <==> outcome == Success)
  {
    match outcome
    case Success => Complete
    case Refused(category) => Error(category)
    case Unexpected => Error("completion_unknown")
  }

  // How the job of a worker ends with its next step, if it does.
  function ApplyEnd(stage: ApplyStage): Option<Phase> {
    if stage.Released? then Some(PhaseOf(stage.outcome)) else None
  }

  function PreviewEnd(stage: PreviewStage, result: Result<PreviewId, string>): Option<Phase> {
    match stage
    case Compiling => if result.Ok? then None else Some(Error(result.error))
    case Made(_) => None
    case Kept => Some(Ready)
  }

  // A worker that ends its job says so.
  function Reported(r: RequestId, end: Option<Phase>, now: Time, w: Worker): Journal {
    if end.Some? then [Ends(r, end.value, now, Some(w))] else []
  }

  function TokensAfter(tokens: map<PreviewId, Time>, stage: PreviewStage, now: Time): map<PreviewId, Time> {
    if stage.Made? then tokens[stage.preview := now] else tokens
  }

  // The own steps a worker still has to make.
  function ApplyStepsLeft(stage: ApplyStage): nat {
    match stage case Waiting => 5 case Locked => 4 case InService => 3 case Returned(_) => 2 case Released(_) => 1
  }

  function PreviewStepsLeft(stage: PreviewStage): nat {
    match stage case Compiling => 3 case Made(_) => 2 case Kept => 1
  }

  // Tokens made more than ten minutes ago are cleaned up with the jobs; reserved tokens are not.
  function Dropped(tokens: map<PreviewId, Time>, reservations: map<PreviewId, RequestId>, now: Time): set<PreviewId> {
    set p | p in tokens && now - tokens[p] > KEPT_FOR && p !in reservations
  }

  // A token that is not too old and that nobody has reserved.
  predicate IsUsable(tokens: map<PreviewId, Time>, reservations: map<PreviewId, RequestId>, p: PreviewId, now: Time) {
    p in tokens && now - tokens[p] <= KEPT_FOR && p !in reservations
  }

  // A previewing worker came closer to its end, and its job ended exactly if that called for it.
  ghost predicate PreviewMoves(w: Worker, result: Result<PreviewId, string>, before: map<Worker, Previewer>,
                               after: map<Worker, Previewer>, jobsBefore: map<RequestId, Phase>,
                               jobsAfter: map<RequestId, Phase>)
    requires w in before
  {
    var end := PreviewEnd(before[w].stage, result);
    && (w in after ==> PreviewStepsLeft(after[w].stage) < PreviewStepsLeft(before[w].stage))
    && (w in after <==> end.None?)
    && jobsAfter == if end.Some? then jobsBefore[before[w].request := end.value] else jobsBefore
  }

  // Exactly a request that was started has a new worker, and that one has reserved the preview.
  ghost predicate Launched(response: Response, r: RequestId, p: PreviewId, next: Worker,
                           before: map<Worker, Applier>, after: map<Worker, Applier>,
                           reserved: map<PreviewId, RequestId>, reservedAfter: map<PreviewId, RequestId>)
  {
    if response == Started then after == before[next := Applier(r, p, Waiting)] && reservedAfter == reserved[p := r]
    else after == before && reservedAfter == reserved
  }

  // What the journal says of a request that got its answer.
  function Noted(response: Response, r: RequestId, payload: Payload, phase: Phase, deadline: Time, w: Worker,
                 now: Time): Journal
  {
    match response
    case Started => [Begins(r, payload, phase, deadline, w)]
    case NotStarted => [CannotBegin(r, payload, now)]
    case _ => []
  }

  // The jobs after a request got its answer.
  function JobsAfter(jobs: map<RequestId, Phase>, r: RequestId, phase: Phase,
                     response: Response): map<RequestId, Phase> {
    match response
    case Started => jobs[r := phase]
    case NotStarted => jobs[r := Error("completion_unknown")]
    case _ => jobs
  }

  function WithStage(appliers: map<Worker, Applier>, w: Worker, stage: ApplyStage): map<Worker, Applier>
    requires w in appliers
  {
    appliers[w := appliers[w].(stage := stage)]
  }

  // Both hold the same preview.
  predicate HoldOne(a: Applier, b: Applier) {
    Holds(a) && Holds(b) && a.preview == b.preview
  }

  // A reserved preview has exactly one holder.
  ghost predicate HoldersOk(reservations: map<PreviewId, RequestId>, holder: map<PreviewId, Worker>,
                            appliers: map<Worker, Applier>)
  {
    && reservations.Keys == holder.Keys
    && (forall p :: p in holder ==>
          && holder[p] in appliers && Holds(appliers[holder[p]])
          && appliers[holder[p]].preview == p && appliers[holder[p]].request == reservations[p])
    && (forall w :: w in appliers && Holds(appliers[w]) ==>
          appliers[w].preview in holder && holder[appliers[w].preview] == w)
  }

  predicate HasLock(a: Applier) {
    a.stage == Locked || a.stage == InService
  }

  // The service serves one worker at a time.
  ghost predicate ServiceOk(inService: Option<Worker>, appliers: map<Worker, Applier>) {
    && (inService.Some? ==> inService.value in appliers && HasLock(appliers[inService.value]))
    && (forall w :: w in appliers && HasLock(appliers[w]) ==> inService == Some(w))
  }

  // The preview a worker inside the service has taken out.
  ghost function InHand(inService: Option<Worker>, appliers: map<Worker, Applier>): multiset<PreviewId> {
    if inService.Some? && inService.value in appliers && appliers[inService.value].stage == InService
    then multiset{appliers[inService.value].preview}
    else multiset{}
  }

  // Each time a preview was stored, it is still kept, in hand, used up, or was dropped.
  ghost predicate CountsOk(stored: multiset<PreviewId>, succeeded: multiset<PreviewId>, previews: set<PreviewId>,
                           inHand: multiset<PreviewId>) {
    succeeded + multiset(previews) + inHand <= stored
  }

  // A running job has a live worker.
  ghost predicate RunnersOk(jobs: map<RequestId, Phase>, runner: map<RequestId, Worker>,
                            previewers: map<Worker, Previewer>, appliers: map<Worker, Applier>)
  {
    && (forall r :: r in jobs && jobs[r] == Previewing ==>
          r in runner && runner[r] in previewers && previewers[runner[r]].request == r)
    && (forall r :: r in jobs && jobs[r] == Applying ==>
          r in runner && runner[r] in appliers && appliers[runner[r]].request == r)
  }

  // No two workers have one number, and none has the next one.
  ghost predicate Numbered(next: Worker, previewers: map<Worker, Previewer>, appliers: map<Worker, Applier>) {
    && (forall w :: w in previewers ==> w < next && w !in appliers)
    && (forall w :: w in appliers ==> w < next)
  }

  // Who works for which request.
  ghost function Working(previewers: map<Worker, Previewer>, appliers: map<Worker, Applier>): map<Worker, RequestId> {
    map w | w in previewers.Keys + appliers.Keys :: if w in previewers then previewers[w].request
      else appliers[w].request
  }

  // The journal is how the books came about, and knows who works.
  ghost predicate Accounts(journal: Journal, books: Books, working: map<Worker, RequestId>) {
    IsJournal(journal) && Replay(journal) == books && Alive(journal) == working
  }

  // What the workers have in hand is in order.
  ghost predicate ServedOk(reservations: map<PreviewId, RequestId>, holder: map<PreviewId, Worker>,
                           inService: Option<Worker>, appliers: map<Worker, Applier>,
                           stored: multiset<PreviewId>, succeeded: multiset<PreviewId>, previews: set<PreviewId>)
  {
    && HoldersOk(reservations, holder, appliers) && ServiceOk(inService, appliers)
    && CountsOk(stored, succeeded, previews, InHand(inService, appliers))
  }

  // The books tell what the workers do, and how that came about.
  ghost predicate TendedOk(journal: Journal, b: Books, runner: map<RequestId, Worker>, next: Worker,
                           previewers: map<Worker, Previewer>, appliers: map<Worker, Applier>)
  {
    && RunnersOk(b.jobs, runner, previewers, appliers) && Numbered(next, previewers, appliers)
    && Accounts(journal, b, Working(previewers, appliers))
  }

  // ----- how the parts of the books follow a step ------------------------------------------------------

  lemma HolderAdded(reservations: map<PreviewId, RequestId>, holder: map<PreviewId, Worker>,
                    appliers: map<Worker, Applier>,
                    p: PreviewId, r: RequestId, w: Worker)
    requires p !in reservations && w !in appliers
    ensures HoldersOk(reservations, holder, appliers) ==>
      HoldersOk(reservations[p := r], holder[p := w], appliers[w := Applier(r, p, Waiting)])
  {
  }

  lemma HolderMoved(reservations: map<PreviewId, RequestId>, holder: map<PreviewId, Worker>,
                    appliers: map<Worker, Applier>,
                    w: Worker, stage: ApplyStage)
    requires w in appliers && Holds(appliers[w]) && !stage.Released?
    ensures HoldersOk(reservations, holder, appliers) ==>
      HoldersOk(reservations, holder, appliers[w := appliers[w].(stage := stage)])
  {
  }

  lemma HolderReleased(reservations: map<PreviewId, RequestId>, holder: map<PreviewId, Worker>,
                       appliers: map<Worker, Applier>,
                       w: Worker, outcome: Outcome)
    requires w in appliers && Holds(appliers[w])
    ensures HoldersOk(reservations, holder, appliers) ==>
      var p := appliers[w].preview;
      HoldersOk(reservations - {p}, holder - {p}, WithStage(appliers, w, Released(outcome)))
  {
  }

  lemma HolderEnded(reservations: map<PreviewId, RequestId>, holder: map<PreviewId, Worker>,
                    appliers: map<Worker, Applier>, w: Worker)
    requires w in appliers && !Holds(appliers[w])
    ensures HoldersOk(reservations, holder, appliers) ==>
      HoldersOk(reservations, holder, appliers - {w})
  {
  }

  // No two workers hold the same preview.
  lemma HoldersAreDistinct(reservations: map<PreviewId, RequestId>, holder: map<PreviewId, Worker>,
                           appliers: map<Worker, Applier>,
                           v: Worker, w: Worker)
    requires HoldersOk(reservations, holder, appliers) && v in appliers && w in appliers
      && HoldOne(appliers[v], appliers[w])
    ensures v == w && reservations[appliers[w].preview] == appliers[w].request
  {
  }

  lemma ServiceUnmoved(inService: Option<Worker>, appliers: map<Worker, Applier>, w: Worker, a: Applier)
    requires inService != Some(w) && !HasLock(a)
    ensures ServiceOk(inService, appliers) ==>
      ServiceOk(inService, appliers[w := a]) && InHand(inService, appliers[w := a]) == InHand(inService, appliers)
  {
  }

  lemma ServiceEntered(appliers: map<Worker, Applier>, w: Worker)
    requires w in appliers
    ensures ServiceOk(None, appliers) ==>
      ServiceOk(Some(w), WithStage(appliers, w, Locked))
        && InHand(Some(w), WithStage(appliers, w, Locked)) == multiset{}
  {
  }

  lemma ServiceTakes(inService: Option<Worker>, appliers: map<Worker, Applier>, w: Worker)
    requires w in appliers && appliers[w].stage == Locked
    ensures ServiceOk(inService, appliers) ==>
      && inService == Some(w) && InHand(inService, appliers) == multiset{}
      && ServiceOk(inService, WithStage(appliers, w, InService))
      && InHand(inService, WithStage(appliers, w, InService)) == multiset{appliers[w].preview}
  {
  }

  lemma ServiceLeft(inService: Option<Worker>, appliers: map<Worker, Applier>, w: Worker, outcome: Outcome)
    requires w in appliers && HasLock(appliers[w])
    ensures ServiceOk(inService, appliers) ==>
      && inService == Some(w)
      && InHand(inService, appliers) ==
        (if appliers[w].stage == InService then multiset{appliers[w].preview} else multiset{})
      && ServiceOk(None, WithStage(appliers, w, Returned(outcome)))
  {
  }

  lemma TakenInHand(stored: multiset<PreviewId>, succeeded: multiset<PreviewId>, previews: set<PreviewId>, p: PreviewId)
    requires p in previews
    ensures CountsOk(stored, succeeded, previews, multiset{}) ==>
      CountsOk(stored, succeeded, previews - {p}, multiset{p})
  {
    assert previews == (previews - {p}) + {p};
    assert multiset(previews) == multiset(previews - {p}) + multiset{p};
  }

  lemma OutOfHand(stored: multiset<PreviewId>, succeeded: multiset<PreviewId>, previews: set<PreviewId>, p: PreviewId)
    ensures CountsOk(stored, succeeded, previews, multiset{p}) ==>
      CountsOk(stored, succeeded + multiset{p}, previews, multiset{})
        && CountsOk(stored, succeeded, previews, multiset{})
  {
  }

  lemma ServiceWithout(inService: Option<Worker>, appliers: map<Worker, Applier>, w: Worker)
    requires w in appliers && !HasLock(appliers[w])
    ensures ServiceOk(inService, appliers) ==>
      ServiceOk(inService, appliers - {w}) && InHand(inService, appliers - {w}) == InHand(inService, appliers)
  {
  }

  lemma ApplierAdded(jobs: map<RequestId, Phase>, runner: map<RequestId, Worker>, previewers: map<Worker, Previewer>,
                     appliers: map<Worker, Applier>, w: Worker, a: Applier)
    requires w !in appliers
    ensures RunnersOk(jobs, runner, previewers, appliers) ==>
      RunnersOk(jobs, runner, previewers, appliers[w := a])
  {
  }

  lemma PreviewerAdded(jobs: map<RequestId, Phase>, runner: map<RequestId, Worker>, previewers: map<Worker, Previewer>,
                       appliers: map<Worker, Applier>, w: Worker, a: Previewer)
    requires w !in previewers
    ensures RunnersOk(jobs, runner, previewers, appliers) ==>
      RunnersOk(jobs, runner, previewers[w := a], appliers)
  {
  }

  lemma RunnerAdded(jobs: map<RequestId, Phase>, runner: map<RequestId, Worker>, previewers: map<Worker, Previewer>,
                    appliers: map<Worker, Applier>, r: RequestId, phase: Phase, w: Worker)
    requires r !in jobs
    requires phase == Previewing ==> w in previewers && previewers[w].request == r
    requires phase == Applying ==> w in appliers && appliers[w].request == r
    ensures RunnersOk(jobs, runner, previewers, appliers) ==>
      RunnersOk(jobs[r := phase], runner[r := w], previewers, appliers)
  {
  }

  lemma RunnerMoved(jobs: map<RequestId, Phase>, runner: map<RequestId, Worker>, previewers: map<Worker, Previewer>,
                    appliers: map<Worker, Applier>, w: Worker, stage: ApplyStage)
    requires w in appliers
    ensures RunnersOk(jobs, runner, previewers, appliers) ==>
      RunnersOk(jobs, runner, previewers, appliers[w := appliers[w].(stage := stage)])
  {
  }

  lemma PreviewRunnerMoved(jobs: map<RequestId, Phase>, runner: map<RequestId, Worker>,
                           previewers: map<Worker, Previewer>,
                           appliers: map<Worker, Applier>, w: Worker, stage: PreviewStage)
    requires w in previewers
    ensures RunnersOk(jobs, runner, previewers, appliers) ==>
      RunnersOk(jobs, runner, previewers[w := previewers[w].(stage := stage)], appliers)
  {
  }

  // What has expired is not running.
  lemma JobsCleaned(journal: Journal, b: Books, runner: map<RequestId, Worker>, next: Worker,
                    previewers: map<Worker, Previewer>, appliers: map<Worker, Applier>, now: Time)
    requires TendedOk(journal, b, runner, next, previewers, appliers)
    ensures forall r :: r in b.jobs && IsRunning(b.jobs[r]) ==> r !in Expired(b.finished, now) && r in b.payloads
  {
    JournalKeepsBooks(journal);
  }

  lemma Note(journal: Journal, books: Books, working: map<Worker, RequestId>, e: Entry)
    requires IsLegal(books, working, e)
    ensures Accounts(journal, books, working) ==> Accounts(journal + [e], After(books, e), Moved(working, e))
  {
    if Accounts(journal, books, working) { Append(journal, e); }
  }

  lemma WorkingMoved(previewers: map<Worker, Previewer>, appliers: map<Worker, Applier>, w: Worker, stage: PreviewStage)
    requires w in previewers
    ensures Working(previewers[w := previewers[w].(stage := stage)], appliers) == Working(previewers, appliers)
  {
  }

  lemma WorkingAdvanced(previewers: map<Worker, Previewer>, appliers: map<Worker, Applier>, w: Worker,
                        stage: ApplyStage)
    requires w in appliers
    ensures Working(previewers, WithStage(appliers, w, stage)) == Working(previewers, appliers)
  {
  }

  lemma RunnerFinished(jobs: map<RequestId, Phase>, runner: map<RequestId, Worker>, previewers: map<Worker, Previewer>,
                       appliers: map<Worker, Applier>, r: RequestId, phase: Phase)
    requires !IsRunning(phase)
    ensures RunnersOk(jobs, runner, previewers, appliers) ==>
      RunnersOk(jobs[r := phase], runner, previewers, appliers)
  {
  }

  lemma OneMoreStored(stored: multiset<PreviewId>, succeeded: multiset<PreviewId>, previews: set<PreviewId>,
                      inHand: multiset<PreviewId>, p: PreviewId)
    ensures CountsOk(stored, succeeded, previews, inHand) ==>
      CountsOk(stored + multiset{p}, succeeded, previews + {p}, inHand)
  {
    assert multiset(previews + {p}) <= multiset(previews) + multiset{p};
  }

  lemma RunnersCleaned(jobs: map<RequestId, Phase>, runner: map<RequestId, Worker>, previewers: map<Worker, Previewer>,
                       appliers: map<Worker, Applier>, expired: set<RequestId>)
    ensures RunnersOk(jobs, runner, previewers, appliers) ==> RunnersOk(jobs - expired, runner, previewers, appliers)
  {
  }

  lemma PreviewerNumbered(next: Worker, previewers: map<Worker, Previewer>, appliers: map<Worker, Applier>,
                          p: Previewer)
    requires Numbered(next, previewers, appliers)
    ensures next !in previewers && next !in Working(previewers, appliers)
    ensures Numbered(next + 1, previewers[next := p], appliers)
    ensures Working(previewers[next := p], appliers) == Working(previewers, appliers)[next := p.request]
  {
  }

  lemma ApplierNumbered(next: Worker, previewers: map<Worker, Previewer>, appliers: map<Worker, Applier>, a: Applier)
    requires Numbered(next, previewers, appliers)
    ensures next !in appliers && next !in Working(previewers, appliers)
    ensures Numbered(next + 1, previewers, appliers[next := a])
    ensures Working(previewers, appliers[next := a]) == Working(previewers, appliers)[next := a.request]
  {
  }

  lemma PreviewerGone(next: Worker, previewers: map<Worker, Previewer>, appliers: map<Worker, Applier>, w: Worker)
    requires Numbered(next, previewers, appliers) && w in previewers
    ensures w in Working(previewers, appliers) && Working(previewers, appliers)[w] == previewers[w].request
    ensures Numbered(next, previewers - {w}, appliers)
    ensures Working(previewers - {w}, appliers) == Working(previewers, appliers) - {w}
  {
  }

  lemma ApplierGone(next: Worker, previewers: map<Worker, Previewer>, appliers: map<Worker, Applier>, w: Worker)
    requires Numbered(next, previewers, appliers) && w in appliers
    ensures w in Working(previewers, appliers) && Working(previewers, appliers)[w] == appliers[w].request
    ensures Numbered(next, previewers, appliers - {w})
    ensures Working(previewers, appliers - {w}) == Working(previewers, appliers) - {w}
  {
  }

  lemma NumberedStays(next: Worker, previewers: map<Worker, Previewer>, appliers: map<Worker, Applier>, w: Worker,
                      stage: ApplyStage)
    requires w in appliers
    ensures Numbered(next, previewers, appliers) ==> Numbered(next, previewers, WithStage(appliers, w, stage))
  {
  }

  lemma PreviewerNumberedStays(next: Worker, previewers: map<Worker, Previewer>, appliers: map<Worker, Applier>,
                               w: Worker,
                               stage: PreviewStage)
    requires w in previewers
    ensures Numbered(next, previewers, appliers) ==>
      Numbered(next, previewers[w := previewers[w].(stage := stage)], appliers)
  {
  }

  lemma FewerKept(stored: multiset<PreviewId>, succeeded: multiset<PreviewId>, previews: set<PreviewId>,
                  inHand: multiset<PreviewId>, dropped: set<PreviewId>)
    ensures CountsOk(stored, succeeded, previews, inHand) ==> CountsOk(stored, succeeded, previews - dropped, inHand)
  {
    assert multiset(previews - dropped) <= multiset(previews);
  }

  lemma NotServed(inService: Option<Worker>, appliers: map<Worker, Applier>, w: Worker)
    requires w in appliers && !HasLock(appliers[w])
    ensures ServiceOk(inService, appliers) ==> inService != Some(w)
  {
  }

  lemma ServiceAdded(inService: Option<Worker>, appliers: map<Worker, Applier>, w: Worker, a: Applier)
    requires w !in appliers && a.stage == Waiting
    ensures ServiceOk(inService, appliers) ==>
      ServiceOk(inService, appliers[w := a]) && InHand(inService, appliers[w := a]) == InHand(inService, appliers)
  {
  }

  lemma RunnersWork(jobs: map<RequestId, Phase>, runner: map<RequestId, Worker>, previewers: map<Worker, Previewer>,
                    appliers: map<Worker, Applier>)
    requires RunnersOk(jobs, runner, previewers, appliers)
    ensures forall r :: r in jobs && IsRunning(jobs[r]) ==>
      (exists w :: w in previewers && previewers[w].request == r)
        || (exists w :: w in appliers && appliers[w].request == r)
  {
    forall r | r in jobs && IsRunning(jobs[r])
      ensures (exists w :: w in previewers && previewers[w].request == r)
        || (exists w :: w in appliers && appliers[w].request == r)
    {
      if jobs[r] == Previewing {
        assert runner[r] in previewers && previewers[runner[r]].request == r;
      } else {
        assert runner[r] in appliers && appliers[runner[r]].request == r;
      }
    }
  }

  lemma RunnersEnd(jobs: map<RequestId, Phase>, runner: map<RequestId, Worker>, previewers: map<Worker, Previewer>,
                   appliers: map<Worker, Applier>, w: Worker, phase: Phase)
    requires !IsRunning(phase)
    ensures RunnersOk(jobs, runner, previewers, appliers) ==>
      (w in appliers ==> RunnersOk(jobs[appliers[w].request := phase], runner, previewers, appliers - {w}))
    ensures RunnersOk(jobs, runner, previewers, appliers) ==>
      (w in previewers ==> RunnersOk(jobs[previewers[w].request := phase], runner, previewers - {w}, appliers))
  {
  }

  // ----- what the workers have in hand ------------------------------------------------------------------

  lemma ServedAnother(reservations: map<PreviewId, RequestId>, holder: map<PreviewId, Worker>,
                      inService: Option<Worker>, appliers: map<Worker, Applier>,
                      stored: multiset<PreviewId>, succeeded: multiset<PreviewId>, previews: set<PreviewId>,
                      r: RequestId, p: PreviewId, w: Worker)
    requires ServedOk(reservations, holder, inService, appliers, stored, succeeded, previews)
    requires p !in reservations && w !in appliers
    ensures ServedOk(reservations[p := r], holder[p := w], inService, appliers[w := Applier(r, p, Waiting)], stored,
                     succeeded, previews)
  {
    hide HoldersOk, ServiceOk, CountsOk;
    HolderAdded(reservations, holder, appliers, p, r, w);
    ServiceAdded(inService, appliers, w, Applier(r, p, Waiting));
  }

  lemma ServedStored(reservations: map<PreviewId, RequestId>, holder: map<PreviewId, Worker>,
                     inService: Option<Worker>, appliers: map<Worker, Applier>,
                     stored: multiset<PreviewId>, succeeded: multiset<PreviewId>, previews: set<PreviewId>,
                     p: PreviewId)
    requires ServedOk(reservations, holder, inService, appliers, stored, succeeded, previews)
    ensures ServedOk(reservations, holder, inService, appliers, stored + multiset{p}, succeeded, previews + {p})
  {
    hide HoldersOk, ServiceOk, CountsOk;
    OneMoreStored(stored, succeeded, previews, InHand(inService, appliers), p);
  }

  lemma ServedFewer(reservations: map<PreviewId, RequestId>, holder: map<PreviewId, Worker>,
                    inService: Option<Worker>, appliers: map<Worker, Applier>,
                    stored: multiset<PreviewId>, succeeded: multiset<PreviewId>, previews: set<PreviewId>,
                    dropped: set<PreviewId>)
    requires ServedOk(reservations, holder, inService, appliers, stored, succeeded, previews)
    ensures ServedOk(reservations, holder, inService, appliers, stored, succeeded, previews - dropped)
  {
    hide HoldersOk, ServiceOk, CountsOk;
    FewerKept(stored, succeeded, previews, InHand(inService, appliers), dropped);
  }

  lemma ServedOutside(reservations: map<PreviewId, RequestId>, holder: map<PreviewId, Worker>,
                      inService: Option<Worker>, appliers: map<Worker, Applier>,
                      stored: multiset<PreviewId>, succeeded: multiset<PreviewId>, previews: set<PreviewId>,
                      w: Worker, outcome: Outcome)
    requires ServedOk(reservations, holder, inService, appliers, stored, succeeded, previews)
    requires w in appliers && Holds(appliers[w]) && !HasLock(appliers[w])
    ensures ServedOk(reservations, holder, inService, WithStage(appliers, w, Returned(outcome)), stored, succeeded,
                     previews)
  {
    hide HoldersOk, ServiceOk, CountsOk;
    NotServed(inService, appliers, w);
    HolderMoved(reservations, holder, appliers, w, Returned(outcome));
    ServiceUnmoved(inService, appliers, w, appliers[w].(stage := Returned(outcome)));
  }

  lemma ServedLocked(reservations: map<PreviewId, RequestId>, holder: map<PreviewId, Worker>,
                     inService: Option<Worker>, appliers: map<Worker, Applier>,
                     stored: multiset<PreviewId>, succeeded: multiset<PreviewId>, previews: set<PreviewId>,
                     w: Worker)
    requires ServedOk(reservations, holder, inService, appliers, stored, succeeded, previews)
    requires w in appliers && appliers[w].stage == Waiting && inService == None
    ensures ServedOk(reservations, holder, Some(w), WithStage(appliers, w, Locked), stored, succeeded, previews)
  {
    hide HoldersOk, ServiceOk, CountsOk;
    HolderMoved(reservations, holder, appliers, w, Locked);
    ServiceEntered(appliers, w);
  }

  lemma ServedTaken(reservations: map<PreviewId, RequestId>, holder: map<PreviewId, Worker>,
                    inService: Option<Worker>, appliers: map<Worker, Applier>,
                    stored: multiset<PreviewId>, succeeded: multiset<PreviewId>, previews: set<PreviewId>,
                    w: Worker)
    requires ServedOk(reservations, holder, inService, appliers, stored, succeeded, previews)
    requires w in appliers && appliers[w].stage == Locked && appliers[w].preview in previews
    ensures inService == Some(w)
    ensures ServedOk(reservations, holder, inService, WithStage(appliers, w, InService), stored, succeeded,
                     previews - {appliers[w].preview})
  {
    hide HoldersOk, ServiceOk, CountsOk;
    TakenInHand(stored, succeeded, previews, appliers[w].preview);
    HolderMoved(reservations, holder, appliers, w, InService);
    ServiceTakes(inService, appliers, w);
  }

  lemma ServedLeft(reservations: map<PreviewId, RequestId>, holder: map<PreviewId, Worker>,
                   inService: Option<Worker>, appliers: map<Worker, Applier>,
                   stored: multiset<PreviewId>, succeeded: multiset<PreviewId>, previews: set<PreviewId>,
                   w: Worker, outcome: Outcome)
    requires ServedOk(reservations, holder, inService, appliers, stored, succeeded, previews)
    requires w in appliers && HasLock(appliers[w])
    ensures ServedOk(reservations, holder, None, WithStage(appliers, w, Returned(outcome)), stored, succeeded, previews)
    ensures appliers[w].stage == InService ==>
      ServedOk(reservations, holder, None, WithStage(appliers, w, Returned(outcome)), stored,
               succeeded + multiset{appliers[w].preview}, previews)
  {
    hide HoldersOk, ServiceOk, CountsOk;
    HolderMoved(reservations, holder, appliers, w, Returned(outcome));
    ServiceLeft(inService, appliers, w, outcome);
    OutOfHand(stored, succeeded, previews, appliers[w].preview);
  }

  lemma ServedReleased(reservations: map<PreviewId, RequestId>, holder: map<PreviewId, Worker>,
                       inService: Option<Worker>, appliers: map<Worker, Applier>,
                       stored: multiset<PreviewId>, succeeded: multiset<PreviewId>, previews: set<PreviewId>,
                       w: Worker, outcome: Outcome)
    requires ServedOk(reservations, holder, inService, appliers, stored, succeeded, previews)
    requires w in appliers && Holds(appliers[w]) && !HasLock(appliers[w])
    ensures var p := appliers[w].preview;
            ServedOk(reservations - {p}, holder - {p}, inService, WithStage(appliers, w, Released(outcome)), stored,
                     succeeded,
                     previews)
  {
    hide HoldersOk, ServiceOk, CountsOk;
    NotServed(inService, appliers, w);
    HolderReleased(reservations, holder, appliers, w, outcome);
    ServiceUnmoved(inService, appliers, w, appliers[w].(stage := Released(outcome)));
  }

  lemma ServedEnded(reservations: map<PreviewId, RequestId>, holder: map<PreviewId, Worker>,
                    inService: Option<Worker>, appliers: map<Worker, Applier>,
                    stored: multiset<PreviewId>, succeeded: multiset<PreviewId>, previews: set<PreviewId>,
                    w: Worker)
    requires ServedOk(reservations, holder, inService, appliers, stored, succeeded, previews)
    requires w in appliers && !Holds(appliers[w])
    ensures ServedOk(reservations, holder, inService, appliers - {w}, stored, succeeded, previews)
  {
    hide HoldersOk, ServiceOk, CountsOk;
    HolderEnded(reservations, holder, appliers, w);
    ServiceWithout(inService, appliers, w);
  }

  // ----- what the books say of them --------------------------------------------------------------------

  lemma TendedFewer(journal: Journal, b: Books, runner: map<RequestId, Worker>, next: Worker,
                    previewers: map<Worker, Previewer>, appliers: map<Worker, Applier>,
                    now: Time)
    requires TendedOk(journal, b, runner, next, previewers, appliers)
    ensures var gone := Expired(b.finished, now);
            TendedOk(journal + [Forgets(gone, now)],
                     Books(b.jobs - gone, b.payloads - gone, b.deadlines - gone, b.finished - gone),
                     runner, next, previewers, appliers)
  {
    hide RunnersOk, Numbered, Accounts, Working;
    var gone := Expired(b.finished, now);
    RunnersCleaned(b.jobs, runner, previewers, appliers, gone);
    Note(journal, b, Working(previewers, appliers), Forgets(gone, now));
  }

  lemma TendedRefused(journal: Journal, b: Books, runner: map<RequestId, Worker>, next: Worker,
                      previewers: map<Worker, Previewer>, appliers: map<Worker, Applier>,
                      r: RequestId, payload: Payload, now: Time)
    requires TendedOk(journal, b, runner, next, previewers, appliers)
    requires r !in b.jobs
    ensures var jobs := b.jobs[r := Error("completion_unknown")];
            TendedOk(journal + [CannotBegin(r, payload, now)],
                     Books(jobs, b.payloads[r := payload], b.deadlines - {r}, b.finished[r := now]),
                     runner, next, previewers, appliers)
  {
    hide RunnersOk, Numbered, Accounts, Working;
    RunnerFinished(b.jobs, runner, previewers, appliers, r, Error("completion_unknown"));
    Note(journal, b, Working(previewers, appliers), CannotBegin(r, payload, now));
  }

  lemma TendedUnknown(journal: Journal, b: Books, runner: map<RequestId, Worker>, next: Worker,
                      previewers: map<Worker, Previewer>, appliers: map<Worker, Applier>,
                      r: RequestId, now: Time)
    requires TendedOk(journal, b, runner, next, previewers, appliers)
    requires r in b.jobs && IsRunning(b.jobs[r]) && r in b.deadlines && now > b.deadlines[r]
    ensures TendedOk(journal + [Ends(r, CompletionUnknown, now, None)],
                     Books(b.jobs[r := CompletionUnknown], b.payloads, b.deadlines - {r}, b.finished[r := now]),
                     runner, next, previewers, appliers)
  {
    hide RunnersOk, Numbered, Accounts, Working;
    RunnerFinished(b.jobs, runner, previewers, appliers, r, CompletionUnknown);
    Note(journal, b, Working(previewers, appliers), Ends(r, CompletionUnknown, now, None));
  }

  lemma PreviewerLaunched(journal: Journal, b: Books, runner: map<RequestId, Worker>, next: Worker,
                          previewers: map<Worker, Previewer>, appliers: map<Worker, Applier>,
                          r: RequestId, payload: Payload, deadline: Time)
    requires TendedOk(journal, b, runner, next, previewers, appliers)
    requires r !in b.jobs
    ensures TendedOk(journal + [Begins(r, payload, Previewing, deadline, next)],
                     Books(b.jobs[r := Previewing], b.payloads[r := payload], b.deadlines[r := deadline], b.finished),
                     runner[r := next], next + 1, previewers[next := Previewer(r, Compiling)], appliers)
  {
    hide RunnersOk, Numbered, Accounts, Working;
    var p := Previewer(r, Compiling);
    PreviewerNumbered(next, previewers, appliers, p);
    PreviewerAdded(b.jobs, runner, previewers, appliers, next, p);
    RunnerAdded(b.jobs, runner, previewers[next := p], appliers, r, Previewing, next);
    Note(journal, b, Working(previewers, appliers), Begins(r, payload, Previewing, deadline, next));
  }

  lemma ApplierLaunched(journal: Journal, b: Books, runner: map<RequestId, Worker>, next: Worker,
                        previewers: map<Worker, Previewer>, appliers: map<Worker, Applier>,
                        r: RequestId, preview: PreviewId, deadline: Time)
    requires TendedOk(journal, b, runner, next, previewers, appliers)
    requires r !in b.jobs
    ensures next !in appliers
    ensures TendedOk(journal + [Begins(r, ApplyOf(preview), Applying, deadline, next)],
                     Books(b.jobs[r := Applying], b.payloads[r := ApplyOf(preview)], b.deadlines[r := deadline],
                           b.finished),
                     runner[r := next], next + 1, previewers, appliers[next := Applier(r, preview, Waiting)])
  {
    hide RunnersOk, Numbered, Accounts, Working;
    var a := Applier(r, preview, Waiting);
    ApplierNumbered(next, previewers, appliers, a);
    ApplierAdded(b.jobs, runner, previewers, appliers, next, a);
    RunnerAdded(b.jobs, runner, previewers, appliers[next := a], r, Applying, next);
    Note(journal, b, Working(previewers, appliers), Begins(r, ApplyOf(preview), Applying, deadline, next));
  }

  lemma PreviewerMoved(journal: Journal, b: Books, runner: map<RequestId, Worker>, next: Worker,
                       previewers: map<Worker, Previewer>, appliers: map<Worker, Applier>,
                       w: Worker, stage: PreviewStage)
    requires TendedOk(journal, b, runner, next, previewers, appliers)
    requires w in previewers
    ensures TendedOk(journal, b, runner, next, previewers[w := previewers[w].(stage := stage)], appliers)
  {
    hide RunnersOk, Numbered, Accounts, Working;
    PreviewRunnerMoved(b.jobs, runner, previewers, appliers, w, stage);
    PreviewerNumberedStays(next, previewers, appliers, w, stage);
    WorkingMoved(previewers, appliers, w, stage);
  }

  lemma ApplierMoved(journal: Journal, b: Books, runner: map<RequestId, Worker>, next: Worker,
                     previewers: map<Worker, Previewer>, appliers: map<Worker, Applier>,
                     w: Worker, stage: ApplyStage)
    requires TendedOk(journal, b, runner, next, previewers, appliers)
    requires w in appliers
    ensures TendedOk(journal, b, runner, next, previewers, WithStage(appliers, w, stage))
  {
    hide RunnersOk, Numbered, Accounts, Working;
    RunnerMoved(b.jobs, runner, previewers, appliers, w, stage);
    NumberedStays(next, previewers, appliers, w, stage);
    WorkingAdvanced(previewers, appliers, w, stage);
  }

  lemma PreviewerEnded(journal: Journal, b: Books, runner: map<RequestId, Worker>, next: Worker,
                       previewers: map<Worker, Previewer>, appliers: map<Worker, Applier>,
                       w: Worker, phase: Phase, now: Time)
    requires TendedOk(journal, b, runner, next, previewers, appliers)
    requires w in previewers && !IsRunning(phase)
    ensures var r := previewers[w].request;
            TendedOk(journal + [Ends(r, phase, now, Some(w))],
                     Books(b.jobs[r := phase], b.payloads, b.deadlines - {r}, b.finished[r := now]),
                     runner, next, previewers - {w}, appliers)
  {
    hide RunnersOk, Numbered, Accounts, Working;
    RunnersEnd(b.jobs, runner, previewers, appliers, w, phase);
    PreviewerGone(next, previewers, appliers, w);
    Note(journal, b, Working(previewers, appliers), Ends(previewers[w].request, phase, now, Some(w)));
  }

  lemma ApplierEnded(journal: Journal, b: Books, runner: map<RequestId, Worker>, next: Worker,
                     previewers: map<Worker, Previewer>, appliers: map<Worker, Applier>,
                     w: Worker, phase: Phase, now: Time)
    requires TendedOk(journal, b, runner, next, previewers, appliers)
    requires w in appliers && !IsRunning(phase)
    ensures var r := appliers[w].request;
            TendedOk(journal + [Ends(r, phase, now, Some(w))],
                     Books(b.jobs[r := phase], b.payloads, b.deadlines - {r}, b.finished[r := now]),
                     runner, next, previewers, appliers - {w})
  {
    hide RunnersOk, Numbered, Accounts, Working;
    RunnersEnd(b.jobs, runner, previewers, appliers, w, phase);
    ApplierGone(next, previewers, appliers, w);
    Note(journal, b, Working(previewers, appliers), Ends(appliers[w].request, phase, now, Some(w)));
  }

  class Ledger {
    var jobs: map<RequestId, Phase>
    var payloads: map<RequestId, Payload>
    var deadlines: map<RequestId, Time>
    var finished: map<RequestId, Time>
    var tokens: map<PreviewId, Time>                 // with the time they were created
    var reservations: map<PreviewId, RequestId>
    var previews: set<PreviewId>                     // what the service has kept
    var previewers: map<Worker, Previewer>
    var appliers: map<Worker, Applier>
    var inService: Option<Worker>                    // who holds the lock of the service
    var next: Worker
    ghost var journal: Journal                       // what happened to the jobs
    ghost var holder: map<PreviewId, Worker>         // who holds a reserved preview
    ghost var runner: map<RequestId, Worker>         // who was started last for a request
    ghost var stored: multiset<PreviewId>            // how often the service stored a preview, and
    ghost var succeeded: multiset<PreviewId>         // how often applying one succeeded

    ghost predicate Valid()
      reads this
    {
      && ServedOk(reservations, holder, inService, appliers, stored, succeeded, previews)
      && TendedOk(journal, Books(jobs, payloads, deadlines, finished), runner, next, previewers, appliers)
    }

    constructor ()
      ensures Valid() && jobs == map[] && tokens == map[] && reservations == map[] && stored == multiset{}
      ensures finished == map[] && journal == []
    {
      jobs, payloads, deadlines, finished := map[], map[], map[], map[];
      tokens, reservations, previews, previewers, appliers := map[], map[], {}, map[], map[];
      inService := None;
      journal, next, holder, runner, stored, succeeded := [], 0, map[], map[], multiset{}, multiset{};
    }

    // ----- the books -----------------------------------------------------------------------------------

    method EnterJob(r: RequestId, phase: Phase, payload: Payload, deadline: Time, w: Worker)
      modifies this`jobs, this`payloads, this`deadlines, this`journal, this`runner
      ensures jobs == old(jobs)[r := phase] && payloads == old(payloads)[r := payload]
      ensures deadlines == old(deadlines)[r := deadline]
      ensures journal == old(journal) + [Begins(r, payload, phase, deadline, w)] && runner == old(runner)[r := w]
    {
      jobs, payloads, deadlines := jobs[r := phase], payloads[r := payload], deadlines[r := deadline];
      journal, runner := journal + [Begins(r, payload, phase, deadline, w)], runner[r := w];
    }

    method AddPreviewer(p: Previewer)
      modifies this`previewers, this`next
      ensures previewers == old(previewers)[old(next) := p] && next == old(next) + 1
    {
      previewers, next := previewers[next := p], next + 1;
    }

    // The worker holds the preview that is reserved for it.
    method AddApplier(a: Applier)
      modifies this`appliers, this`next, this`reservations, this`holder
      ensures appliers == old(appliers)[old(next) := a] && next == old(next) + 1
      ensures reservations == old(reservations)[a.preview := a.request] && holder == old(holder)[a.preview := old(next)]
    {
      reservations, holder := reservations[a.preview := a.request], holder[a.preview := next];
      appliers, next := appliers[next := a], next + 1;
    }

    method FinishJob(r: RequestId, phase: Phase, now: Time)
      modifies this`jobs, this`deadlines, this`finished
      ensures jobs == old(jobs)[r := phase] && deadlines == old(deadlines) - {r} && finished == old(finished)[r := now]
    {
      jobs, deadlines, finished := jobs[r := phase], deadlines - {r}, finished[r := now];
    }

    method Unreserve(w: Worker, outcome: Outcome)
      requires w in appliers
      modifies this`reservations, this`holder, this`appliers
      ensures reservations == old(reservations) - {old(appliers)[w].preview}
      ensures holder == old(holder) - {old(appliers)[w].preview}
      ensures appliers == WithStage(old(appliers), w, Released(outcome))
    {
      reservations, holder := reservations - {appliers[w].preview}, holder - {appliers[w].preview};
      appliers := WithStage(appliers, w, Released(outcome));
    }

    method ForgetJobs(expired: set<RequestId>)
      modifies this`jobs, this`payloads, this`deadlines, this`finished
      ensures jobs == old(jobs) - expired && payloads == old(payloads) - expired
      ensures deadlines == old(deadlines) - expired && finished == old(finished) - expired
    {
      jobs, payloads, deadlines, finished := jobs - expired, payloads - expired, deadlines - expired,
        finished - expired;
    }

    method CleanJobs(now: Time)
      requires Valid()
      modifies this`jobs, this`payloads, this`deadlines, this`finished, this`journal
      ensures Valid()
      ensures jobs == old(jobs) - Expired(old(finished), now) && payloads == old(payloads) - Expired(old(finished), now)
      ensures deadlines == old(deadlines) - Expired(old(finished), now)
      ensures finished == old(finished) - Expired(old(finished), now)
      ensures journal == old(journal) + [Forgets(Expired(old(finished), now), now)]
    {
      hide ServedOk, TendedOk;
      var expired := Expired(finished, now);
      TendedFewer(journal, Books(jobs, payloads, deadlines, finished), runner, next, previewers, appliers, now);
      journal := journal + [Forgets(expired, now)];
      ForgetJobs(expired);
    }

    method CleanTokens(now: Time)
      requires Valid()
      modifies this`tokens, this`previews
      ensures Valid()
      ensures tokens == old(tokens) - Dropped(old(tokens), reservations, now)
      ensures previews == old(previews) - Dropped(old(tokens), reservations, now)
    {
      hide ServedOk, TendedOk;
      var dropped := Dropped(tokens, reservations, now);
      ServedFewer(reservations, holder, inService, appliers, stored, succeeded, previews, dropped);
      tokens := tokens - dropped;
      previews := previews - dropped;
    }

    // A running job and a reserved token survive.
    method Cleanup(now: Time)
      requires Valid()
      modifies this`jobs, this`payloads, this`deadlines, this`finished, this`tokens, this`previews, this`journal
      ensures Valid()
      ensures jobs == old(jobs) - Expired(old(finished), now) && payloads == old(payloads) - Expired(old(finished), now)
      ensures deadlines == old(deadlines) - Expired(old(finished), now)
      ensures finished == old(finished) - Expired(old(finished), now)
      ensures tokens == old(tokens) - Dropped(old(tokens), reservations, now)
      ensures previews == old(previews) - Dropped(old(tokens), reservations, now)
      ensures journal == old(journal) + [Forgets(Expired(old(finished), now), now)]
      ensures forall r :: r in old(jobs) && IsRunning(old(jobs)[r]) ==> r in jobs && r in payloads
      ensures forall p :: p in old(tokens) && p in reservations ==>
        p in tokens && (p in old(previews) ==> p in previews)
    {
      hide ServedOk, TendedOk;
      JobsCleaned(journal, Books(jobs, payloads, deadlines, finished), runner, next, previewers, appliers, now);
      CleanJobs(now);
      CleanTokens(now);
    }

    // ----- requests ------------------------------------------------------------------------------------

    // The thread of the worker could not be started.
    method RefuseJob(r: RequestId, payload: Payload, now: Time)
      requires Valid() && r !in jobs
      modifies this`jobs, this`payloads, this`deadlines, this`finished, this`journal
      ensures Valid() && jobs == old(jobs)[r := Error("completion_unknown")] && payloads == old(payloads)[r := payload]
      ensures deadlines == old(deadlines) - {r} && finished == old(finished)[r := now]
      ensures journal == old(journal) + [CannotBegin(r, payload, now)]
    {
      hide ServedOk, TendedOk;
      TendedRefused(journal, Books(jobs, payloads, deadlines, finished), runner, next, previewers, appliers, r,
                    payload, now);
      journal := journal + [CannotBegin(r, payload, now)];
      payloads := payloads[r := payload];
      FinishJob(r, Error("completion_unknown"), now);
    }

    // A new job, with its worker that has thirty seconds.
    method LaunchPreviewer(r: RequestId, payload: Payload, now: Time)
      requires Valid() && r !in jobs
      modifies this`jobs, this`payloads, this`deadlines, this`previewers, this`next, this`runner, this`journal
      ensures Valid() && previewers == old(previewers)[old(next) := Previewer(r, Compiling)]
      ensures jobs == old(jobs)[r := Previewing] && payloads == old(payloads)[r := payload]
      ensures deadlines == old(deadlines)[r := now + 30]
      ensures journal == old(journal) + [Begins(r, payload, Previewing, now + 30, old(next))]
    {
      hide ServedOk, TendedOk;
      PreviewerLaunched(journal, Books(jobs, payloads, deadlines, finished), runner, next, previewers, appliers,
                        r, payload, now + 30);
      EnterJob(r, Previewing, payload, now + 30, next);
      AddPreviewer(Previewer(r, Compiling));
    }

    method BeginPreview(r: RequestId, payload: Payload, starts: bool, now: Time) returns (response: Response)
      requires Valid() && r !in jobs
      modifies this`jobs, this`payloads, this`deadlines, this`finished, this`previewers, this`next, this`runner,
        this`journal
      ensures Valid() && response == if starts then Started else NotStarted
      ensures jobs == JobsAfter(old(jobs), r, Previewing, response)
      ensures journal == old(journal) + Noted(response, r, payload, Previewing, now + 30, old(next), now)
      ensures previewers == if starts then old(previewers)[old(next) := Previewer(r, Compiling)] else old(previewers)
      ensures r in payloads && payloads[r] == payload
        && (starts ==> deadlines == old(deadlines)[r := now + 30] && finished == old(finished))
    {
      hide Valid;
      if starts {
        LaunchPreviewer(r, payload, now);
        response := Started;
      } else {
        RefuseJob(r, payload, now);
        response := NotStarted;
      }
    }

    // A known request starts nothing; a new one starts a worker.
    method StartPreview(r: RequestId, mode: string, sources: map<string, string>, starts: bool, now: Time)
      returns (response: Response)
      requires Valid()
      modifies this`jobs, this`payloads, this`deadlines, this`finished, this`tokens, this`previews,
        this`previewers, this`next, this`runner, this`journal
      ensures Valid()
      ensures var known := old(jobs) - Expired(old(finished), now);
              && response == (if r in known then Known(known, old(payloads), r, PreviewOf(mode, sources))
                              else if starts then Started else NotStarted)
              && jobs == JobsAfter(known, r, Previewing, response)
      ensures journal == old(journal) + [Forgets(Expired(old(finished), now), now)]
                         + Noted(response, r, PreviewOf(mode, sources), Previewing, now + 30, old(next), now)
      ensures previewers ==
              if response == Started then old(previewers)[old(next) := Previewer(r, Compiling)] else old(previewers)
      ensures response == Started ==>
        && r in payloads && payloads[r] == PreviewOf(mode, sources) && r in deadlines && deadlines[r] == now + 30
        && finished == old(finished) - Expired(old(finished), now)
    {
      hide Valid;
      Cleanup(now);
      if r in jobs {
        response := Known(jobs, payloads, r, PreviewOf(mode, sources));
      } else {
        response := BeginPreview(r, PreviewOf(mode, sources), starts, now);
      }
    }

    // A new job whose worker has twenty seconds and holds the preview it has reserved.
    method LaunchApplier(r: RequestId, p: PreviewId, now: Time)
      requires Valid() && r !in jobs && p !in reservations
      modifies this`jobs, this`payloads, this`deadlines, this`appliers, this`next, this`runner, this`journal,
        this`reservations, this`holder
      ensures Valid() && appliers == old(appliers)[old(next) := Applier(r, p, Waiting)]
      ensures reservations == old(reservations)[p := r]
      ensures jobs == old(jobs)[r := Applying] && payloads == old(payloads)[r := ApplyOf(p)]
      ensures deadlines == old(deadlines)[r := now + 20]
      ensures journal == old(journal) + [Begins(r, ApplyOf(p), Applying, now + 20, old(next))]
    {
      hide ServedOk, TendedOk;
      ApplierLaunched(journal, Books(jobs, payloads, deadlines, finished), runner, next, previewers, appliers,
                      r, p, now + 20);
      ServedAnother(reservations, holder, inService, appliers, stored, succeeded, previews, r, p, next);
      EnterJob(r, Applying, ApplyOf(p), now + 20, next);
      AddApplier(Applier(r, p, Waiting));
    }

    method ReserveAndStart(r: RequestId, p: PreviewId, starts: bool, now: Time) returns (response: Response)
      requires Valid() && r !in jobs && p !in reservations
      modifies this`jobs, this`payloads, this`deadlines, this`finished, this`appliers, this`next, this`runner,
        this`journal,
        this`reservations, this`holder
      ensures Valid() && response == if starts then Started else NotStarted
      ensures jobs == JobsAfter(old(jobs), r, Applying, response)
      ensures journal == old(journal) + Noted(response, r, ApplyOf(p), Applying, now + 20, old(next), now)
      ensures Launched(response, r, p, old(next), old(appliers), appliers, old(reservations), reservations)
    {
      hide Valid;
      if starts {
        LaunchApplier(r, p, now);
        response := Started;
      } else {
        RefuseJob(r, ApplyOf(p), now);
        response := NotStarted;
      }
    }

    // A preview that is reserved, or no longer there, is stale.
    method BeginApply(r: RequestId, p: PreviewId, starts: bool, now: Time) returns (response: Response)
      requires Valid() && r !in jobs
      modifies this`jobs, this`payloads, this`deadlines, this`finished, this`appliers, this`next, this`runner,
        this`journal,
        this`reservations, this`holder
      ensures Valid()
      ensures response == if p !in tokens || p in old(reservations) then Stale
        else if starts then Started else NotStarted
      ensures jobs == JobsAfter(old(jobs), r, Applying, response)
      ensures journal == old(journal) + Noted(response, r, ApplyOf(p), Applying, now + 20, old(next), now)
      ensures Launched(response, r, p, old(next), old(appliers), appliers, old(reservations), reservations)
    {
      hide Valid;
      if p !in tokens || p in reservations {
        response := Stale;
      } else {
        response := ReserveAndStart(r, p, starts, now);
      }
    }

    // A known request starts nothing; a new one needs a token nobody has reserved, and reserves it.
    method StartApply(r: RequestId, p: PreviewId, starts: bool, now: Time) returns (response: Response)
      requires Valid()
      modifies this`jobs, this`payloads, this`deadlines, this`finished, this`tokens, this`previews,
        this`appliers, this`next, this`runner, this`reservations, this`holder, this`journal
      ensures Valid()
      ensures var known := old(jobs) - Expired(old(finished), now);
              && response == (if r in known then Known(known, old(payloads), r, ApplyOf(p))
                              else if !IsUsable(old(tokens), old(reservations), p, now) then Stale
                              else if starts then Started else NotStarted)
              && jobs == JobsAfter(known, r, Applying, response)
      ensures journal == old(journal) + [Forgets(Expired(old(finished), now), now)]
                         + Noted(response, r, ApplyOf(p), Applying, now + 20, old(next), now)
      ensures Launched(response, r, p, old(next), old(appliers), appliers, old(reservations), reservations)
    {
      hide Valid;
      Cleanup(now);
      if r in jobs {
        response := Known(jobs, payloads, r, ApplyOf(p));
      } else {
        response := BeginApply(r, p, starts, now);
      }
    }

    // A job past its deadline is reported as unknown; its worker goes on.
    method ReportUnknown(r: RequestId, now: Time)
      requires Valid() && r in jobs && IsRunning(jobs[r]) && r in deadlines && now > deadlines[r]
      modifies this`jobs, this`deadlines, this`finished, this`journal
      ensures Valid() && jobs == old(jobs)[r := CompletionUnknown] && finished == old(finished)[r := now]
      ensures journal == old(journal) + [Ends(r, CompletionUnknown, now, None)]
    {
      hide ServedOk, TendedOk;
      TendedUnknown(journal, Books(jobs, payloads, deadlines, finished), runner, next, previewers, appliers, r, now);
      journal := journal + [Ends(r, CompletionUnknown, now, None)];
      FinishJob(r, CompletionUnknown, now);
    }

    method Status(r: RequestId, now: Time) returns (job: Option<Phase>)
      requires Valid()
      modifies this`jobs, this`payloads, this`deadlines, this`finished, this`tokens, this`previews, this`journal
      ensures Valid()
      ensures var known := old(jobs) - Expired(old(finished), now);
              var late := r in known && IsRunning(known[r]) && r in old(deadlines) && now > old(deadlines)[r];
              && jobs == (if late then known[r := CompletionUnknown] else known)
              && job == (if r in jobs then Some(jobs[r]) else None)
              && journal == old(journal) + [Forgets(Expired(old(finished), now), now)]
                            + (if late then [Ends(r, CompletionUnknown, now, None)] else [])
              && payloads == old(payloads) - Expired(old(finished), now)
              && var kept := old(finished) - Expired(old(finished), now);
                 finished == if late then kept[r := now] else kept
    {
      hide Valid;
      Cleanup(now);
      if r in deadlines && now > deadlines[r] && r in jobs && IsRunning(jobs[r]) {
        ReportUnknown(r, now);
      }
      job := if r in jobs then Some(jobs[r]) else None;
    }

    // ----- workers -----------------------------------------------------------------------------------

    method EndPreviewer(w: Worker, phase: Phase, now: Time)
      requires Valid() && w in previewers && !IsRunning(phase)
      modifies this`jobs, this`deadlines, this`finished, this`previewers, this`journal
      ensures Valid() && previewers == old(previewers) - {w}
      ensures jobs == old(jobs)[old(previewers)[w].request := phase]
      ensures finished == old(finished)[old(previewers)[w].request := now]
      ensures journal == old(journal) + [Ends(old(previewers)[w].request, phase, now, Some(w))]
    {
      hide ServedOk, TendedOk;
      var r := previewers[w].request;
      PreviewerEnded(journal, Books(jobs, payloads, deadlines, finished), runner, next, previewers, appliers, w, phase,
                     now);
      journal := journal + [Ends(r, phase, now, Some(w))];
      FinishJob(r, phase, now);
      previewers := previewers - {w};
    }

    method PreviewerBecomes(w: Worker, stage: PreviewStage)
      requires Valid() && w in previewers
      modifies this`previewers
      ensures Valid() && previewers == old(previewers)[w := old(previewers)[w].(stage := stage)]
    {
      hide ServedOk, TendedOk;
      PreviewerMoved(journal, Books(jobs, payloads, deadlines, finished), runner, next, previewers, appliers, w, stage);
      previewers := previewers[w := previewers[w].(stage := stage)];
    }

    // The service keeps a preview, again if it had it already.
    method StorePreview(p: PreviewId)
      requires Valid()
      modifies this`previews, this`stored
      ensures Valid() && previews == old(previews) + {p} && stored == old(stored) + multiset{p}
    {
      hide ServedOk, TendedOk;
      ServedStored(reservations, holder, inService, appliers, stored, succeeded, previews, p);
      previews := previews + {p};
      stored := stored + multiset{p};
    }

    // Compiling gives a preview that the service keeps, or ends the job.
    method Compile(w: Worker, result: Result<PreviewId, string>, now: Time)
      requires Valid() && w in previewers && previewers[w].stage == Compiling
      modifies this`jobs, this`deadlines, this`finished, this`previewers, this`previews, this`stored, this`journal
      ensures Valid()
      ensures result.Ok? ==>
        && previews == old(previews) + {result.value} && stored == old(stored) + multiset{result.value}
        && previewers == old(previewers)[w := old(previewers)[w].(stage := Made(result.value))]
      ensures result.Err? ==>
        && previews == old(previews) && stored == old(stored) && previewers == old(previewers) - {w}
        && finished == old(finished)[old(previewers)[w].request := now]
      ensures PreviewMoves(w, result, old(previewers), previewers, old(jobs), jobs)
      ensures journal == old(journal) + Reported(old(previewers)[w].request, PreviewEnd(Compiling, result), now, w)
    {
      hide Valid;
      if result.Ok? {
        StorePreview(result.value);
        PreviewerBecomes(w, Made(result.value));
      } else {
        EndPreviewer(w, Error(result.error), now);
      }
    }

    method KeepToken(w: Worker, p: PreviewId, now: Time)
      requires Valid() && w in previewers
      modifies this`tokens, this`previewers
      ensures Valid() && tokens == old(tokens)[p := now]
      ensures previewers == old(previewers)[w := old(previewers)[w].(stage := Kept)]
    {
      PreviewerBecomes(w, Kept);
      hide ServedOk, TendedOk;
      tokens := tokens[p := now];
    }

    // Keeps the token, or reports the preview that is kept.
    method KeepOrReport(w: Worker, result: Result<PreviewId, string>, now: Time)
      requires Valid() && w in previewers && previewers[w].stage != Compiling
      modifies this`jobs, this`deadlines, this`finished, this`previewers, this`tokens, this`journal
      ensures Valid()
      ensures PreviewMoves(w, result, old(previewers), previewers, old(jobs), jobs)
      ensures tokens == TokensAfter(old(tokens), old(previewers)[w].stage, now)
      ensures journal == old(journal)
                         + Reported(old(previewers)[w].request, PreviewEnd(old(previewers)[w].stage, result), now, w)
    {
      hide Valid;
      if previewers[w].stage == Kept {
        EndPreviewer(w, Ready, now);
      } else {
        KeepToken(w, previewers[w].stage.preview, now);
      }
    }

    // Compile, let the service keep the preview, keep its token, report.
    method PreviewStep(w: Worker, result: Result<PreviewId, string>, now: Time)
      requires Valid() && w in previewers
      modifies this`jobs, this`deadlines, this`finished, this`previewers, this`previews, this`tokens, this`stored,
        this`journal
      ensures Valid()
      ensures PreviewMoves(w, result, old(previewers), previewers, old(jobs), jobs)
      ensures tokens == TokensAfter(old(tokens), old(previewers)[w].stage, now)
      ensures journal == old(journal)
                         + Reported(old(previewers)[w].request, PreviewEnd(old(previewers)[w].stage, result), now, w)
    {
      hide Valid;
      if previewers[w].stage == Compiling {
        Compile(w, result, now);
      } else {
        KeepOrReport(w, result, now);
      }
    }

    // The service is busy.
    method TurnAway(w: Worker, outcome: Outcome)
      requires Valid() && w in appliers && appliers[w].stage == Waiting
      modifies this`appliers
      ensures Valid() && appliers == WithStage(old(appliers), w, Returned(outcome))
    {
      hide ServedOk, TendedOk;
      ServedOutside(reservations, holder, inService, appliers, stored, succeeded, previews, w, outcome);
      ApplierMoved(journal, Books(jobs, payloads, deadlines, finished), runner, next, previewers, appliers, w,
                   Returned(outcome));
      appliers := WithStage(appliers, w, Returned(outcome));
    }

    method TakeLock(w: Worker)
      requires Valid() && w in appliers && appliers[w].stage == Waiting && inService == None
      modifies this`appliers, this`inService
      ensures Valid() && inService == Some(w) && appliers == WithStage(old(appliers), w, Locked)
    {
      hide ServedOk, TendedOk;
      ServedLocked(reservations, holder, inService, appliers, stored, succeeded, previews, w);
      ApplierMoved(journal, Books(jobs, payloads, deadlines, finished), runner, next, previewers, appliers, w, Locked);
      inService := Some(w);
      appliers := WithStage(appliers, w, Locked);
    }

    // Into the service, unless somebody else is there.
    method EnterService(w: Worker)
      requires Valid() && w in appliers && appliers[w].stage == Waiting
      modifies this`appliers, this`inService
      ensures Valid()
      ensures if old(inService).Some?
              then inService == old(inService) && appliers == WithStage(old(appliers), w, Returned(Refused("busy")))
              else inService == Some(w) && appliers == WithStage(old(appliers), w, Locked)
    {
      hide Valid;
      if inService.Some? {
        TurnAway(w, Refused("busy"));
      } else {
        TakeLock(w);
      }
    }

    method HoldPreview(w: Worker)
      requires Valid() && w in appliers && appliers[w].stage == Locked && appliers[w].preview in previews
      modifies this`appliers, this`previews
      ensures Valid() && previews == old(previews) - {old(appliers)[w].preview}
      ensures appliers == WithStage(old(appliers), w, InService)
    {
      hide ServedOk, TendedOk;
      ServedTaken(reservations, holder, inService, appliers, stored, succeeded, previews, w);
      ApplierMoved(journal, Books(jobs, payloads, deadlines, finished), runner, next, previewers, appliers, w,
                   InService);
      previews := previews - {appliers[w].preview};
      appliers := WithStage(appliers, w, InService);
    }

    // The preview is taken out of the service, or is stale.
    method TakePreview(w: Worker)
      requires Valid() && w in appliers && appliers[w].stage == Locked
      modifies this`appliers, this`previews, this`inService
      ensures Valid()
      ensures if old(appliers)[w].preview in old(previews)
              then && inService == old(inService) && appliers == WithStage(old(appliers), w, InService)
                   && previews == old(previews) - {old(appliers)[w].preview}
              else && inService == None && appliers == WithStage(old(appliers), w, Returned(Refused("stale_preview")))
                   && previews == old(previews)
    {
      hide Valid;
      if appliers[w].preview in previews {
        HoldPreview(w);
      } else {
        GiveBackService(w, Refused("stale_preview"));
      }
    }

    method GiveBackService(w: Worker, outcome: Outcome)
      requires Valid() && w in appliers && appliers[w].stage == Locked
      modifies this`appliers, this`inService
      ensures Valid() && inService == None && appliers == WithStage(old(appliers), w, Returned(outcome))
    {
      hide ServedOk, TendedOk;
      ServedLeft(reservations, holder, inService, appliers, stored, succeeded, previews, w, outcome);
      ApplierMoved(journal, Books(jobs, payloads, deadlines, finished), runner, next, previewers, appliers, w,
                   Returned(outcome));
      inService := None;
      appliers := WithStage(appliers, w, Returned(outcome));
    }

    // Out of the service, with whatever came of it.
    method LeaveService(w: Worker, outcome: Outcome)
      requires Valid() && w in appliers && appliers[w].stage == InService
      modifies this`appliers, this`inService, this`succeeded
      ensures Valid() && inService == None && appliers == WithStage(old(appliers), w, Returned(outcome))
      ensures succeeded == if outcome == Success then old(succeeded) + multiset{old(appliers)[w].preview}
        else old(succeeded)
    {
      hide ServedOk, TendedOk;
      ServedLeft(reservations, holder, inService, appliers, stored, succeeded, previews, w, outcome);
      ApplierMoved(journal, Books(jobs, payloads, deadlines, finished), runner, next, previewers, appliers, w,
                   Returned(outcome));
      if outcome == Success {
        succeeded := succeeded + multiset{appliers[w].preview};
      }
      inService := None;
      appliers := WithStage(appliers, w, Returned(outcome));
    }

    method DropReservation(w: Worker, outcome: Outcome)
      requires Valid() && w in appliers && Holds(appliers[w]) && !HasLock(appliers[w])
      modifies this`appliers, this`reservations, this`holder
      ensures Valid() && appliers == WithStage(old(appliers), w, Released(outcome))
      ensures reservations == old(reservations) - {old(appliers)[w].preview}
    {
      hide ServedOk, TendedOk;
      ServedReleased(reservations, holder, inService, appliers, stored, succeeded, previews, w, outcome);
      ApplierMoved(journal, Books(jobs, payloads, deadlines, finished), runner, next, previewers, appliers, w,
                   Released(outcome));
      Unreserve(w, outcome);
    }

    // The reservation goes; so does the token, unless the service was busy or broke down.
    method Release(w: Worker, outcome: Outcome)
      requires Valid() && w in appliers && appliers[w].stage == Returned(outcome)
      modifies this`appliers, this`reservations, this`holder, this`tokens
      ensures Valid() && appliers == WithStage(old(appliers), w, Released(outcome))
      ensures reservations == old(reservations) - {old(appliers)[w].preview}
      ensures tokens == if UsesUp(outcome) then old(tokens) - {old(appliers)[w].preview} else old(tokens)
    {
      hide ServedOk, TendedOk;
      if UsesUp(outcome) {
        tokens := tokens - {appliers[w].preview};
      }
      DropReservation(w, outcome);
    }

    // The worker reports, and ends.
    method EndApplier(w: Worker, outcome: Outcome, now: Time)
      requires Valid() && w in appliers && appliers[w].stage == Released(outcome)
      modifies this`jobs, this`deadlines, this`finished, this`appliers, this`journal
      ensures Valid() && appliers == old(appliers) - {w}
      ensures jobs == old(jobs)[old(appliers)[w].request := PhaseOf(outcome)]
      ensures journal == old(journal) + [Ends(old(appliers)[w].request, PhaseOf(outcome), now, Some(w))]
    {
      hide ServedOk, TendedOk;
      var r, phase := appliers[w].request, PhaseOf(outcome);
      ServedEnded(reservations, holder, inService, appliers, stored, succeeded, previews, w);
      ApplierEnded(journal, Books(jobs, payloads, deadlines, finished), runner, next, previewers, appliers, w, phase,
                   now);
      journal := journal + [Ends(r, phase, now, Some(w))];
      FinishJob(r, phase, now);
      appliers := appliers - {w};
    }

    // ----- any interleaving --------------------------------------------------------------------------------

    // Into the service, taking the preview, out of it, and giving the reservation back: no job changes.
    method GoOn(w: Worker, outcome: Outcome)
      requires Valid() && w in appliers && !appliers[w].stage.Released?
      modifies this`appliers, this`previews, this`inService, this`succeeded, this`reservations, this`holder, this`tokens
      ensures Valid() && w in appliers && ApplyStepsLeft(appliers[w].stage) < ApplyStepsLeft(old(appliers)[w].stage)
    {
      hide Valid;
      match appliers[w].stage
      case Waiting => EnterService(w);
      case Locked => TakePreview(w);
      case InService => LeaveService(w, outcome);
      case Returned(reason) => Release(w, reason);
    }

    // Every step brings the worker closer to its end; only its last one ends its job.
    method ApplyStep(w: Worker, outcome: Outcome, now: Time)
      requires Valid() && w in appliers
      modifies this
      ensures Valid()
      ensures w in appliers ==> ApplyStepsLeft(appliers[w].stage) < ApplyStepsLeft(old(appliers)[w].stage)
      ensures var end := ApplyEnd(old(appliers)[w].stage);
              && (w in appliers <==> end.None?)
              && jobs == (if end.Some? then old(jobs)[old(appliers)[w].request := end.value] else old(jobs))
              && journal == old(journal) + Reported(old(appliers)[w].request, end, now, w)
    {
      hide Valid;
      if appliers[w].stage.Released? {
        EndApplier(w, appliers[w].stage.outcome, now);
      } else {
        GoOn(w, outcome);
      }
    }

    method Perform(step: Step)
      requires Valid()
      modifies this
      ensures Valid() && old(journal) <= journal
    {
      hide Valid;
      match step
      case RequestPreview(r, mode, sources, starts, now) => var _ := StartPreview(r, mode, sources, starts, now);
      case RequestApply(r, p, starts, now) => var _ := StartApply(r, p, starts, now);
      case PreviewGoesOn(w, result, now) => if w in previewers { PreviewStep(w, result, now); }
      case ApplyGoesOn(w, outcome, now) => if w in appliers { ApplyStep(w, outcome, now); }
      case AskStatus(r, now) => var _ := Status(r, now);
    }

    // What a request gets that is repeated as it was asked for last.
    ghost function Repetition(r: RequestId): Response
      requires r in jobs && Asked(journal, r).Some?
      reads this
    {
      Known(jobs, payloads, r, Asked(journal, r).value)
    }

    // In every interleaving: no preview is held by two workers, none succeeds more often than it was
    // stored, every running job has a live worker, and a request that is repeated gets its job, unless
    // that was put back by a worker reporting after it had been forgotten: then a conflict.
    method Run(steps: seq<Step>)
      requires Valid()
      modifies this
      ensures Valid() && succeeded <= stored && old(journal) <= journal
      ensures forall v, w :: v in appliers && w in appliers && HoldOne(appliers[v], appliers[w]) ==> v == w
      ensures forall r :: r in jobs && IsRunning(jobs[r]) ==>
        (exists w :: w in previewers && previewers[w].request == r)
          || (exists w :: w in appliers && appliers[w].request == r)
      ensures forall r :: r in jobs ==>
        Asked(journal, r).Some? && Repetition(r) == if PutBack(journal, r) then Conflict else Repeated(jobs[r])
    {
      for i := 0 to |steps|
        invariant Valid() && old(journal) <= journal
      {
        Perform(steps[i]);
      }
      LedgerIsSound();
    }

    // What holds in every state the ledger gets into.
    lemma LedgerIsSound()
      requires Valid()
      ensures succeeded <= stored
      ensures forall v, w :: v in appliers && w in appliers && HoldOne(appliers[v], appliers[w]) ==> v == w
      ensures forall r :: r in jobs && IsRunning(jobs[r]) ==>
        (exists w :: w in previewers && previewers[w].request == r)
          || (exists w :: w in appliers && appliers[w].request == r)
      ensures forall r :: r in jobs ==>
        Asked(journal, r).Some? && Repetition(r) == if PutBack(journal, r) then Conflict else Repeated(jobs[r])
    {
      forall v, w | v in appliers && w in appliers && HoldOne(appliers[v], appliers[w]) ensures v == w {
        HoldersAreDistinct(reservations, holder, appliers, v, w);
      }
      RunnersWork(jobs, runner, previewers, appliers);
      forall r | r in jobs
        ensures Asked(journal, r).Some? && Repetition(r) == if PutBack(journal, r) then Conflict else Repeated(jobs[r])
      {
        RepeatIsAnswered(journal, r);
      }
    }
  }

  // ----- what does not hold --------------------------------------------------------------------------------

  // A preview that takes too long is reported as unknown, and ten minutes later forgotten, while its
  // worker still runs.
  method ForgottenPreview(r: RequestId, other: RequestId, mode: string, sources: map<string, string>)
    returns (ledger: Ledger, w: Worker)
    requires r != other
    ensures fresh(ledger) && ledger.Valid() && r !in ledger.jobs && r !in ledger.payloads
    ensures w in ledger.previewers && ledger.previewers[w] == Previewer(r, Compiling)
  {
    hide Ledger.Valid;
    ledger, w := UnknownPreview(r, mode, sources);
    var _ := ledger.Status(other, 700);
  }

  method UnknownPreview(r: RequestId, mode: string, sources: map<string, string>) returns (ledger: Ledger, w: Worker)
    ensures fresh(ledger) && ledger.Valid()
    ensures r in ledger.finished && ledger.finished[r] == 31
    ensures w in ledger.previewers && ledger.previewers[w] == Previewer(r, Compiling)
  {
    hide Ledger.Valid;
    ledger := new Ledger();
    w := ledger.next;
    var _ := ledger.StartPreview(r, mode, sources, true, 0);
    assert ledger.jobs[r] == Previewing;
    var _ := ledger.Status(r, 31);
  }

  // When that fails after all, the job is back without its payload: asking for the very same preview is
  // then a conflict.
  method LateFinishConflicts(r: RequestId, other: RequestId, mode: string, sources: map<string, string>, error: string)
    returns (answer: Response)
    requires r != other
    ensures answer == Conflict
  {
    hide Ledger.Valid;
    var ledger, w := ForgottenPreview(r, other, mode, sources);
    ledger.Compile(w, Err(error), 701);
    answer := ledger.StartPreview(r, mode, sources, true, 702);
  }

  // When it fails after another preview was asked for under the same id, that other request, whose own
  // worker still compiles, is answered with this failure.
  method LateFinishAnswersAnother(r: RequestId, other: RequestId, mode: string, sources: map<string, string>,
                                  sources2: map<string, string>, error: string)
    returns (answer: Response)
    requires r != other && sources != sources2
    ensures answer == Repeated(Error(error))
  {
    hide Ledger.Valid;
    var ledger, w := ForgottenPreview(r, other, mode, sources);
    var _ := ledger.StartPreview(r, mode, sources2, true, 701);
    ledger.Compile(w, Err(error), 702);
    answer := ledger.StartPreview(r, mode, sources2, true, 703);
  }
}
