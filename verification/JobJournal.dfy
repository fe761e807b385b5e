/**
  The books of the appearance jobs, as a journal of what happened to them.  From the journal it can be
  told what a request that is repeated is answered with: a conflict with itself exactly if its job was
  put back by a worker that ended after the job had been forgotten.
*/
module JobJournal {
  import opened Wrappers

  type RequestId = string
  type PreviewId = string
  type Time = int
  type Worker = nat

  datatype Phase = Previewing | Applying | Ready | Complete | Error(category: string) | CompletionUnknown
  datatype Payload = PreviewOf(mode: string, sources: map<string, string>) | ApplyOf(preview: PreviewId)
  datatype Response = Started | Repeated(phase: Phase) | Conflict | Stale | NotStarted

  const KEPT_FOR: Time := 600

  predicate IsRunning(p: Phase) {
    p == Previewing || p == Applying
  }

  // A job begins with a worker, or its worker cannot be started; it ends with what its worker, or nobody
  // but a question past the deadline, reports; jobs finished long ago are forgotten.
  datatype Entry =
    | Begins(request: RequestId, payload: Payload, phase: Phase, deadline: Time, worker: Worker)
    | CannotBegin(request: RequestId, payload: Payload, at: Time)
    | Ends(request: RequestId, phase: Phase, at: Time, reporter: Option<Worker>)
    | Forgets(requests: set<RequestId>, at: Time)

  type Journal = seq<Entry>

  datatype Books = Books(
    jobs: map<RequestId, Phase>,
    payloads: map<RequestId, Payload>,
    deadlines: map<RequestId, Time>,
    finished: map<RequestId, Time>)

  // Jobs finished more than ten minutes ago.
  function Expired(finished: map<RequestId, Time>, now: Time): set<RequestId> {
    set r | r in finished && now - finished[r] > KEPT_FOR
  }

  // What a request gets that is already known: its job if it asks for the same, otherwise a conflict.
  function Known(jobs: map<RequestId, Phase>, payloads: map<RequestId, Payload>, r: RequestId,
                 payload: Payload): Response
    requires r in jobs
  {
    if r in payloads && payloads[r] == payload then Repeated(jobs[r]) else Conflict
  }

  function After(b: Books, e: Entry): Books {
    match e
    case Begins(r, payload, phase, deadline, _) =>
      Books(b.jobs[r := phase], b.payloads[r := payload], b.deadlines[r := deadline], b.finished)
    case CannotBegin(r, payload, at) =>
      Books(b.jobs[r := Error("completion_unknown")], b.payloads[r := payload], b.deadlines - {r}, b.finished[r := at])
    case Ends(r, phase, at, _) =>
      Books(b.jobs[r := phase], b.payloads, b.deadlines - {r}, b.finished[r := at])
    case Forgets(rs, _) =>
      Books(b.jobs - rs, b.payloads - rs, b.deadlines - rs, b.finished - rs)
  }

  function Replay(j: Journal): Books {
    if j == [] then Books(map[], map[], map[], map[]) else After(Replay(j[..|j| - 1]), j[|j| - 1])
  }

  // The workers that were started and have not ended, and for which request.
  function Alive(j: Journal): map<Worker, RequestId> {
    if j == [] then map[] else Moved(Alive(j[..|j| - 1]), j[|j| - 1])
  }

  function Moved(alive: map<Worker, RequestId>, e: Entry): map<Worker, RequestId> {
    if e.Begins? then alive[e.worker := e.request]
    else if e.Ends? && e.reporter.Some? then alive - {e.reporter.value}
    else alive
  }

  predicate IsLegal(b: Books, alive: map<Worker, RequestId>, e: Entry) {
    match e
    case Begins(r, _, phase, _, w) => r !in b.jobs && IsRunning(phase) && w !in alive
    case CannotBegin(r, _, _) => r !in b.jobs
    case Ends(r, phase, at, None) =>
      !IsRunning(phase) && r in b.jobs && IsRunning(b.jobs[r]) && r in b.deadlines && at > b.deadlines[r]
    case Ends(r, phase, at, Some(w)) => !IsRunning(phase) && w in alive && alive[w] == r
    case Forgets(rs, at) => rs == Expired(b.finished, at)
  }

  predicate IsJournal(j: Journal) {
    j == [] || (IsJournal(j[..|j| - 1]) && IsLegal(Replay(j[..|j| - 1]), Alive(j[..|j| - 1]), j[|j| - 1]))
  }

  // ----- the books of a journal ----------------------------------------------------------------------

  // What is not running is finished; what is running has a payload and a deadline.
  ghost predicate BooksOk(b: Books) {
    && b.payloads.Keys <= b.jobs.Keys && b.finished.Keys <= b.jobs.Keys
    && (forall r :: r in b.jobs && IsRunning(b.jobs[r]) ==> r in b.payloads && r in b.deadlines)
    && (forall r :: r in b.jobs ==> (IsRunning(b.jobs[r]) <==> r !in b.finished))
  }

  lemma StepKeepsBooks(b: Books, alive: map<Worker, RequestId>, e: Entry)
    requires BooksOk(b) && IsLegal(b, alive, e)
    ensures BooksOk(After(b, e))
  {
  }

  lemma {:induction false} JournalKeepsBooks(j: Journal)
    requires IsJournal(j)
    ensures BooksOk(Replay(j))
  {
    if j != [] {
      hide BooksOk, IsLegal, After;
      JournalKeepsBooks(j[..|j| - 1]);
      StepKeepsBooks(Replay(j[..|j| - 1]), Alive(j[..|j| - 1]), j[|j| - 1]);
    } else {
      assert Replay(j) == Books(map[], map[], map[], map[]);
    }
  }

  lemma Append(j: Journal, e: Entry)
    requires IsJournal(j) && IsLegal(Replay(j), Alive(j), e)
    ensures IsJournal(j + [e]) && Replay(j + [e]) == After(Replay(j), e) && Alive(j + [e]) == Moved(Alive(j), e)
  {
    assert (j + [e])[..|j|] == j;
  }

  lemma {:induction false} PrefixIsJournal(j: Journal, i: nat)
    requires IsJournal(j) && i <= |j|
    ensures IsJournal(j[..i])
    ensures i < |j| ==> IsLegal(Replay(j[..i]), Alive(j[..i]), j[i])
  {
    if i < |j| {
      PrefixIsJournal(j[..|j| - 1], i);
      assert j[..|j| - 1][..i] == j[..i];
    } else {
      assert j[..i] == j;
    }
  }

  // ----- what a repeated request is answered with ------------------------------------------------------

  // What was asked for last under this id.
  function Asked(j: Journal, r: RequestId): Option<Payload> {
    if j == [] then None
    else
      var last := j[|j| - 1];
      if (last.Begins? || last.CannotBegin?) && last.request == r then Some(last.payload) else Asked(j[..|j| - 1], r)
  }

  // A worker ended when the job was not there any more, and nothing was asked or forgotten since.
  predicate PutBack(j: Journal, r: RequestId) {
    j != []
    && var init, last := j[..|j| - 1], j[|j| - 1];
       match last
       case Ends(q, _, _, _) => PutBack(init, r) || (q == r && r !in Replay(init).jobs)
       case Forgets(rs, _) => r !in rs && PutBack(init, r)
       case _ => last.request != r && PutBack(init, r)
  }

  lemma {:induction false} AliveWasAsked(j: Journal, w: Worker)
    requires w in Alive(j)
    ensures Asked(j, Alive(j)[w]).Some?
  {
    if !(j[|j| - 1].Begins? && j[|j| - 1].worker == w) {
      AliveWasAsked(j[..|j| - 1], w);
    }
  }

  // A payload that is kept is the one asked for last; a job is without payload exactly if it was put back.
  lemma {:induction false} PayloadsAreKept(j: Journal, r: RequestId)
    requires IsJournal(j)
    ensures r in Replay(j).payloads ==> r in Replay(j).jobs && Asked(j, r) == Some(Replay(j).payloads[r])
    ensures r in Replay(j).jobs ==> Asked(j, r).Some? && (r !in Replay(j).payloads <==> PutBack(j, r))
    ensures r !in Replay(j).jobs ==> !PutBack(j, r)
  {
    if j != [] {
      var init, last := j[..|j| - 1], j[|j| - 1];
      PayloadsAreKept(init, r);
      if last.Ends? && last.reporter.Some? && last.request == r { AliveWasAsked(init, last.reporter.value); }
    }
  }

  // Repeating a request, with the payload it was last asked with, is a conflict exactly if its job was
  // put back; otherwise it is answered with the job.
  lemma RepeatIsAnswered(j: Journal, r: RequestId)
    requires IsJournal(j) && r in Replay(j).jobs
    ensures Asked(j, r).Some?
    ensures var b := Replay(j);
            Known(b.jobs, b.payloads, r, Asked(j, r).value) == if PutBack(j, r) then Conflict else Repeated(b.jobs[r])
  {
    PayloadsAreKept(j, r);
  }

  // ----- how a job comes to be put back -----------------------------------------------------------------

  predicate Finishes(e: Entry, r: RequestId) {
    (e.Ends? || e.CannotBegin?) && e.request == r
  }

  // The job was reported as ended at u, and forgotten at k more than ten minutes later.
  predicate ForgottenAt(j: Journal, r: RequestId, u: nat, k: nat) {
    u < k < |j| && Finishes(j[u], r) && j[k].Forgets? && r in j[k].requests && j[k].at - j[u].at > KEPT_FOR
  }

  // The request is asked for.
  predicate Asks(e: Entry, r: RequestId) {
    (e.Begins? || e.CannotBegin?) && e.request == r
  }

  lemma {:induction false} FinishedThen(j: Journal, r: RequestId) returns (u: nat)
    requires r in Replay(j).finished
    ensures u < |j| && Finishes(j[u], r) && j[u].at == Replay(j).finished[r]
  {
    if Finishes(j[|j| - 1], r) {
      u := |j| - 1;
    } else {
      u := FinishedThen(j[..|j| - 1], r);
    }
  }

  // A request that was asked for and is not there any more was forgotten, and not asked for since.
  lemma {:induction false} WasForgotten(j: Journal, r: RequestId) returns (u: nat, k: nat)
    requires IsJournal(j) && Asked(j, r).Some? && r !in Replay(j).jobs
    ensures ForgottenAt(j, r, u, k)
    ensures forall i :: k < i < |j| ==> !Asks(j[i], r)
  {
    var init, last := j[..|j| - 1], j[|j| - 1];
    if last.Forgets? && r in last.requests {
      k := |j| - 1;
      u := FinishedThen(init, r);
    } else {
      u, k := WasForgotten(init, r);
    }
  }

  // Where a worker that is alive began; from then on it is alive.
  lemma {:induction false} AliveSince(j: Journal, w: Worker) returns (b: nat)
    requires w in Alive(j)
    ensures b < |j| && j[b].Begins? && j[b].worker == w && j[b].request == Alive(j)[w]
    ensures forall i :: b < i <= |j| ==> w in Alive(j[..i]) && Alive(j[..i])[w] == Alive(j)[w]
  {
    var init := j[..|j| - 1];
    assert j[..|j|] == j;
    if j[|j| - 1].Begins? && j[|j| - 1].worker == w {
      b := |j| - 1;
    } else {
      b := AliveSince(init, w);
      forall i | b < i <= |j| ensures w in Alive(j[..i]) && Alive(j[..i])[w] == Alive(j)[w] {
        if i < |j| { assert j[..i] == init[..i]; }
      }
    }
  }

  // How a job comes to be put back: its worker began at b and was still alive when the job, more than ten
  // minutes after it had been reported as ended, was forgotten at k; it ended at e, unasked for since.
  lemma {:induction false} PutBackMeans(j: Journal, r: RequestId) returns (b: nat, u: nat, k: nat, e: nat)
    requires IsJournal(j) && PutBack(j, r)
    ensures ForgottenAt(j, r, u, k) && b < k < e < |j|
    ensures j[b].Begins? && j[b].request == r && j[e].Ends? && j[e].request == r && j[e].reporter == Some(j[b].worker)
    ensures j[b].worker in Alive(j[..k]) && Alive(j[..k])[j[b].worker] == r
    ensures forall i :: k < i < |j| ==> !Asks(j[i], r)
  {
    var init, last := j[..|j| - 1], j[|j| - 1];
    if PutBack(init, r) {
      b, u, k, e := PutBackMeans(init, r);
      assert init[..k] == j[..k];
    } else {
      e := |j| - 1;
      var w := last.reporter.value;
      b := AliveSince(init, w);
      AliveWasAsked(init, w);
      u, k := WasForgotten(init, r);
      assert Asks(init[b], r);
      assert init[..k] == j[..k];
    }
  }

  // The request is forgotten at k and not asked for any more, and a worker reports for it at e; it is not
  // forgotten again.
  predicate ComesBack(j: Journal, r: RequestId, k: nat, e: nat) {
    && k < e < |j| && j[k].Forgets? && r in j[k].requests
    && j[e].Ends? && j[e].request == r && j[e].reporter.Some?
    && (forall i :: k < i < |j| ==> !Asks(j[i], r))
    && (forall i :: e < i < |j| ==> !Drops(j[i], r))
  }

  predicate Drops(e: Entry, r: RequestId) {
    e.Forgets? && r in e.requests
  }

  lemma {:induction false} NoPayloadSince(j: Journal, r: RequestId, k: nat)
    requires k < |j| && Drops(j[k], r) && forall i :: k < i < |j| ==> !Asks(j[i], r)
    ensures r !in Replay(j).payloads
  {
    if k < |j| - 1 {
      NoPayloadSince(j[..|j| - 1], r, k);
      assert !Asks(j[|j| - 1], r);
    }
  }

  lemma {:induction false} JobSince(j: Journal, r: RequestId, e: nat)
    requires e < |j| && j[e].Ends? && j[e].request == r && forall i :: e < i < |j| ==> !Drops(j[i], r)
    ensures r in Replay(j).jobs
  {
    if e < |j| - 1 {
      JobSince(j[..|j| - 1], r, e);
      assert !Drops(j[|j| - 1], r);
    }
  }

  lemma {:induction false} PutBackComesBack(j: Journal, r: RequestId) returns (k: nat, e: nat)
    requires IsJournal(j) && PutBack(j, r)
    ensures ComesBack(j, r, k, e)
  {
    var init, last := j[..|j| - 1], j[|j| - 1];
    if PutBack(init, r) {
      k, e := PutBackComesBack(init, r);
    } else {
      e := |j| - 1;
      AliveWasAsked(init, last.reporter.value);
      var u;
      u, k := WasForgotten(init, r);
    }
  }

  // A job is put back exactly if, forgotten and not asked for again, a worker reports for it.
  lemma PutBackExactly(j: Journal, r: RequestId)
    requires IsJournal(j)
    ensures PutBack(j, r) <==> exists k: nat, e: nat :: ComesBack(j, r, k, e)
  {
    if PutBack(j, r) {
      var k, e := PutBackComesBack(j, r);
    }
    if k: nat, e: nat :| ComesBack(j, r, k, e) {
      NoPayloadSince(j, r, k);
      JobSince(j, r, e);
      PayloadsAreKept(j, r);
    }
  }

  // ----- what a caller can rely on ----------------------------------------------------------------------

  lemma {:induction false} RememberedSince(j: Journal, r: RequestId, n: nat)
    requires n < |j| && Asks(j[n], r) && forall i :: n < i < |j| ==> !Drops(j[i], r)
    ensures r in Replay(j).jobs && r in Replay(j).payloads
  {
    if n < |j| - 1 {
      RememberedSince(j[..|j| - 1], r, n);
      assert !Drops(j[|j| - 1], r);
    }
  }

  // A request that has not been forgotten since it was asked for is answered with its job.
  lemma RepeatBeforeForgotten(j: Journal, r: RequestId, n: nat)
    requires IsJournal(j) && n < |j| && Asks(j[n], r) && forall i :: n < i < |j| ==> !Drops(j[i], r)
    ensures var b := Replay(j);
            && r in b.jobs && Asked(j, r).Some?
            && Known(b.jobs, b.payloads, r, Asked(j, r).value) == Repeated(b.jobs[r])
  {
    RememberedSince(j, r, n);
    RepeatIsAnswered(j, r);
    PayloadsAreKept(j, r);
  }

  lemma AliveWhenForgotten(j: Journal, r: RequestId) returns (k: nat)
    requires IsJournal(j) && PutBack(j, r)
    ensures k < |j| && Drops(j[k], r) && r in Alive(j[..k]).Values
  {
    var b, u, e;
    b, u, k, e := PutBackMeans(j, r);
    assert j[b].worker in Alive(j[..k]);
  }

  // And so is one whose workers had all ended whenever it was forgotten.
  lemma RepeatAfterAllEnded(j: Journal, r: RequestId)
    requires IsJournal(j) && r in Replay(j).jobs
    requires forall k :: 0 <= k < |j| && Drops(j[k], r) ==> r !in Alive(j[..k]).Values
    ensures var b := Replay(j);
            Asked(j, r).Some? && Known(b.jobs, b.payloads, r, Asked(j, r).value) == Repeated(b.jobs[r])
  {
    RepeatIsAnswered(j, r);
    if PutBack(j, r) {
      var k := AliveWhenForgotten(j, r);
    }
  }

  // Until ten minutes after its job was reported a request that is repeated gets the job.
  lemma RepeatInTime(j: Journal, r: RequestId, now: Time)
    requires IsJournal(j) && r in Replay(j).jobs && !PutBack(j, r)
    requires r in Replay(j).finished ==> now - Replay(j).finished[r] <= KEPT_FOR
    ensures var b, gone := Replay(j), Expired(Replay(j).finished, now);
            && Asked(j, r).Some? && r in (b.jobs - gone)
            && Known(b.jobs - gone, b.payloads - gone, r, Asked(j, r).value) == Repeated(b.jobs[r])
  {
    PayloadsAreKept(j, r);
  }

  // ----- answers of an earlier worker ------------------------------------------------------------------

  // The worker started last for this request, if one could be started.
  function LastBegun(j: Journal, r: RequestId): Option<Worker> {
    if j == [] then None
    else
      var last := j[|j| - 1];
      if last.Begins? && last.request == r then Some(last.worker)
      else if last.CannotBegin? && last.request == r then None
      else LastBegun(j[..|j| - 1], r)
  }

  // What the job shows was reported by a worker other than the one started last for the request.
  predicate AnsweredByAnother(j: Journal, r: RequestId) {
    j != []
    && var init, last := j[..|j| - 1], j[|j| - 1];
       match last
       case Ends(q, _, _, w) => if q == r then w.Some? && w != LastBegun(init, r) else AnsweredByAnother(init, r)
       case Forgets(rs, _) => r !in rs && AnsweredByAnother(init, r)
       case _ => last.request != r && AnsweredByAnother(init, r)
  }

  // The last time the request was asked for.
  lemma {:induction false} LastAsked(j: Journal, r: RequestId, b: nat) returns (n: nat)
    requires b < |j| && Asks(j[b], r)
    ensures b <= n < |j| && Asks(j[n], r)
    ensures LastBegun(j, r) == if j[n].Begins? then Some(j[n].worker) else None
  {
    if Asks(j[|j| - 1], r) {
      n := |j| - 1;
    } else {
      n := LastAsked(j[..|j| - 1], r, b);
    }
  }

  // The last report of the job, not asked for or forgotten since.
  predicate IsLastReport(j: Journal, r: RequestId, e: nat) {
    && e < |j| && j[e].Ends? && j[e].request == r
    && (forall i :: e < i < |j| ==> !Finishes(j[i], r) && !Asks(j[i], r) && !Drops(j[i], r))
  }

  lemma {:induction false} LastBegunAtReport(j: Journal, r: RequestId, e: nat)
    requires IsLastReport(j, r, e)
    ensures LastBegun(j, r) == LastBegun(j[..e], r)
    ensures AnsweredByAnother(j, r) <==> j[e].reporter.Some? && j[e].reporter != LastBegun(j, r)
  {
    var init := j[..|j| - 1];
    if e < |j| - 1 {
      LastBegunAtReport(init, r, e);
      assert init[..e] == j[..e];
      assert !Finishes(j[|j| - 1], r) && !Asks(j[|j| - 1], r) && !Drops(j[|j| - 1], r);
    }
  }

  lemma {:induction false} AnotherReported(j: Journal, r: RequestId) returns (e: nat)
    requires AnsweredByAnother(j, r)
    ensures IsLastReport(j, r, e)
  {
    if j[|j| - 1].Ends? && j[|j| - 1].request == r {
      e := |j| - 1;
    } else {
      e := AnotherReported(j[..|j| - 1], r);
    }
  }

  // The last report of a worker started before the request was asked for last: that worker began at b and
  // was still alive when its job was forgotten at k, and the request was asked for again at n.
  lemma ReportedLate(j: Journal, r: RequestId, e: nat) returns (b: nat, u: nat, k: nat, n: nat)
    requires IsJournal(j) && e < |j| && j[e].Ends? && j[e].request == r
    requires j[e].reporter.Some? && j[e].reporter != LastBegun(j[..e], r)
    ensures ForgottenAt(j, r, u, k) && b < k < n < e && Asks(j[n], r)
    ensures j[b].Begins? && j[b].request == r && j[e].reporter == Some(j[b].worker)
    ensures j[b].worker in Alive(j[..k]) && Alive(j[..k])[j[b].worker] == r
  {
    hide AnsweredByAnother, PutBack, IsJournal, Replay;
    var w := j[e].reporter.value;
    ReporterWasAlive(j, e);
    b := AliveSince(j[..e], w);
    assert Asks(j[..e][b], r);
    n := LastAsked(j[..e], r, b);
    assert j[..e][..n] == j[..n];
    AskedWhenForgotten(j, r, n);
    assert Asks(j[..n][b], r);
    AskedOnce(j[..n], r, b);
    u, k := WasForgotten(j[..n], r);
    assert j[..e][..k] == j[..k];
  }

  lemma ReporterWasAlive(j: Journal, e: nat)
    requires IsJournal(j) && e < |j| && j[e].Ends? && j[e].reporter.Some?
    ensures j[e].reporter.value in Alive(j[..e]) && Alive(j[..e])[j[e].reporter.value] == j[e].request
  {
    PrefixIsJournal(j, e);
  }

  lemma AskedWhenForgotten(j: Journal, r: RequestId, n: nat)
    requires IsJournal(j) && n < |j| && Asks(j[n], r)
    ensures IsJournal(j[..n]) && r !in Replay(j[..n]).jobs
  {
    PrefixIsJournal(j, n);
  }

  lemma {:induction false} AskedOnce(j: Journal, r: RequestId, b: nat)
    requires b < |j| && Asks(j[b], r)
    ensures Asked(j, r).Some?
  {
    if b < |j| - 1 { AskedOnce(j[..|j| - 1], r, b); }
  }

  // The job shows what another worker than its own reported exactly if the last report was that worker's;
  // it had been alive when the job was forgotten, before the request was asked for again.
  lemma AnsweredByAnotherExactly(j: Journal, r: RequestId)
    requires IsJournal(j)
    ensures AnsweredByAnother(j, r)
            <==> exists e: nat :: IsLastReport(j, r, e) && j[e].reporter.Some? && j[e].reporter != LastBegun(j, r)
  {
    if AnsweredByAnother(j, r) {
      var e := AnotherReported(j, r);
      LastBegunAtReport(j, r, e);
    }
    if e: nat :| IsLastReport(j, r, e) && j[e].reporter.Some? && j[e].reporter != LastBegun(j, r) {
      LastBegunAtReport(j, r, e);
    }
  }

  lemma AnotherMeans(j: Journal, r: RequestId) returns (b: nat, u: nat, k: nat, n: nat, e: nat)
    requires IsJournal(j) && AnsweredByAnother(j, r)
    ensures IsLastReport(j, r, e) && j[e].reporter.Some? && j[e].reporter != LastBegun(j, r)
    ensures ForgottenAt(j, r, u, k) && b < k < n < e && Asks(j[n], r)
    ensures j[b].Begins? && j[b].request == r && j[e].reporter == Some(j[b].worker)
    ensures j[b].worker in Alive(j[..k]) && Alive(j[..k])[j[b].worker] == r
  {
    hide IsJournal, Replay, Alive;
    e := AnotherReported(j, r);
    LastBegunAtReport(j, r, e);
    b, u, k, n := ReportedLate(j, r, e);
  }
}
