/**
  The worker that brings wallpaper scenes onto the screen in two phases, interleaved with the
  user interface, the monitors and the native renderer.  At every point where the program can be
  overtaken, the next batch of a schedule of outside steps is carried out.
*/
module WallpaperController {
  import opened Wrappers
  import opened WallpaperTrace

  datatype Note = Note(message: Message, generation: nat, detail: string)
  datatype Monitors = Monitors(key: Topology, supported: bool)
  datatype Saved = Saved(scene: SceneId, generation: nat)

  // An attempt without a job is a recovery; without a scene, the stored state was unreadable.
  datatype Attempt = Attempt(job: Option<string>, scene: Option<SceneId>, ticket: nat)
  datatype Job = Job(scene: SceneId, phase: string)

  datatype OutsideStep =
    | UiRequest(requestId: string, scene: SceneId)
    | UiRestore(readable: bool)
    | UiClose
    | ChangeMonitors(monitors: Monitors)
    | Emit(note: Note)
    | Die

  datatype Hearing = Nothing | Awaited | Broken(category: string)
  datatype CancelMode = OnStop | OnStopOrRequest

  const MAX_JOBS := 64
  const MAX_FAILURES := 3

  predicate IsUncertain(category: string) {
    category in {"renderer_timeout", "renderer_exited", "renderer_protocol", "topology_changed"}
  }

  // What the next event means to one who waits for this message of generation g: an event of another
  // generation means nothing.
  function HeardIn(events: seq<Note>, message: Message, g: nat): Hearing {
    if events == [] then Nothing
    else if events[0].message == EXIT then Broken("renderer_exited")
    else if events[0].generation != g then Nothing
    else if events[0].message == FAILED then Broken(events[0].detail)
    else if events[0].message == message then Awaited else Nothing
  }

  function Later(events: seq<Note>): seq<Note> {
    if events == [] then [] else events[1..]
  }

  // The renderer has answered both phases of generation g.
  predicate Answers(events: seq<Note>, g: nat) {
    HeardIn(events, READY, g) == Awaited && HeardIn(Later(events), COMMITTED, g) == Awaited
  }

  // One job, if it is still known, is in that phase.
  function WithPhase(jobs: map<string, Job>, job: Option<string>, phase: string): map<string, Job> {
    if job.Some? && job.value in jobs then jobs[job.value := jobs[job.value].(phase := phase)] else jobs
  }

  // What is left of the order are its last ids, and exactly the jobs of the others are gone.
  ghost predicate KeepsNewest(order: seq<string>, rest: seq<string>, jobs: map<string, Job>, left: map<string, Job>) {
    && |rest| <= |order| && rest == order[|order| - |rest|..]
    && (forall id :: id in left <==> id in jobs && id !in order[..|order| - |rest|])
    && (forall id :: id in left ==> left[id] == jobs[id])
  }

  // The jobs once a new request took the place of the one waiting.
  function Enqueued(jobs: map<string, Job>, waiting: Option<Attempt>, scene: SceneId,
                    requestId: string): map<string, Job> {
    WithPhase(jobs, if waiting.Some? then waiting.value.job else None, "superseded")[requestId := Job(scene, "queued")]
  }

  // Which failures count towards the fallback, given the phase the attempt was in.
  predicate Counts(category: string, phase: string, job: Option<string>) {
    category != "superseded" && (phase == "transitioning" || IsUncertain(category) || job.None?)
  }

  // ----- how traces grow -----------------------------------------------------------------

  predicate IsOutside(e: Event) {
    e.Requested? || e.Restored? || e.Superseded? || e.Emitted? || e.MonitorsAre?
  }

  // Events that neither count as a failure nor reopen or close automatic attempts, and store nothing.
  predicate IsNeutral(e: Event) {
    IsOutside(e) || e.AutoQueued? || e.Prepared? || e.FallbackSent? || e.Received? || e.Sampled?
    || e.CommitSent? || e.AbortSent?
  }

  ghost predicate GrowsOutside(t: Trace, u: Trace) {
    t == u || (|t| < |u| && IsOutside(u[|u| - 1]) && GrowsOutside(t, u[..|u| - 1]))
  }

  ghost predicate GrowsNeutral(t: Trace, u: Trace) {
    t == u || (|t| < |u| && IsNeutral(u[|u| - 1]) && GrowsNeutral(t, u[..|u| - 1]))
  }

  // Neutral events, then perhaps one scene is stored.
  ghost predicate GrowsApplied(t: Trace, u: Trace) {
    GrowsNeutral(t, u) || (u != [] && u[|u| - 1].Stored? && GrowsNeutral(t, u[..|u| - 1]))
  }

  lemma {:induction false} OutsideTransitive(t: Trace, u: Trace, v: Trace)
    requires GrowsOutside(t, u) && GrowsOutside(u, v)
    ensures GrowsOutside(t, v) && |t| <= |v|
    decreases |v|
  {
    if u != v {
      OutsideTransitive(t, u, v[..|v| - 1]);
    } else if t != u {
      OutsideTransitive(t, t, u[..|u| - 1]);
    }
  }

  lemma {:induction false} NeutralTransitive(t: Trace, u: Trace, v: Trace)
    requires GrowsNeutral(t, u) && GrowsNeutral(u, v)
    ensures GrowsNeutral(t, v) && |t| <= |v|
    decreases |v|
  {
    if u != v {
      NeutralTransitive(t, u, v[..|v| - 1]);
    } else if t != u {
      NeutralTransitive(t, t, u[..|u| - 1]);
    }
  }

  lemma {:induction false} OutsideIsNeutral(t: Trace, u: Trace)
    requires GrowsOutside(t, u)
    ensures GrowsNeutral(t, u)
    decreases |u|
  {
    if t != u { OutsideIsNeutral(t, u[..|u| - 1]); }
  }

  lemma {:induction false} OutsideKeepsEvents(t: Trace, u: Trace, e: Event)
    requires GrowsOutside(t, u)
    ensures e in t ==> e in u
    decreases |u|
  {
    if t != u {
      OutsideKeepsEvents(t, u[..|u| - 1], e);
    }
  }

  lemma {:induction false} NeutralKeepsCounts(t: Trace, u: Trace)
    requires GrowsNeutral(t, u)
    ensures Streak(u) == Streak(t) && Open(u) == Open(t) && StoredTickets(u) == StoredTickets(t)
    ensures StageOf(u) == StageOf(t) && DegradedAt(u) == DegradedAt(t) && t <= u
    decreases |u|
  {
    if t != u {
      NeutralKeepsCounts(t, u[..|u| - 1]);
    }
  }

  lemma {:induction false} NeutralIsPrefix(t: Trace, u: Trace)
    requires GrowsNeutral(t, u)
    ensures t <= u
    decreases |u|
  {
    if t != u { NeutralIsPrefix(t, u[..|u| - 1]); }
  }

  lemma AppliedKeepsCounts(t: Trace, u: Trace)
    requires GrowsApplied(t, u)
    ensures Streak(u) == Streak(t) && Open(u) == Open(t) && StageOf(u) == StageOf(t) && DegradedAt(u) == DegradedAt(t)
    ensures GrowsNeutral(t, u) ==> StoredTickets(u) == StoredTickets(t)
    ensures t <= u
  {
    if GrowsNeutral(t, u) {
      NeutralKeepsCounts(t, u);
      NeutralIsPrefix(t, u);
    } else {
      NeutralKeepsCounts(t, u[..|u| - 1]);
      NeutralIsPrefix(t, u[..|u| - 1]);
    }
  }

  // ----- what a trace says about a generation, a ticket, a scene -------------------------------

  function TicketOf(e: Event): Option<nat> {
    match e
    case Requested(k) => Some(k)
    case Restored(k) => Some(k)
    case Superseded(k) => Some(k)
    case AutoQueued(k) => Some(k)
    case Taken(k) => Some(k)
    case Prepared(_, _, k, _) => Some(k)
    case Stored(_, _, k) => Some(k)
    case _ => None
  }

  // A run whose generations are at most g and whose tickets are below n.
  ghost predicate Within(t: Trace, g: nat, n: nat) {
    t == []
    || var init, last := t[..|t| - 1], t[|t| - 1];
       && Within(init, g, n) && Legal(init, last)
       && Gen(last) <= g && (TicketOf(last).Some? ==> TicketOf(last).value < n)
  }

  ghost predicate NoTicket(t: Trace, k: nat) {
    t == [] || (NoTicket(t[..|t| - 1], k) && TicketOf(t[|t| - 1]) != Some(k))
  }

  // The attempt with ticket k was queued, by the user if so required and by the worker only if
  // that is allowed, and nothing has happened to it since.
  ghost predicate Waiting(t: Trace, k: nat, user: bool, own: bool) {
    t != []
    && var init, last := t[..|t| - 1], t[|t| - 1];
       if TicketOf(last) == Some(k)
       then NoTicket(init, k) && (last.Requested? || (!user && (last.Restored? || (own && last.AutoQueued?))))
       else Waiting(init, k, user, own)
  }

  // The attempt with ticket k was taken and not superseded since.
  ghost predicate InHand(t: Trace, k: nat) {
    t != [] && t[|t| - 1] != Superseded(k) && (t[|t| - 1] == Taken(k) || InHand(t[..|t| - 1], k))
  }

  // A scene known from the start, or stored in this run.
  ghost predicate Known(t: Trace, known: set<SceneId>, s: SceneId) {
    s in known || (t != [] && ((t[|t| - 1].Stored? && t[|t| - 1].scene == s) || Known(t[..|t| - 1], known, s)))
  }

  // What has happened to generation g, and which attempts were stored.
  ghost function Of(t: Trace, g: nat): seq<Event> {
    if t == [] then []
    else Of(t[..|t| - 1], g) + (if Gen(t[|t| - 1]) == g then [t[|t| - 1]] else [])
  }

  ghost function StoredTickets(t: Trace): set<nat> {
    if t == [] then {}
    else StoredTickets(t[..|t| - 1]) + (if t[|t| - 1].Stored? then {t[|t| - 1].ticket} else {})
  }

  // Every event not yet taken was emitted by a renderer.
  ghost predicate EventsOk(t: Trace, events: seq<Note>) {
    events == []
    || (Emitted(events[0].message, events[0].generation) in t && EventsOk(t, events[1..]))
  }

  lemma {:induction false} WithinIsRun(t: Trace, g: nat, n: nat)
    requires Within(t, g, n)
    ensures IsRun(t)
  {
    if t != [] { WithinIsRun(t[..|t| - 1], g, n); }
  }

  lemma {:induction false} Widen(t: Trace, g: nat, n: nat, g': nat, n': nat)
    requires Within(t, g, n) && g <= g' && n <= n'
    ensures Within(t, g', n')
  {
    if t != [] { Widen(t[..|t| - 1], g, n, g', n'); }
  }

  lemma {:induction false} WithinBounds(t: Trace, g: nat, n: nat, e: Event)
    requires Within(t, g, n) && e in t
    ensures Gen(e) <= g && (TicketOf(e).Some? ==> TicketOf(e).value < n)
  {
    if e != t[|t| - 1] {
      WithinBounds(t[..|t| - 1], g, n, e);
    }
  }

  lemma {:induction false} FreshTicket(t: Trace, g: nat, n: nat, k: nat)
    requires Within(t, g, n) && n <= k
    ensures NoTicket(t, k)
  {
    if t != [] { FreshTicket(t[..|t| - 1], g, n, k); }
  }

  lemma {:induction false} NoTicketHasNo(t: Trace, k: nat, e: Event)
    requires NoTicket(t, k) && TicketOf(e) == Some(k)
    ensures e !in t
  {
    if t != [] {
      NoTicketHasNo(t[..|t| - 1], k, e);
      assert t == t[..|t| - 1] + [t[|t| - 1]];
    }
  }

  lemma {:induction false} FreshGeneration(t: Trace, g: nat, n: nat)
    requires Within(t, g, n)
    ensures Of(t, g + 1) == [] && Above(g + 1, t)
  {
    if t != [] {
      FreshGeneration(t[..|t| - 1], g, n);
      assert t == t[..|t| - 1] + [t[|t| - 1]];
    }
  }

  lemma {:induction false} WaitingMeans(t: Trace, k: nat, user: bool, own: bool, e: Event)
    requires Waiting(t, k, user, own)
    ensures Requested(k) in t || (!user && (Restored(k) in t || (own && AutoQueued(k) in t)))
    ensures e in t && TicketOf(e) == Some(k) ==> e.Requested? || e.Restored? || (own && e.AutoQueued?)
  {
    var init, last := t[..|t| - 1], t[|t| - 1];
    assert t == init + [last];
    if TicketOf(last) == Some(k) {
      if TicketOf(e) == Some(k) { NoTicketHasNo(init, k, e); }
    } else {
      WaitingMeans(init, k, user, own, e);
    }
  }

  lemma {:induction false} WaitingIsNotStored(t: Trace, k: nat, user: bool, own: bool)
    requires Waiting(t, k, user, own) || NoTicket(t, k)
    ensures k !in StoredTickets(t)
  {
    if t != [] { WaitingIsNotStored(t[..|t| - 1], k, user, own); }
  }

  lemma {:induction false} StoredTicketsHas(t: Trace, g: nat, s: SceneId, k: nat)
    requires Stored(g, s, k) in t
    ensures k in StoredTickets(t)
  {
    if t[|t| - 1] != Stored(g, s, k) { StoredTicketsHas(t[..|t| - 1], g, s, k); }
  }

  lemma {:induction false} InHandMeans(t: Trace, k: nat)
    requires IsRun(t) && InHand(t, k)
    ensures Taken(k) in t && Superseded(k) !in t
  {
    var init, last := t[..|t| - 1], t[|t| - 1];
    assert t == init + [last];
    if last != Taken(k) { InHandMeans(init, k); }
  }

  lemma {:induction false} OfHas(t: Trace, g: nat, e: Event)
    requires Gen(e) == g
    ensures e in t <==> e in Of(t, g)
  {
    if t != [] {
      OfHas(t[..|t| - 1], g, e);
      assert t == t[..|t| - 1] + [t[|t| - 1]];
    }
  }

  lemma {:induction false} OutsideKeepsOf(t: Trace, u: Trace, g: nat)
    requires GrowsOutside(t, u) && g > 0
    ensures Of(u, g) == Of(t, g)
    decreases |u|
  {
    if t != u { OutsideKeepsOf(t, u[..|u| - 1], g); }
  }

  lemma {:induction false} EventsStayOk(t: Trace, e: Event, events: seq<Note>)
    requires EventsOk(t, events)
    ensures EventsOk(t + [e], events)
  {
    if events != [] { EventsStayOk(t, e, events[1..]); }
  }

  lemma {:induction false} OneMoreEvent(t: Trace, events: seq<Note>, note: Note)
    requires EventsOk(t, events) && Emitted(note.message, note.generation) in t
    ensures EventsOk(t, events + [note])
  {
    if events != [] {
      OneMoreEvent(t, events[1..], note);
      assert (events + [note])[1..] == events[1..] + [note];
    }
  }

  lemma NothingGrows(t: Trace)
    ensures GrowsNeutral(t, t)
  {
  }

  lemma ExtendWithin(t: Trace, e: Event, g: nat, n: nat)
    requires Within(t, g, n) && Legal(t, e) && Gen(e) <= g && (TicketOf(e).Some? ==> TicketOf(e).value < n)
    ensures Within(t + [e], g, n)
    ensures IsOutside(e) ==> GrowsOutside(t, t + [e])
    ensures IsNeutral(e) ==> GrowsNeutral(t, t + [e])
  {
    assert (t + [e])[..|t|] == t;
  }

  lemma ExtendShows(t: Trace, e: Event, topology: Topology)
    ensures Shows(t, topology) && !e.MonitorsAre? ==> Shows(t + [e], topology)
    ensures e == MonitorsAre(topology) ==> Shows(t + [e], topology)
  {
    assert (t + [e])[..|t|] == t;
  }

  lemma ExtendWaiting(t: Trace, e: Event, k: nat, user: bool, own: bool)
    ensures Waiting(t, k, user, own) && TicketOf(e) != Some(k) ==> Waiting(t + [e], k, user, own)
    ensures NoTicket(t, k) && e == Requested(k) ==> Waiting(t + [e], k, user, own)
    ensures NoTicket(t, k) && (e == Restored(k) || (own && e == AutoQueued(k))) && !user ==>
      Waiting(t + [e], k, user, own)
  {
    assert (t + [e])[..|t|] == t;
  }

  lemma ExtendInHand(t: Trace, e: Event, k: nat)
    ensures InHand(t, k) && e != Superseded(k) ==> InHand(t + [e], k)
    ensures e == Taken(k) ==> InHand(t + [e], k)
  {
    assert (t + [e])[..|t|] == t;
  }

  lemma ExtendOf(t: Trace, e: Event, g: nat)
    ensures Of(t + [e], g) == Of(t, g) + (if Gen(e) == g then [e] else [])
  {
    assert (t + [e])[..|t|] == t;
  }

  lemma ExtendKnown(t: Trace, e: Event, known: set<SceneId>, s: SceneId)
    ensures Known(t, known, s) ==> Known(t + [e], known, s)
    ensures e.Stored? && e.scene == s ==> Known(t + [e], known, s)
  {
    assert (t + [e])[..|t|] == t;
  }

  // The trace before anything was done.
  lemma FirstTrace(topology: Topology)
    ensures var t := [MonitorsAre(topology)];
            Within(t, 0, 0) && Shows(t, topology) && Streak(t) == 0 && Open(t)
  {
    var t, e := [MonitorsAre(topology)], MonitorsAre(topology);
    assert |t| - 1 == 0 && t[..0] == [] && t[0] == e;
    assert Within([], 0, 0) && Legal([], e) && Gen(e) == 0 && TicketOf(e) == None;
  }

  // ----- one generation ------------------------------------------------------------------------

  // The history of a generation that was prepared, is ready and found the topology unchanged.
  ghost function Ready(g: nat, s: SceneId, k: nat, t: Topology): seq<Event> {
    [Prepared(g, s, k, t), Received(READY, g), Sampled(g, t)]
  }

  // That generation was then committed, and the topology found unchanged once more.
  ghost function Confirmed(g: nat, s: SceneId, k: nat, t: Topology): seq<Event> {
    Ready(g, s, k, t) + [CommitSent(g), Received(COMMITTED, g), Sampled(g, t)]
  }

  ghost function FallbackReady(g: nat): seq<Event> {
    [FallbackSent(g), Received(READY, g)]
  }

  ghost function FallbackShown(g: nat): seq<Event> {
    FallbackReady(g) + [CommitSent(g), Received(COMMITTED, g)]
  }

  lemma {:induction false} LastSample(t: Trace, g: nat, m: Message, topology: Topology)
    requires Of(t, g) != [] && Of(t, g)[|Of(t, g)| - 1] == Sampled(g, topology)
    requires Received(m, g) in Of(t, g)[..|Of(t, g)| - 1]
    ensures SampledAfter(t, g, m, topology)
  {
    var init := t[..|t| - 1];
    if Gen(t[|t| - 1]) == g {
      assert Of(t, g)[..|Of(t, g)| - 1] == Of(init, g);
      OfHas(init, g, Received(m, g));
    } else {
      LastSample(init, g, m, topology);
    }
  }

  lemma MayCommit(trace: Trace, g: nat, s: SceneId, k: nat, t: Topology)
    requires g > 0 && Of(trace, g) == Ready(g, s, k, t)
    ensures Legal(trace, CommitSent(g))
  {
    OfHas(trace, g, Received(READY, g));
    OfHas(trace, g, AbortSent(g));
    OfHas(trace, g, CommitSent(g));
    OfHas(trace, g, Prepared(g, s, k, t));
    assert Ready(g, s, k, t)[1] == Received(READY, g);
    LastSample(trace, g, READY, t);
    assert SameTopology(trace, g, s, k, READY);
  }

  lemma MayCommitFallback(trace: Trace, g: nat)
    requires Of(trace, g) == FallbackReady(g)
    ensures Legal(trace, CommitSent(g))
  {
    OfHas(trace, g, Received(READY, g));
    OfHas(trace, g, AbortSent(g));
    OfHas(trace, g, CommitSent(g));
    OfHas(trace, g, FallbackSent(g));
    assert FallbackReady(g)[0] == FallbackSent(g) && FallbackReady(g)[1] == Received(READY, g);
  }

  lemma MayStore(trace: Trace, g: nat, s: SceneId, k: nat, t: Topology)
    requires g > 0 && Of(trace, g) == Confirmed(g, s, k, t)
    requires IsRun(trace) && InHand(trace, k)
    ensures Legal(trace, Stored(g, s, k))
  {
    InHandMeans(trace, k);
    var history := Confirmed(g, s, k, t);
    assert history[0] == Prepared(g, s, k, t) && history[3] == CommitSent(g)
      && history[..5][4] == Received(COMMITTED, g);
    OfHas(trace, g, Prepared(g, s, k, t));
    OfHas(trace, g, CommitSent(g));
    LastSample(trace, g, COMMITTED, t);
    assert SameTopology(trace, g, s, k, COMMITTED);
  }

  class BackgroundSceneController {
    var schedule: seq<seq<OutsideStep>>
    var oracle: seq<bool>
    var pending: Option<Attempt>
    var jobs: map<string, Job>
    var order: seq<string>
    var generation: nat
    var phase: string
    var error: string
    var active: Option<SceneId>
    var desired: Option<SceneId>
    var topology: Option<Topology>
    var degraded: Option<Topology>
    var stopping: bool
    var failures: nat
    var nextTicket: nat
    var alive: bool
    var events: seq<Note>
    var saved: Option<Saved>
    var scenes: set<SceneId>
    var monitors: Monitors
    ghost var trace: Trace
    ghost var own: bool  // the worker itself may have queued what is pending
    ghost var current: Option<nat>  // the attempt in the worker's hands
    ghost const known: set<SceneId>

    ghost predicate Valid()
      reads this
    {
      && Within(trace, generation, nextTicket) && EventsOk(trace, events) && Shows(trace, monitors.key)
      && (pending.Some? ==> Waiting(trace, pending.value.ticket, pending.value.job.Some?, own))
      && (current.Some? ==> InHand(trace, current.value))
      && (active.Some? ==> Known(trace, known, active.value))
      && (saved.Some? ==> Known(trace, known, saved.value.scene))
    }

    constructor (schedule: seq<seq<OutsideStep>>, oracle: seq<bool>, scenes: set<SceneId>, saved: Option<Saved>,
                 monitors: Monitors)
      ensures Valid() && trace == [MonitorsAre(monitors.key)] && failures == 0 && pending == None && current == None
      ensures !stopping && degraded == None
      ensures this.saved == saved && active == None
      ensures known == if saved.Some? then {saved.value.scene} else {}
    {
      this.schedule, this.oracle, this.scenes, this.saved, this.monitors := schedule, oracle, scenes, saved, monitors;
      pending, jobs, order := None, map[], [];
      generation, phase, error := 0, "idle", "";
      active, desired, topology, degraded := None, None, None, None;
      stopping, failures, nextTicket, alive, events := false, 0, 0, false, [];
      FirstTrace(monitors.key);
      trace, own, current := [MonitorsAre(monitors.key)], false, None;
      known := if saved.Some? then {saved.value.scene} else {};
    }

    ghost method Log(e: Event)
      requires Valid() && Legal(trace, e) && !e.MonitorsAre?
      requires Gen(e) <= generation && (TicketOf(e).Some? ==> TicketOf(e).value < nextTicket)
      requires pending.Some? ==> TicketOf(e) != Some(pending.value.ticket)
      requires current.Some? ==> e != Superseded(current.value)
      modifies this`trace
      ensures Valid() && trace == old(trace) + [e]
      ensures IsOutside(e) ==> GrowsOutside(old(trace), trace)
      ensures IsNeutral(e) ==> GrowsNeutral(old(trace), trace)
    {
      ExtendWithin(trace, e, generation, nextTicket);
      ExtendShows(trace, e, monitors.key);
      if pending.Some? { ExtendWaiting(trace, e, pending.value.ticket, pending.value.job.Some?, own); }
      if current.Some? { ExtendInHand(trace, e, current.value); }
      if active.Some? { ExtendKnown(trace, e, known, active.value); }
      if saved.Some? { ExtendKnown(trace, e, known, saved.value.scene); }
      EventsStayOk(trace, e, events);
      trace := trace + [e];
    }

    // The attempt in hand is not the one that waits.
    lemma InHandIsNotWaiting()
      requires Valid() && current.Some?
      ensures IsRun(trace) && Taken(current.value) in trace && Superseded(current.value) !in trace
      ensures current.value < nextTicket
      ensures pending.Some? ==> pending.value.ticket != current.value
    {
      WithinIsRun(trace, generation, nextTicket);
      InHandMeans(trace, current.value);
      WithinBounds(trace, generation, nextTicket, Taken(current.value));
      if pending.Some? {
        WaitingMeans(trace, pending.value.ticket, pending.value.job.Some?, own, Taken(current.value));
      }
    }

    // ----- the user interface --------------------------------------------------------------

    // The oldest jobs beyond the bound are forgotten, and no other.
    method EvictOldJobs()
      modifies this`jobs, this`order
      ensures |order| == if |old(order)| > MAX_JOBS then MAX_JOBS else |old(order)|
      ensures KeepsNewest(old(order), order, old(jobs), jobs)
      ensures |old(order)| <= MAX_JOBS ==> order == old(order) && jobs == old(jobs)
    {
      while |order| > MAX_JOBS
        invariant |order| <= |old(order)| && (|old(order)| > MAX_JOBS ==> |order| >= MAX_JOBS)
        invariant |old(order)| <= MAX_JOBS ==> order == old(order) && jobs == old(jobs)
        invariant KeepsNewest(old(order), order, old(jobs), jobs)
      {
        ghost var k := |old(order)| - |order|;
        assert old(order)[..k + 1] == old(order)[..k] + [order[0]];
        jobs := jobs - {order[0]};
        order := order[1..];
      }
    }

    // Puts an attempt in the place of whatever was waiting.
    method Submit(job: Option<string>, scene: Option<SceneId>)
      requires Valid() && (job.Some? ==> scene.Some?)
      modifies this`pending, this`own, this`nextTicket, this`trace
      ensures Valid() && GrowsOutside(old(trace), trace) && !own
      ensures pending == Some(Attempt(job, scene, old(nextTicket))) && nextTicket == old(nextTicket) + 1
      ensures (if job.Some? then Requested(old(nextTicket)) else Restored(old(nextTicket))) in trace
    {
      var k := nextTicket;
      FreshTicket(trace, generation, k, k);
      NoTicketHasNo(trace, k, Superseded(k));
      Widen(trace, generation, k, generation, k + 1);
      nextTicket := k + 1;
      pending := None;
      Log(if job.Some? then Requested(k) else Restored(k));
      ExtendWaiting(old(trace), if job.Some? then Requested(k) else Restored(k), k, job.Some?, false);
      pending, own := Some(Attempt(job, scene, k)), false;
    }

    // Takes back what is waiting.
    method Withdraw()
      requires Valid()
      modifies this`pending, this`jobs, this`trace
      ensures Valid() && GrowsOutside(old(trace), trace) && pending == None
      ensures old(pending).Some? ==> Superseded(old(pending).value.ticket) in trace
      ensures jobs == WithPhase(old(jobs), if old(pending).Some? then old(pending).value.job else None, "superseded")
    {
      if pending.Some? {
        var replaced := pending.value;
        MaySupersede(replaced.ticket);
        jobs := WithPhase(jobs, replaced.job, "superseded");
        pending := None;
        Log(Superseded(replaced.ticket));
      }
    }

    lemma MaySupersede(k: nat)
      requires Valid() && pending.Some? && k == pending.value.ticket
      ensures Legal(trace, Superseded(k)) && k < nextTicket && current != Some(k)
    {
      WaitingMeans(trace, k, pending.value.job.Some?, own, Superseded(k));
      forall g, s ensures Stored(g, s, k) !in trace {
        WaitingMeans(trace, k, pending.value.job.Some?, own, Stored(g, s, k));
      }
      var e :| e in trace && TicketOf(e) == Some(k);
      WithinBounds(trace, generation, nextTicket, e);
      if current == Some(k) { InHandIsNotWaiting(); }
    }

    // A new request takes the place of the one that is waiting.
    method Enqueue(scene: SceneId, requestId: string)
      requires Valid()
      modifies this`pending, this`own, this`jobs, this`order, this`nextTicket, this`trace
      ensures Valid() && GrowsOutside(old(trace), trace) && !own
      ensures pending == Some(Attempt(Some(requestId), Some(scene), old(nextTicket)))
      ensures old(pending).Some? ==> Superseded(old(pending).value.ticket) in trace
      ensures jobs == Enqueued(old(jobs), old(pending), scene, requestId) && order == old(order) + [requestId]
    {
      Withdraw();
      ghost var withdrawn := trace;
      jobs := jobs[requestId := Job(scene, "queued")];
      order := order + [requestId];
      Submit(Some(requestId), Some(scene));
      if old(pending).Some? { OutsideKeepsEvents(withdrawn, trace, Superseded(old(pending).value.ticket)); }
      OutsideTransitive(old(trace), withdrawn, trace);
    }

    // A request of the user replaces the one that is waiting; repeating it changes nothing.
    method Request(scene: SceneId, requestId: string) returns (accepted: bool)
      requires Valid()
      modifies this`pending, this`own, this`jobs, this`order, this`desired, this`nextTicket, this`trace
      ensures Valid() && GrowsOutside(old(trace), trace)
      ensures requestId in old(jobs) ==>
        pending == old(pending) && jobs == old(jobs) && trace == old(trace)
        && (accepted <==> old(jobs)[requestId].scene == scene)
      ensures requestId !in old(jobs) ==>
        accepted && desired == Some(scene)
        && pending == Some(Attempt(Some(requestId), Some(scene), old(nextTicket))) && !own
        && (old(pending).Some? ==> Superseded(old(pending).value.ticket) in trace)
        && KeepsNewest(old(order) + [requestId], order, Enqueued(old(jobs), old(pending), scene, requestId), jobs)
      ensures requestId !in old(jobs) && |old(order)| < MAX_JOBS ==>
        jobs == Enqueued(old(jobs), old(pending), scene, requestId)
      ensures !old(own) ==> !own
    {
      if requestId in jobs {
        return jobs[requestId].scene == scene;
      }
      Enqueue(scene, requestId);
      desired := Some(scene);
      EvictOldJobs();
      accepted := true;
    }

    // Starting up again: show the scene that was stored, if it can be read.
    method Restore(readable: bool)
      requires Valid()
      modifies this`pending, this`own, this`active, this`nextTicket, this`trace
      ensures Valid() && GrowsOutside(old(trace), trace)
      ensures old(active).Some? ==> active.Some?
      ensures pending == if !readable then Some(Attempt(None, None, old(nextTicket)))
                         else if saved.Some? then Some(Attempt(None, Some(saved.value.scene), old(nextTicket)))
                         else old(pending)
      ensures active == if readable && saved.Some? then Some(saved.value.scene) else old(active)
      ensures !old(own) ==> !own
    {
      if !readable {
        Submit(None, None);
      } else if saved.Some? {
        active := Some(saved.value.scene);
        Submit(None, active);
      }
    }

    // ----- being overtaken ------------------------------------------------------------------

    // What never goes back.
    twostate predicate Onwards()
      reads this
    {
      && (old(stopping) ==> stopping) && (!old(own) ==> !own)
      && (old(pending).Some? ==> pending.Some?) && (old(active).Some? ==> active.Some?)
    }

    // The renderer lives, nobody asks for anything, and the world stands still.
    ghost predicate Calm()
      reads this
    {
      schedule == [] && oracle == [] && alive && !stopping && pending == None
    }

    method Receive(note: Note)
      requires Valid()
      modifies this`trace, this`events
      ensures Valid() && GrowsOutside(old(trace), trace) && Onwards()
      ensures events == old(events) + [note]
    {
      Log(Emitted(note.message, note.generation));
      OneMoreEvent(trace, events, note);
      events := events + [note];
    }

    // The monitors change.
    method ChangeTo(m: Monitors)
      requires Valid()
      modifies this`monitors, this`trace
      ensures Valid() && GrowsOutside(old(trace), trace) && monitors == m
    {
      ghost var e := MonitorsAre(m.key);
      ExtendWithin(trace, e, generation, nextTicket);
      ExtendShows(trace, e, m.key);
      if pending.Some? { ExtendWaiting(trace, e, pending.value.ticket, pending.value.job.Some?, own); }
      if current.Some? { ExtendInHand(trace, e, current.value); }
      if active.Some? { ExtendKnown(trace, e, known, active.value); }
      if saved.Some? { ExtendKnown(trace, e, known, saved.value.scene); }
      EventsStayOk(trace, e, events);
      trace := trace + [e];
      monitors := m;
    }

    method Outside(step: OutsideStep)
      requires Valid()
      modifies this`pending, this`own, this`jobs, this`order, this`active, this`desired, this`nextTicket, this`stopping,
        this`monitors, this`alive, this`events, this`trace
      ensures Valid() && GrowsOutside(old(trace), trace) && Onwards()
    {
      match step
      case UiRequest(requestId, scene) => var _ := Request(scene, requestId);
      case UiRestore(readable) => Restore(readable);
      case UiClose => stopping := true;
      case ChangeMonitors(m) => ChangeTo(m);
      case Emit(note) => Receive(note);
      case Die =>
        alive := false;
        Receive(Note(EXIT, 0, ""));
    }

    method Yield()
      requires Valid()
      modifies this`schedule, this`pending, this`own, this`jobs, this`order, this`active, this`desired, this`nextTicket,
        this`stopping, this`monitors, this`alive, this`events, this`trace
      ensures Valid() && GrowsOutside(old(trace), trace) && Onwards()
      ensures |schedule| <= |old(schedule)|
      ensures old(schedule) == [] ==> unchanged(this)
    {
      if schedule != [] {
        var batch := schedule[0];
        schedule := schedule[1..];
        var i := 0;
        while i < |batch|
          invariant 0 <= i <= |batch|
          invariant Valid() && GrowsOutside(old(trace), trace) && Onwards()
          invariant |schedule| <= |old(schedule)|
        {
          ghost var before := trace;
          Outside(batch[i]);
          OutsideTransitive(old(trace), before, trace);
          i := i + 1;
        }
      }
    }

    // Whether the next thing that may fail goes well; in the end all does.
    method Choose() returns (b: bool)
      modifies this`oracle
      ensures |oracle| <= |old(oracle)| && (old(oracle) == [] ==> b)
    {
      b := true;
      if oracle != [] {
        b := oracle[0];
        oracle := oracle[1..];
      }
    }

    // ----- talking to the renderer ------------------------------------------------------------

    // The worker can be overtaken here.
    method Pause(ghost g: nat)
      requires Valid() && g > 0
      modifies this`schedule, this`pending, this`own, this`jobs, this`order, this`active, this`desired, this`nextTicket,
        this`stopping, this`monitors, this`alive, this`events, this`trace
      ensures Valid() && Onwards() && GrowsNeutral(old(trace), trace)
      ensures Of(trace, g) == Of(old(trace), g)
      ensures old(schedule) == [] ==> unchanged(this)
    {
      Yield();
      OutsideIsNeutral(old(trace), trace);
      OutsideKeepsOf(old(trace), trace, g);
    }

    method SetPhase(phase: string, error: string, job: Option<string>)
      modifies this`phase, this`error, this`jobs
      ensures this.phase == phase && this.error == error && jobs == WithPhase(old(jobs), job, phase)
    {
      this.phase, this.error := phase, error;
      jobs := WithPhase(jobs, job, phase);
    }

    method Close()
      modifies this`alive
      ensures !alive
    {
      alive := false;
    }

    // A new renderer starts with no events of the old one.
    method NewRenderer()
      requires Valid()
      modifies this`alive, this`events
      ensures Valid() && alive && events == []
    {
      events := [];
      alive := true;
    }

    method Launch() returns (failure: Option<string>)
      requires Valid()
      modifies this`schedule, this`oracle, this`pending, this`own, this`jobs, this`order, this`active,
        this`desired, this`nextTicket,
        this`stopping, this`monitors, this`alive, this`events, this`trace
      ensures Valid() && Onwards() && GrowsNeutral(old(trace), trace)
      ensures failure != Some("superseded")
    {
      hide Within, EventsOk, Shows, Waiting, InHand, Known, GrowsNeutral, Of;
      NewRenderer();
      Pause(1);
      failure := None;
      var ok := Choose();
      if !ok {
        failure := Some("renderer_protocol");
        Close();
      }
    }

    method Start() returns (failure: Option<string>)
      requires Valid()
      modifies this`schedule, this`oracle, this`pending, this`own, this`jobs, this`order, this`active,
        this`desired, this`nextTicket,
        this`stopping, this`monitors, this`alive, this`events, this`trace
      ensures Valid() && Onwards() && GrowsNeutral(old(trace), trace)
      ensures failure != Some("superseded")
      ensures old(alive) ==> failure.None? && unchanged(this)
    {
      failure := None;
      if alive {
        NothingGrows(trace);
      } else {
        failure := Launch();
      }
    }

    method Send(command: Event) returns (failure: Option<string>)
      requires command.Prepared? || command.FallbackSent? || command.CommitSent? || command.AbortSent?
      requires Valid() && Legal(trace, command) && Gen(command) <= generation
      requires command.Prepared? ==> current == Some(command.ticket)
      modifies this`trace, this`oracle
      ensures Valid() && GrowsNeutral(old(trace), trace)
      ensures trace == old(trace) || trace == old(trace) + [command]
      ensures failure.None? ==> trace == old(trace) + [command]
      ensures failure.None? ==> Of(trace, Gen(command)) == Of(old(trace), Gen(command)) + [command]
      ensures failure != Some("superseded")
      ensures alive && old(oracle) == [] ==> failure.None? && oracle == []
      ensures alive ==> trace == old(trace) + [command]
    {
      if !alive {
        return Some("renderer_exited");
      }
      ExtendOf(trace, command, Gen(command));
      if current.Some? { InHandIsNotWaiting(); }
      Log(command);
      var written := Choose();
      failure := if written then None else Some("BrokenPipeError");
    }

    // Looks at the next event: only one of generation g can be what is awaited or a failure.
    method Listen(message: Message, g: nat) returns (heard: Hearing)
      requires Valid() && 0 < g <= generation
      modifies this`events, this`trace
      ensures Valid() && Onwards() && (trace == old(trace) || trace == old(trace) + [Received(message, g)])
      ensures heard.Awaited? <==> trace == old(trace) + [Received(message, g)]
      ensures GrowsNeutral(old(trace), trace)
      ensures Of(trace, g) == Of(old(trace), g) + (if heard.Awaited? then [Received(message, g)] else [])
      ensures heard == HeardIn(old(events), message, g) && events == Later(old(events))
    {
      heard := HeardIn(events, message, g);
      if heard.Awaited? {
        ExtendOf(trace, Received(message, g), g);
        Log(Received(message, g));
      }
      events := Later(events);
    }

    // One round of waiting: unless cancelled, let the others go on and look at the next event.
    method Hear(message: Message, g: nat, mode: CancelMode) returns (heard: Hearing)
      requires Valid() && 0 < g <= generation
      modifies this`schedule, this`pending, this`own, this`jobs, this`order, this`active, this`desired, this`nextTicket,
        this`stopping, this`monitors, this`alive, this`events, this`trace
      ensures Valid() && Onwards() && GrowsNeutral(old(trace), trace)
      ensures Of(trace, g) == Of(old(trace), g) + (if heard.Awaited? then [Received(message, g)] else [])
      ensures old(Calm()) ==>
        Calm() && monitors == old(monitors) && heard == HeardIn(old(events), message, g) && events == Later(old(events))
    {
      if stopping || (mode == OnStopOrRequest && pending.Some?) {
        return Broken("superseded");
      }
      Pause(g);
      ghost var paused := trace;
      heard := Listen(message, g);
      NeutralTransitive(old(trace), paused, trace);
    }

    // Takes events until the awaited one of this generation arrives, for as long as time allows.
    method Wait(message: Message, g: nat, mode: CancelMode) returns (failure: Option<string>)
      requires Valid() && 0 < g <= generation
      modifies this`oracle, this`schedule, this`pending, this`own, this`jobs, this`order, this`active,
        this`desired, this`nextTicket,
        this`stopping, this`monitors, this`alive, this`events, this`trace
      ensures Valid() && Onwards() && GrowsNeutral(old(trace), trace)
      ensures Of(trace, g) == Of(old(trace), g) + (if failure.None? then [Received(message, g)] else [])
      ensures old(Calm()) && HeardIn(old(events), message, g) == Awaited ==>
        failure.None? && Calm() && monitors == old(monitors) && events == Later(old(events))
    {
      hide Within, EventsOk, Shows, Waiting, InHand, Known;
      var heard := Nothing;
      for round := 0 to |oracle| + 1
        invariant old(Calm()) && HeardIn(old(events), message, g) == Awaited ==>
          && Calm() && monitors == old(monitors)
          && (if round == 0 then heard == Nothing && events == old(events)
              else heard == Awaited && events == Later(old(events)))
        invariant Valid() && Onwards() && GrowsNeutral(old(trace), trace)
        invariant Of(trace, g) == Of(old(trace), g) + (if heard.Awaited? then [Received(message, g)] else [])
      {
        var timeLeft := Choose();
        if !timeLeft || heard != Nothing {
          break;
        }
        ghost var before := trace;
        heard := Hear(message, g, mode);
        NeutralTransitive(old(trace), before, trace);
      }
      failure := match heard
        case Awaited => None
        case Broken(category) => Some(category)
        case Nothing => Some("renderer_timeout");
    }

    // ----- one attempt -------------------------------------------------------------------------

    // The stored snapshot for a recovery, otherwise the scene of that name.
    method FindScene(a: Attempt) returns (scene: Option<SceneId>)
      requires a.scene.Some?
      modifies this`oracle
      ensures a.job.Some? ==> scene == if a.scene.value in scenes then a.scene else None
      ensures scene.Some? ==> scene == a.scene || (a.job.None? && saved.Some? && scene.value == saved.value.scene)
      ensures a.scene.value in scenes ==> scene.Some?
      ensures old(oracle) == [] ==> oracle == []
    {
      var hasSnapshot := Choose();
      if a.job.None? && saved.Some? && hasSnapshot {
        scene := Some(saved.value.scene);
      } else {
        scene := if a.scene.value in scenes then a.scene else None;
      }
    }

    // Reads the topology again.
    method Sample(g: nat, expected: Topology) returns (same: bool)
      requires Valid() && 0 < g <= generation
      modifies this`schedule, this`pending, this`own, this`jobs, this`order, this`active, this`desired, this`nextTicket,
        this`stopping, this`monitors, this`alive, this`events, this`trace
      ensures Valid() && Onwards() && GrowsNeutral(old(trace), trace)
      ensures same <==> monitors.key == expected
      ensures same ==> Of(trace, g) == Of(old(trace), g) + [Sampled(g, expected)]
      ensures old(Calm()) ==> Calm() && monitors == old(monitors) && events == old(events)
      ensures Of(trace, g) == Of(old(trace), g) + [Sampled(g, monitors.key)]
    {
      Pause(g);
      ghost var paused := trace;
      ExtendOf(trace, Sampled(g, monitors.key), g);
      Log(Sampled(g, monitors.key));
      NeutralTransitive(old(trace), paused, trace);
      same := monitors.key == expected;
    }

    // Takes the preparation back, once.
    method Abort(g: nat)
      requires Valid() && 0 < g <= generation
      requires forall e :: e in Of(trace, g) ==> e.Prepared? || e.Received? || e.Sampled?
      modifies this`trace, this`oracle
      ensures Valid() && GrowsNeutral(old(trace), trace)
      ensures AbortSent(g) in trace || !alive
    {
      OfHas(trace, g, CommitSent(g));
      OfHas(trace, g, AbortSent(g));
      OfHas(trace, g, FallbackSent(g));
      var _ := Send(AbortSent(g));
    }

    // Waits for a phase to finish and reads the topology again.
    method Settle(message: Message, g: nat, mode: CancelMode, t: Topology) returns (failure: Option<string>)
      requires Valid() && 0 < g <= generation
      modifies this`oracle, this`schedule, this`pending, this`own, this`jobs, this`order, this`active,
        this`desired, this`nextTicket,
        this`stopping, this`monitors, this`alive, this`events, this`trace
      ensures Valid() && Onwards() && GrowsNeutral(old(trace), trace)
      ensures failure.None? ==> Of(trace, g) == Of(old(trace), g) + [Received(message, g), Sampled(g, t)]
      ensures forall e :: e in Of(trace, g) ==> e in Of(old(trace), g) || e.Received? || e.Sampled?
      ensures old(Calm()) && HeardIn(old(events), message, g) == Awaited && old(monitors).key == t ==>
        failure.None? && Calm() && monitors == old(monitors) && events == Later(old(events))
    {
      failure := Wait(message, g, mode);
      if failure.None? {
        ghost var waited := trace;
        var same := Sample(g, t);
        NeutralTransitive(old(trace), waited, trace);
        failure := if same then None else Some("topology_changed");
      }
    }

    // The next generation, higher than all before it.
    method Advance()
      requires Valid()
      modifies this`generation
      ensures Valid() && generation == old(generation) + 1 && Of(trace, generation) == [] && Above(generation, trace)
    {
      FreshGeneration(trace, generation, nextTicket);
      Widen(trace, generation, nextTicket, generation + 1, nextTicket);
      generation := generation + 1;
    }

    method SendPrepare(a: Attempt, s: SceneId, t: Topology) returns (failure: Option<string>)
      requires Valid() && current == Some(a.ticket) && Of(trace, generation) == [] && Above(generation, trace)
      modifies this`oracle, this`trace
      ensures Valid() && GrowsNeutral(old(trace), trace)
      ensures failure.None? ==> Of(trace, generation) == [Prepared(generation, s, a.ticket, t)]
      ensures alive && old(oracle) == [] ==> failure.None? && oracle == []
    {
      InHandIsNotWaiting();
      failure := Send(Prepared(generation, s, a.ticket, t));
    }

    // Announces it.
    method Announce(a: Attempt, s: SceneId, t: Topology) returns (failure: Option<string>)
      requires Valid() && current == Some(a.ticket)
      modifies this`oracle, this`generation, this`phase, this`error, this`jobs, this`trace
      ensures Valid() && GrowsNeutral(old(trace), trace)
      ensures generation == old(generation) + 1
      ensures failure.None? ==> Of(trace, generation) == [Prepared(generation, s, a.ticket, t)]
      ensures old(Calm()) ==> failure.None? && Calm()
    {
      hide Within, EventsOk, Shows, Waiting, InHand, Known;
      Advance();
      SetPhase("preparing", "", a.job);
      failure := SendPrepare(a, s, t);
    }

    // An announced generation becomes ready with the topology unchanged, or is aborted while its renderer lives.
    method AwaitReady(a: Attempt, s: SceneId, t: Topology) returns (failure: Option<string>)
      requires Valid() && generation > 0 && Of(trace, generation) == [Prepared(generation, s, a.ticket, t)]
      modifies this`oracle, this`schedule, this`pending, this`own, this`jobs, this`order, this`active,
        this`desired, this`nextTicket,
        this`stopping, this`monitors, this`alive, this`events, this`trace
      ensures Valid() && Onwards() && GrowsNeutral(old(trace), trace)
      ensures failure.None? ==> Of(trace, generation) == Ready(generation, s, a.ticket, t)
      ensures failure.Some? ==> AbortSent(generation) in trace || !alive
      ensures old(Calm()) && HeardIn(old(events), READY, generation) == Awaited && old(monitors).key == t ==>
        failure.None? && Calm() && monitors == old(monitors) && events == Later(old(events))
    {
      failure := Settle(READY, generation, OnStopOrRequest, t);
      if failure.Some? {
        ghost var broken := trace;
        Abort(generation);
        NeutralTransitive(old(trace), broken, trace);
      }
    }

    // The first phase: announce, and await.
    method Prepare(a: Attempt, s: SceneId, t: Topology) returns (failure: Option<string>)
      requires Valid() && current == Some(a.ticket)
      modifies this`oracle, this`generation, this`phase, this`error, this`schedule, this`pending, this`own,
        this`jobs, this`order, this`active, this`desired, this`nextTicket,
        this`stopping, this`monitors, this`alive, this`events, this`trace
      ensures Valid() && Onwards() && GrowsNeutral(old(trace), trace)
      ensures generation == old(generation) + 1
      ensures failure.None? ==> Of(trace, generation) == Ready(generation, s, a.ticket, t)
      ensures old(Calm()) && HeardIn(old(events), READY, generation) == Awaited && old(monitors).key == t ==>
        failure.None? && Calm() && monitors == old(monitors) && events == Later(old(events))
    {
      failure := Announce(a, s, t);
      if failure.None? {
        ghost var sent := trace;
        failure := AwaitReady(a, s, t);
        NeutralTransitive(old(trace), sent, trace);
      }
    }

    // Asks for the commit of a generation that is ready.
    method SendCommit(a: Attempt, s: SceneId, t: Topology) returns (failure: Option<string>)
      requires Valid() && generation > 0 && Of(trace, generation) == Ready(generation, s, a.ticket, t)
      modifies this`oracle, this`schedule, this`pending, this`own, this`jobs, this`order, this`active,
        this`desired, this`nextTicket,
        this`stopping, this`monitors, this`alive, this`events, this`trace
      ensures Valid() && Onwards() && GrowsNeutral(old(trace), trace)
      ensures failure.None? ==> Of(trace, generation) == Ready(generation, s, a.ticket, t) + [CommitSent(generation)]
      ensures old(Calm()) ==> failure.None? && Calm() && monitors == old(monitors) && events == old(events)
    {
      Pause(generation);
      ghost var paused := trace;
      MayCommit(trace, generation, s, a.ticket, t);
      failure := Send(CommitSent(generation));
      NeutralTransitive(old(trace), paused, trace);
    }

    // The second phase: only a ready generation is committed, and the renderer has to confirm it.
    method Confirm(a: Attempt, s: SceneId, t: Topology) returns (failure: Option<string>)
      requires Valid() && generation > 0 && Of(trace, generation) == Ready(generation, s, a.ticket, t)
      modifies this`oracle, this`phase, this`error, this`schedule, this`pending, this`own, this`jobs,
        this`order, this`active, this`desired, this`nextTicket,
        this`stopping, this`monitors, this`alive, this`events, this`trace
      ensures Valid() && Onwards() && GrowsNeutral(old(trace), trace)
      ensures failure.None? ==> Of(trace, generation) == Confirmed(generation, s, a.ticket, t)
      ensures old(Calm()) && HeardIn(old(events), COMMITTED, generation) == Awaited && old(monitors).key == t ==>
        failure.None? && Calm()
    {
      hide Within, EventsOk, Shows, Waiting, InHand, Known, Of, GrowsNeutral;
      SetPhase("transitioning", "", a.job);
      failure := SendCommit(a, s, t);
      if failure.None? {
        ghost var sent := trace;
        failure := Settle(COMMITTED, generation, OnStop, t);
        NeutralTransitive(old(trace), sent, trace);
      }
    }

    // The file with the scene and its generation is replaced.
    method ReplaceSaved(a: Attempt, s: SceneId, t: Topology)
      requires Valid() && generation > 0 && current == Some(a.ticket)
      requires Of(trace, generation) == Confirmed(generation, s, a.ticket, t)
      modifies this`saved, this`trace
      ensures Valid() && trace == old(trace) + [Stored(generation, s, a.ticket)]
      ensures saved == Some(Saved(s, generation)) && Known(trace, known, s)
    {
      InHandIsNotWaiting();
      MayStore(trace, generation, s, a.ticket, t);
      ExtendKnown(trace, Stored(generation, s, a.ticket), known, s);
      saved := None;
      Log(Stored(generation, s, a.ticket));
      saved := Some(Saved(s, generation));
    }

    // An error may strike before or after the file was replaced.
    method Save(a: Attempt, s: SceneId, t: Topology) returns (failure: Option<string>)
      requires Valid() && generation > 0 && current == Some(a.ticket)
      requires Of(trace, generation) == Confirmed(generation, s, a.ticket, t)
      modifies this`saved, this`trace, this`oracle
      ensures Valid() && failure != Some("superseded")
      ensures (trace == old(trace) && failure.Some?) || trace == old(trace) + [Stored(generation, s, a.ticket)]
      ensures failure.None? ==> saved == Some(Saved(s, generation)) && Known(trace, known, s)
      ensures old(oracle) == [] ==> failure.None?
    {
      hide Within, EventsOk, Shows, Waiting, InHand, Known, Of, GrowsNeutral, Confirmed, Legal;
      failure := Some("OSError");
      var written := Choose();
      if written {
        ReplaceSaved(a, s, t);
        var durable := Choose();
        if durable {
          failure := None;
        }
      }
    }

    // What follows a commit can fail, but no longer undo it.
    method AfterCommit(job: Option<string>)
      modifies this`phase, this`error, this`jobs, this`oracle
      ensures phase == "committed"
    {
      SetPhase("committed", "", job);
      var retired := Choose();
      if !retired {
        SetPhase("committed", "external_provider_retirement_failed", job);
      }
      var painted := Choose();
      if !painted {
        SetPhase("committed", "palette_failed", job);
      }
    }

    method Activate(s: SceneId, t: Topology, job: Option<string>)
      requires Valid() && Known(trace, known, s)
      modifies this`active, this`topology, this`degraded, this`phase, this`error, this`jobs, this`oracle
      ensures Valid() && active == Some(s) && topology == Some(t) && degraded == None && phase == "committed"
    {
      active, topology, degraded := Some(s), Some(t), None;
      AfterCommit(job);
    }

    // The scene that was saved becomes the active one.
    method Finish(a: Attempt, s: SceneId, t: Topology) returns (failure: Option<string>)
      requires Valid() && generation > 0 && current == Some(a.ticket)
      requires Of(trace, generation) == Confirmed(generation, s, a.ticket, t)
      modifies this`saved, this`trace, this`oracle, this`active, this`topology, this`degraded, this`phase,
        this`error, this`jobs
      ensures Valid() && failure != Some("superseded")
      ensures (trace == old(trace) && failure.Some?) || trace == old(trace) + [Stored(generation, s, a.ticket)]
      ensures failure.None? ==> saved == Some(Saved(s, generation)) && active == Some(s) && topology == Some(t)
      ensures failure.Some? ==> active == old(active)
      ensures degraded == if failure.None? then None else old(degraded)
      ensures old(oracle) == [] ==> failure.None?
    {
      failure := Save(a, s, t);
      if failure.None? {
        Activate(s, t, a.job);
      }
    }

    // Both phases of the next generation.
    method TwoPhases(a: Attempt, s: SceneId, t: Topology) returns (failure: Option<string>)
      requires Valid() && current == Some(a.ticket)
      modifies this`oracle, this`generation, this`phase, this`error, this`schedule, this`pending, this`own,
        this`jobs, this`order, this`active, this`desired, this`nextTicket,
        this`stopping, this`monitors, this`alive, this`events, this`trace
      ensures Valid() && Onwards() && GrowsNeutral(old(trace), trace)
      ensures failure.None? ==> generation > 0 && Of(trace, generation) == Confirmed(generation, s, a.ticket, t)
      ensures old(Calm()) && Answers(old(events), old(generation) + 1) && old(monitors).key == t ==>
        failure.None? && Calm()
    {
      failure := Start();
      if failure.None? {
        ghost var started := trace;
        failure := Prepare(a, s, t);
        NeutralTransitive(old(trace), started, trace);
      }
      if failure.None? {
        ghost var prepared := trace;
        failure := Confirm(a, s, t);
        NeutralTransitive(old(trace), prepared, trace);
      }
    }

    // Both phases, then the scene is saved and becomes the active one.
    method ApplyScene(a: Attempt, s: SceneId, t: Topology) returns (failure: Option<string>)
      requires Valid() && current == Some(a.ticket)
      modifies this`oracle, this`generation, this`phase, this`error, this`topology, this`degraded, this`saved,
        this`schedule, this`pending, this`own, this`jobs, this`order, this`active, this`desired, this`nextTicket,
        this`stopping, this`monitors, this`alive, this`events, this`trace
      ensures Valid() && Onwards() && GrowsApplied(old(trace), trace)
      ensures degraded == if failure.None? then None else old(degraded)
      ensures failure == Some("superseded") ==> GrowsNeutral(old(trace), trace)
      ensures failure.None? ==>
        && active == Some(s) && topology == Some(t) && saved == Some(Saved(s, generation))
        && trace != [] && trace[|trace| - 1] == Stored(generation, s, a.ticket)
      ensures old(Calm()) && Answers(old(events), old(generation) + 1) && old(monitors).key == t ==> failure.None?
    {
      hide Valid, Of, GrowsNeutral;
      failure := TwoPhases(a, s, t);
      if failure.None? {
        ghost var confirmed := trace;
        failure := Finish(a, s, t);
        assert trace == confirmed || trace[..|trace| - 1] == confirmed;
      }
    }

    // One attempt to show a scene that is known, on monitors that can show it.
    method Apply(a: Attempt) returns (failure: Option<string>)
      requires Valid() && current == Some(a.ticket) && a.scene.Some?
      modifies this`oracle, this`generation, this`phase, this`error, this`topology, this`degraded, this`saved,
        this`schedule, this`pending, this`own, this`jobs, this`order, this`active, this`desired, this`nextTicket,
        this`stopping, this`monitors, this`alive, this`events, this`trace
      ensures Valid() && Onwards() && GrowsApplied(old(trace), trace)
      ensures degraded == if failure.None? then None else old(degraded)
      ensures failure == Some("superseded") ==> GrowsNeutral(old(trace), trace)
      ensures failure.None? ==>
        && active.Some? && (a.job.Some? ==> active == a.scene)
        && saved == Some(Saved(active.value, generation))
        && trace != [] && trace[|trace| - 1] == Stored(generation, active.value, a.ticket)
      ensures old(Calm()) && Answers(old(events), old(generation) + 1) && old(monitors).supported
              && a.scene.value in scenes ==>
        failure.None?
    {
      hide Within, EventsOk, Shows, Waiting, InHand, Known;
      var scene := FindScene(a);
      var seen := monitors;
      var usable := Choose();
      if scene.None? {
        failure := Some("scene_missing");
      } else if !seen.supported {
        failure := Some("unsupported_topology");
      } else if !usable {
        failure := Some("source_changed");
      } else {
        failure := ApplyScene(a, scene.value, seen.key);
      }
    }

    // ----- failures ----------------------------------------------------------------------------

    // What holds between two rounds of the worker.
    ghost predicate AtRest()
      reads this
    {
      && Streak(trace) <= failures && (Streak(trace) < 3 || stopping)
      && (!Open(trace) ==> failures >= MAX_FAILURES && !own)
      && Remembers()
    }

    // The topology of the last fallback is the one that is remembered.
    ghost predicate Remembers()
      reads this
    {
      degraded.Some? ==> DegradedAt(trace) == degraded
    }

    ghost method LogOther(e: Event)
      requires Valid() && Legal(trace, e) && (e.FallbackTried? || e.Degraded? || e.TopologyMoved? || e.Failed?)
      modifies this`trace
      ensures Valid() && trace == old(trace) + [e]
      ensures Open(trace) == (if e.Degraded? then false else if e.TopologyMoved? then true else Open(old(trace)))
      ensures StageOf(trace) == if e.FallbackTried? then Idle else if e.Failed? then Lost else StageOf(old(trace))
      ensures DegradedAt(trace) == if e.Degraded? then Some(e.topology) else DegradedAt(old(trace))
      ensures Streak(trace) ==
        (if e.Degraded? || (e.Failed? && !e.active) then Streak(old(trace))
         else if e.Failed? then Streak(old(trace)) + 1 else 0)
    {
      Log(e);
      assert trace[..|trace| - 1] == old(trace);
    }

    // The attempt in hand was stored.
    ghost method LogSuccess(a: Attempt)
      requires Valid() && StageOf(trace) == Trying(a.ticket) && current == None
      requires trace != [] && trace[|trace| - 1].Stored? && trace[|trace| - 1].ticket == a.ticket
        && a.ticket < nextTicket
      requires pending.Some? ==> pending.value.ticket != a.ticket
      modifies this`trace
      ensures Valid() && Open(trace) == Open(old(trace)) && Streak(trace) == 0 && DegradedAt(trace) == None
      ensures old(trace) <= trace
    {
      var last := trace[|trace| - 1];
      assert Stored(last.generation, last.scene, a.ticket) in trace;
      Log(Succeeded(a.ticket));
      assert trace[..|trace| - 1] == old(trace);
    }

    // An opaque surface of the worker's own; it is never stored.
    method ShowFallback() returns (failure: Option<string>)
      requires Valid()
      modifies this`oracle, this`generation, this`schedule, this`pending, this`own, this`jobs, this`order,
        this`active, this`desired, this`nextTicket,
        this`stopping, this`monitors, this`alive, this`events, this`trace
      ensures Valid() && Onwards() && GrowsNeutral(old(trace), trace)
      ensures failure.None? ==> Of(trace, generation) == FallbackShown(generation)
      ensures old(Calm()) && Answers(old(events), old(generation) + 1) ==> failure.None?
    {
      failure := Start();
      if failure.None? {
        ghost var started := trace;
        Advance();
        failure := PrepareFallback();
        NeutralTransitive(old(trace), started, trace);
      }
      if failure.None? {
        ghost var ready := trace;
        failure := CommitFallback();
        NeutralTransitive(old(trace), ready, trace);
      }
    }

    method PrepareFallback() returns (failure: Option<string>)
      requires Valid() && generation > 0 && Of(trace, generation) == [] && Above(generation, trace)
      modifies this`oracle, this`schedule, this`pending, this`own, this`jobs, this`order, this`active,
        this`desired, this`nextTicket,
        this`stopping, this`monitors, this`alive, this`events, this`trace
      ensures Valid() && Onwards() && GrowsNeutral(old(trace), trace)
      ensures failure.None? ==> Of(trace, generation) == FallbackReady(generation)
      ensures old(Calm()) && HeardIn(old(events), READY, generation) == Awaited ==>
        failure.None? && Calm() && events == Later(old(events))
    {
      hide Valid, Of, GrowsNeutral, GrowsOutside, HeardIn, Later;
      failure := Send(FallbackSent(generation));
      if failure.None? {
        ghost var sent := trace;
        failure := Wait(READY, generation, OnStop);
        NeutralTransitive(old(trace), sent, trace);
      }
    }

    method SendFallbackCommit() returns (failure: Option<string>)
      requires Valid() && generation > 0 && Of(trace, generation) == FallbackReady(generation)
      modifies this`oracle, this`trace
      ensures Valid() && GrowsNeutral(old(trace), trace)
      ensures failure.None? ==>
        Of(trace, generation) == FallbackReady(generation) + [CommitSent(generation)]
      ensures alive && old(oracle) == [] ==> failure.None? && oracle == []
    {
      MayCommitFallback(trace, generation);
      failure := Send(CommitSent(generation));
    }

    method CommitFallback() returns (failure: Option<string>)
      requires Valid() && generation > 0 && Of(trace, generation) == FallbackReady(generation)
      modifies this`oracle, this`schedule, this`pending, this`own, this`jobs, this`order, this`active,
        this`desired, this`nextTicket,
        this`stopping, this`monitors, this`alive, this`events, this`trace
      ensures Valid() && Onwards() && GrowsNeutral(old(trace), trace)
      ensures failure.None? ==> Of(trace, generation) == FallbackShown(generation)
      ensures old(Calm()) && HeardIn(old(events), COMMITTED, generation) == Awaited ==> failure.None?
    {
      failure := SendFallbackCommit();
      if failure.None? {
        ghost var committed := trace;
        failure := Wait(COMMITTED, generation, OnStop);
        NeutralTransitive(old(trace), committed, trace);
      }
    }

    // Remembers for which monitors this was tried.
    method RecordTopology()
      requires Valid()
      modifies this`degraded, this`trace
      ensures Valid() && degraded == Some(monitors.key) && Streak(trace) == Streak(old(trace)) && !Open(trace)
      ensures Remembers() && StageOf(trace) == StageOf(old(trace))
      ensures old(trace) <= trace
    {
      degraded := Some(monitors.key);
      LogOther(Degraded(monitors.key));
    }

    method RecordAndShow() returns (shown: bool)
      requires Valid() && Remembers()
      modifies this`oracle, this`generation, this`degraded, this`schedule, this`pending, this`own, this`jobs,
        this`order, this`active, this`desired, this`nextTicket,
        this`stopping, this`monitors, this`alive, this`events, this`trace
      ensures Valid() && Onwards() && Streak(trace) == Streak(old(trace)) && Remembers()
      ensures shown ==> Of(trace, generation) == FallbackShown(generation) && degraded.Some? && !Open(trace)
      ensures old(Calm()) && Answers(old(events), old(generation) + 1) ==> shown
      ensures old(trace) <= trace
    {
      hide Within, EventsOk, Shows, Waiting, InHand, Known, Of, GrowsNeutral;
      shown := Choose();
      if shown {
        RecordTopology();
        ghost var recorded := trace;
        var failure := ShowFallback();
        NeutralKeepsCounts(recorded, trace);
        shown := failure.None?;
      }
    }

    // After this the worker starts nothing of its own accord until the user or the monitors change something.
    method Fallback(cause: string)
      requires Valid() && !own && Remembers() && StageOf(trace) != Idle
      modifies this`oracle, this`generation, this`phase, this`error, this`degraded, this`schedule,
        this`pending, this`own, this`jobs, this`order, this`active, this`desired, this`nextTicket,
        this`stopping, this`monitors, this`alive, this`events, this`trace
      ensures Valid() && Onwards() && Streak(trace) == 0 && phase == "degraded" && Remembers()
      ensures error == cause && cause != "native_recovery_unavailable" ==>
        Of(trace, generation) == FallbackShown(generation) && degraded.Some? && !Open(trace)
      ensures old(Calm()) && Answers(old(events), old(generation) + 1) ==> error == cause
      ensures old(trace) <= trace
    {
      hide Within, EventsOk, Shows, Waiting, InHand, Known, Of, GrowsNeutral, StageOf, DegradedAt, Streak, Open, Legal,
        FallbackShown, Answers, HeardIn;
      LogOther(FallbackTried);
      var shown := RecordAndShow();
      if shown {
        SetPhase("degraded", cause, None);
      } else {
        Close();
        SetPhase("degraded", "native_recovery_unavailable", None);
      }
    }

    // Try the active scene again, unless something newer is waiting.
    method QueueRecovery()
      requires Valid() && active.Some? && Open(trace) && current == None
      modifies this`pending, this`own, this`nextTicket, this`trace
      ensures Valid() && GrowsNeutral(old(trace), trace)
      ensures old(pending).Some? ==> pending == old(pending) && trace == old(trace)
      ensures pending.Some?
    {
      if pending.None? {
        var k := nextTicket;
        MayQueue(k);
        Widen(trace, generation, k, generation, k + 1);
        nextTicket := k + 1;
        Log(AutoQueued(k));
        ExtendWaiting(old(trace), AutoQueued(k), k, false, true);
        pending, own := Some(Attempt(None, active, k)), true;
      }
    }

    lemma MayQueue(k: nat)
      requires Valid() && k == nextTicket && Open(trace)
      ensures Legal(trace, AutoQueued(k)) && NoTicket(trace, k)
    {
      FreshTicket(trace, generation, k, k);
      NoTicketHasNo(trace, k, Requested(k));
      NoTicketHasNo(trace, k, Restored(k));
    }

    method Supersede(a: Attempt)
      requires Valid() && current == Some(a.ticket) && a.ticket !in StoredTickets(trace)
      modifies this`current, this`trace
      ensures Valid() && current == None && GrowsNeutral(old(trace), trace) && Superseded(a.ticket) in trace
    {
      InHandIsNotWaiting();
      forall g, s ensures Stored(g, s, a.ticket) !in trace {
        if Stored(g, s, a.ticket) in trace { StoredTicketsHas(trace, g, s, a.ticket); }
      }
      current := None;
      Log(Superseded(a.ticket));
    }

    method GiveUp(a: Attempt)
      requires Valid() && current == Some(a.ticket) && a.ticket !in StoredTickets(trace)
      modifies this`current, this`trace
      ensures Valid() && current == None && Superseded(a.ticket) in trace
      ensures Streak(trace) == Streak(old(trace)) && Open(trace) == Open(old(trace))
      ensures DegradedAt(trace) == DegradedAt(old(trace))
      ensures old(trace) <= trace
    {
      Supersede(a);
      NeutralKeepsCounts(old(trace), trace);
    }

    // An attempt failed: an uncertain failure, or one of a recovery, counts towards the fallback.
    method HandleFailure(a: Attempt, category: string)
      requires Valid() && current == Some(a.ticket) && !own && Open(trace) && Remembers()
      requires Streak(trace) <= failures && Streak(trace) < 3 && StageOf(trace) == Trying(a.ticket)
      requires category == "superseded" ==> a.ticket !in StoredTickets(trace)
      modifies this`current, this`failures, this`oracle, this`generation, this`phase, this`error, this`degraded,
        this`schedule, this`pending, this`own, this`jobs, this`order, this`active, this`desired, this`nextTicket,
        this`stopping, this`monitors, this`alive, this`events, this`trace
      ensures Valid() && current == None && AtRest() && (old(stopping) ==> stopping)
      ensures failures == old(failures) +
                          (if Counts(category, old(phase), a.job) then 1 else 0)
      ensures category == "superseded" ==> Superseded(a.ticket) in trace && phase == "superseded"
      ensures failures > old(failures) && old(active).Some? ==>
        if failures < MAX_FAILURES then pending.Some? else phase == "degraded" || old(stopping)
      ensures old(trace) <= trace
    {
      hide Within, EventsOk, Shows, Waiting, InHand, Known;
      var counts := Counts(category, phase, a.job);
      SetPhase(if category == "superseded" then "superseded" else "error", category, a.job);
      if category == "superseded" {
        GiveUp(a);
      } else if counts {
        current := None;
        CountFailure(category);
      } else {
        current := None;
      }
    }

    // The active scene is tried again, after a while.
    method Recover()
      requires Valid() && active.Some? && Open(trace) && current == None
      modifies this`schedule, this`pending, this`own, this`jobs, this`order, this`active, this`desired, this`nextTicket,
        this`stopping, this`monitors, this`alive, this`events, this`trace
      ensures Valid() && pending.Some? && (old(stopping) ==> stopping)
      ensures Streak(trace) == Streak(old(trace)) && Open(trace) && DegradedAt(trace) == DegradedAt(old(trace))
      ensures old(trace) <= trace
    {
      QueueRecovery();
      ghost var queued := trace;
      Pause(1);
      NeutralTransitive(old(trace), queued, trace);
      NeutralKeepsCounts(old(trace), trace);
    }

    method CountFailure(category: string)
      requires Valid() && !own && Open(trace) && current == None && Remembers()
      requires Streak(trace) <= failures && Streak(trace) < 3 && StageOf(trace).Trying?
      modifies this`failures, this`oracle, this`generation, this`phase, this`error, this`degraded,
        this`schedule, this`pending, this`own, this`jobs, this`order, this`active, this`desired,
        this`nextTicket,
        this`stopping, this`monitors, this`alive, this`events, this`trace
      ensures Valid() && AtRest() && (old(stopping) ==> stopping) && failures == old(failures) + 1
      ensures phase == old(phase) || phase == "degraded"
      ensures old(active).Some? ==>
        if failures < MAX_FAILURES then pending.Some? else phase == "degraded" || old(stopping)
      ensures old(trace) <= trace
    {
      hide Within, EventsOk, Shows, Waiting, InHand, Known, Of, GrowsNeutral, StageOf, DegradedAt, Streak, Open, Legal,
        FallbackShown, Answers, HeardIn;
      Close();
      failures := failures + 1;
      LogOther(Failed(active.Some?));
      if active.Some? && failures < MAX_FAILURES {
        Recover();
      } else if active.Some? && !stopping {
        Fallback(category);
      }
    }

    // ----- the worker ---------------------------------------------------------------------------

    // An attempt is in hand and may start.
    ghost predicate Underway(a: Attempt)
      reads this
    {
      && current == Some(a.ticket) && !own && a.ticket !in StoredTickets(trace)
      && Open(trace) && Streak(trace) <= failures && Streak(trace) < 3
      && StageOf(trace) == Trying(a.ticket) && Remembers()
    }

    lemma MayTake(k: nat)
      requires Valid() && AtRest() && Streak(trace) < 3
      requires pending.Some? && k == pending.value.ticket
      ensures Legal(trace, Taken(k)) && Open(trace + [Taken(k)]) && Streak(trace + [Taken(k)]) == Streak(trace)
      ensures StageOf(trace + [Taken(k)]) == Trying(k) && DegradedAt(trace + [Taken(k)]) == DegradedAt(trace)
      ensures k !in StoredTickets(trace + [Taken(k)]) && k < nextTicket && current != Some(k)
    {
      var user := pending.value.job.Some?;
      WaitingMeans(trace, k, user, own, AutoQueued(k));
      MaySupersede(k);
      WaitingMeans(trace, k, user, own, Superseded(k));
      WaitingIsNotStored(trace, k, user, own);
      assert (trace + [Taken(k)])[..|trace|] == trace;
    }

    // Takes what is waiting, whoever asked for it.
    method Take() returns (request: Option<Attempt>)
      requires Valid() && AtRest() && Streak(trace) < 3 && current == None
      modifies this`pending, this`own, this`current, this`trace
      ensures Valid() && pending == None && !own && request == old(pending)
      ensures request.Some? ==> Underway(request.value)
      ensures request.None? ==> trace == old(trace) && current == None
      ensures old(trace) <= trace
    {
      request := pending;
      if request.Some? {
        var k := request.value.ticket;
        MayTake(k);
        pending := None;
        Log(Taken(k));
        ExtendInHand(old(trace), Taken(k), k);
        current := Some(k);
      }
      own := false;
    }

    // The monitors changed since the fallback: failures count anew.
    method NoticeTopology()
      requires Valid() && AtRest() && Streak(trace) < 3 && current == None && !own
      modifies this`failures, this`trace
      ensures Valid() && AtRest() && Streak(trace) < 3
      ensures degraded.Some? && degraded.value != monitors.key ==>
        failures == 0 && Open(trace) && trace == old(trace) + [TopologyMoved(monitors.key)]
      ensures degraded.None? || degraded.value == monitors.key ==> failures == old(failures) && trace == old(trace)
      ensures old(trace) <= trace
    {
      if degraded.Some? && degraded.value != monitors.key {
        failures := 0;
        LogOther(TopologyMoved(monitors.key));
      }
    }

    // Queues a recovery and takes it at once.
    method TakeRecovery() returns (k: nat)
      requires Valid() && AtRest() && Streak(trace) < 3 && current == None && !own && Open(trace)
      modifies this`current, this`nextTicket, this`trace
      ensures Valid() && current == Some(k) && k !in StoredTickets(trace)
      ensures Open(trace) && Streak(trace) == Streak(old(trace))
      ensures StageOf(trace) == Trying(k) && DegradedAt(trace) == DegradedAt(old(trace))
      ensures old(trace) <= trace
    {
      hide Within, EventsOk, Shows, Waiting, InHand, Known, Of, GrowsNeutral;
      k := nextTicket;
      MayQueue(k);
      MayTakeAtOnce(k);
      Widen(trace, generation, k, generation, k + 1);
      nextTicket := k + 1;
      FreshForPending(k);
      Log(AutoQueued(k));
      Log(Taken(k));
      ExtendInHand(old(trace) + [AutoQueued(k)], Taken(k), k);
      current := Some(k);
    }

    // With nothing asked for, recover the active scene when its renderer died or the monitors changed.
    method Watch() returns (request: Option<Attempt>)
      requires Valid() && AtRest() && Streak(trace) < 3 && current == None && !own
      modifies this`current, this`nextTicket, this`trace, this`alive
      ensures Valid()
      ensures request.Some? ==>
        Underway(request.value) && request.value.job == None && request.value.scene == active && active.Some?
        && failures < MAX_FAILURES
      ensures request.None? ==> trace == old(trace) && current == None
      ensures old(trace) <= trace
    {
      request := None;
      if active.Some? && failures < MAX_FAILURES && (!alive || topology != Some(monitors.key)) {
        var k := TakeRecovery();
        Close();
        request := Some(Attempt(None, active, k));
      }
    }

    lemma FreshForPending(k: nat)
      requires Valid() && NoTicket(trace, k)
      ensures pending.Some? ==> pending.value.ticket != k
    {
      if pending.Some? {
        WaitingMeans(trace, pending.value.ticket, pending.value.job.Some?, own, AutoQueued(k));
        NoTicketHasNo(trace, k, Requested(k));
        NoTicketHasNo(trace, k, Restored(k));
        NoTicketHasNo(trace, k, AutoQueued(k));
      }
    }

    lemma MayTakeAtOnce(k: nat)
      requires NoTicket(trace, k) && Open(trace) && Streak(trace) < 3
      ensures var t := trace + [AutoQueued(k)];
              Legal(t, Taken(k)) && Open(t + [Taken(k)]) && Streak(t + [Taken(k)]) == Streak(trace)
              && k !in StoredTickets(t + [Taken(k)])
              && StageOf(t + [Taken(k)]) == Trying(k) && DegradedAt(t + [Taken(k)]) == DegradedAt(trace)
    {
      var t := trace + [AutoQueued(k)];
      assert t[..|trace|] == trace;
      assert (t + [Taken(k)])[..|t|] == t;
      NoTicketHasNo(trace, k, Superseded(k));
      WaitingIsNotStored(trace, k, false, false);
    }

    lemma StoredIsNotWaiting(a: Attempt)
      requires Valid() && current == Some(a.ticket)
      ensures a.ticket < nextTicket && (pending.Some? ==> pending.value.ticket != a.ticket)
    {
      InHandIsNotWaiting();
    }

    method Work(a: Attempt)
      requires Valid() && Underway(a)
      modifies this
      ensures Valid() && AtRest() && current == None && (old(stopping) ==> stopping)
      ensures old(trace) <= trace
    {
      hide Within, EventsOk, Shows, Waiting, InHand, Known, Of, GrowsNeutral;
      if a.scene.None? {
        Fallback("state_invalid");
        failures := MAX_FAILURES;
        current := None;
      } else {
        ghost var before := trace;
        var failure := Apply(a);
        AppliedKeepsCounts(before, trace);
        if failure.None? {
          failures := 0;
          StoredIsNotWaiting(a);
          current := None;
          LogSuccess(a);
        } else {
          HandleFailure(a, failure.value);
        }
      }
    }

    // What to do in this round.  With nothing asked for the worker looks at the monitors first.
    method Choice() returns (request: Option<Attempt>)
      requires Valid() && AtRest() && Streak(trace) < 3 && current == None
      modifies this`pending, this`own, this`current, this`failures, this`nextTicket, this`trace, this`alive
      ensures Valid() && old(trace) <= trace && (request.Some? ==> Underway(request.value))
      ensures request.None? ==> AtRest() && current == None
      ensures old(pending) == None && degraded.Some? && degraded.value != monitors.key ==>
        old(trace) + [TopologyMoved(monitors.key)] <= trace
    {
      request := Take();
      if request.None? {
        NoticeTopology();
        request := Watch();
      }
    }

    // One round of the worker.  With nothing asked for, and nobody else doing anything, it notices first of
    // all that the monitors are not what the last fallback recorded.
    method Round()
      requires Valid() && AtRest() && current == None && !stopping
      modifies this
      ensures Valid() && AtRest() && current == None && old(trace) <= trace
      ensures old(schedule) == [] && old(pending) == None && old(degraded).Some?
              && old(degraded).value != old(monitors).key ==>
        old(trace) + [TopologyMoved(old(monitors).key)] <= trace
    {
      hide Within, EventsOk, Shows, Waiting, InHand, Known, Of, GrowsNeutral, StoredTickets;
      ghost var before := trace;
      Pause(1);
      NeutralKeepsCounts(before, trace);
      var request := Choice();
      if request.Some? {
        Work(request.value);
      }
    }

    // The worker, for as long as it is scheduled and not stopped.
    method Run(rounds: nat)
      requires Valid() && trace == [MonitorsAre(monitors.key)] && failures == 0 && pending == None && current == None
      requires degraded == None
      modifies this
      ensures Valid() && IsRun(trace)
    {
      FirstTrace(monitors.key);
      own := false;
      for i := 0 to rounds
        invariant Valid() && AtRest() && current == None
      {
        if stopping {
          break;
        }
        Round();
      }
      Close();
      WithinIsRun(trace, generation, nextTicket);
    }
  }
}
