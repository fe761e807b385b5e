/**
  Brightness and power requests for external monitors.  Requests that wait for the same I2C bus
  are merged; what the monitor ends up with should be what executing them one by one gives.
*/
module DdcQueue {

  type Bus = int

  datatype Request = Percent(percent: int) | Delta(delta: int) | Power(on: bool)
  datatype Monitor = Monitor(brightness: int, powered: bool)

  // What may be submitted, and what may wait: merging can produce a delta of zero.
  predicate IsAllowed(r: Request) {
    match r
    case Percent(p) => 0 <= p <= 100
    case Delta(d) => d != 0 && -100 <= d <= 100
    case Power(_) => true
  }

  predicate MayWait(r: Request) {
    r == Delta(0) || IsAllowed(r)
  }

  function Clamp(low: int, high: int, x: int): int {
    if x < low then low else if x > high then high else x
  }

  // The effect of one command on a monitor whose highest brightness is 100; a delta of zero is refused.
  function Execute(m: Monitor, r: Request): Monitor {
    match r
    case Percent(p) => m.(brightness := p)
    case Delta(d) => if d == 0 then m else m.(brightness := Clamp(0, 100, m.brightness + d))
    case Power(on) => m.(powered := on)
  }

  function ExecuteAll(m: Monitor, queue: seq<Request>): Monitor {
    if queue == [] then m
    else Execute(ExecuteAll(m, queue[..|queue| - 1]), queue[|queue| - 1])
  }

  // What waits after r was submitted: only the last request can absorb it.
  function Merged(queue: seq<Request>, r: Request): seq<Request> {
    if queue == [] then [r]
    else
      var init, last := queue[..|queue| - 1], queue[|queue| - 1];
      match (last, r)
      case (Percent(p), Delta(d)) => init + [Percent(Clamp(0, 100, p + d))]
      case (Delta(p), Delta(d)) => init + [Delta(Clamp(-100, 100, p + d))]
      case (Percent(_), Percent(_)) => init + [r]
      case (Delta(_), Percent(_)) => init + [r]
      case (Power(_), Power(_)) => init + [r]
      case _ => queue + [r]
  }

  // A delta is lost in part when the one before it would have run into a limit and it points back.
  predicate IsLossy(m: Monitor, queue: seq<Request>, r: Request) {
    queue != [] && queue[|queue| - 1].Delta? && r.Delta?
    && var wanted := ExecuteAll(m, queue[..|queue| - 1]).brightness + queue[|queue| - 1].delta;
       (wanted > 100 && r.delta < 0) || (wanted < 0 && r.delta > 0)
  }

  predicate IsSane(m: Monitor) {
    0 <= m.brightness <= 100
  }

  ghost predicate AllMayWait(queue: seq<Request>) {
    forall i :: 0 <= i < |queue| ==> MayWait(queue[i])
  }

  ghost predicate Alternates(queue: seq<Request>) {
    forall i :: 0 <= i < |queue| - 1 ==> queue[i].Power? != queue[i + 1].Power?
  }

  lemma {:induction false} BrightnessStaysSane(m: Monitor, queue: seq<Request>)
    requires IsSane(m) && AllMayWait(queue)
    ensures IsSane(ExecuteAll(m, queue))
  {
    if queue != [] {
      BrightnessStaysSane(m, queue[..|queue| - 1]);
      assert MayWait(queue[|queue| - 1]);
    }
  }

  // Submitting r has the effect of executing it last, exactly when the merge is not lossy; the
  // power state is never affected by merging.
  lemma MergeIsExactUnlessLossy(m: Monitor, queue: seq<Request>, r: Request)
    requires IsSane(m) && AllMayWait(queue) && IsAllowed(r)
    ensures ExecuteAll(m, Merged(queue, r)) == Execute(ExecuteAll(m, queue), r) <==> !IsLossy(m, queue, r)
    ensures ExecuteAll(m, Merged(queue, r)).powered == Execute(ExecuteAll(m, queue), r).powered
    ensures r.Percent? ==> ExecuteAll(m, Merged(queue, r)).brightness == r.percent
  {
    var merged := Merged(queue, r);
    if queue == [] {
      assert merged[..0] == [];
    } else {
      var init, last := queue[..|queue| - 1], queue[|queue| - 1];
      assert MayWait(last);
      BrightnessStaysSane(m, init);
      assert merged[..|merged| - 1] == if |merged| == |queue| then init else queue;
    }
  }

  // Merging keeps brightness and power requests alternating, changes the last request only, and
  // never combines a brightness request with a power request.
  lemma MergeKeepsTheOthers(queue: seq<Request>, r: Request)
    requires AllMayWait(queue) && Alternates(queue) && IsAllowed(r)
    ensures AllMayWait(Merged(queue, r)) && Alternates(Merged(queue, r))
    ensures var merged := Merged(queue, r);
            var last := merged[|merged| - 1];
            if queue != [] && queue[|queue| - 1].Power? == r.Power?
            then merged == queue[..|queue| - 1] + [last] && last.Power? == r.Power?
            else merged == queue + [r]
  {
    if queue != [] {
      var init, last := queue[..|queue| - 1], queue[|queue| - 1];
      assert MayWait(last);
      var merged := Merged(queue, r);
      forall i | 0 <= i < |merged| - 1 ensures merged[i].Power? != merged[i + 1].Power? && MayWait(merged[i]) {
        assert merged[i] == queue[i] && MayWait(queue[i]);
        if i + 1 < |queue| { assert queue[i].Power? != queue[i + 1].Power?; }
      }
    }
  }

  // Deltas in one direction lose nothing.
  lemma SameDirectionIsExact(m: Monitor, queue: seq<Request>, d: int)
    requires IsSane(m) && AllMayWait(queue) && queue != [] && queue[|queue| - 1].Delta?
    requires (queue[|queue| - 1].delta >= 0 && d >= 0) || (queue[|queue| - 1].delta <= 0 && d <= 0)
    ensures !IsLossy(m, queue, Delta(d))
  {
    assert AllMayWait(queue[..|queue| - 1]);
    BrightnessStaysSane(m, queue[..|queue| - 1]);
  }

  // From 50, up by 60 and down by 60 gives 40; merged, the two cancel and give 50.
  lemma OvershootThenBackIsLossy()
    ensures ExecuteAll(Monitor(50, true), [Delta(60), Delta(-60)]) == Monitor(40, true)
    ensures ExecuteAll(Monitor(50, true), Merged([Delta(60)], Delta(-60))) == Monitor(50, true)
  {
    assert [Delta(60), Delta(-60)][..1] == [Delta(60)];
    assert ExecuteAll(Monitor(50, true), [Delta(60)]) == Monitor(100, true);
    assert Merged([Delta(60)], Delta(-60)) == [Delta(0)];
  }

  // ----- a run of submissions while the monitor is busy -------------------------------------

  function MergedAll(queue: seq<Request>, rs: seq<Request>): seq<Request> {
    if rs == [] then queue else Merged(MergedAll(queue, rs[..|rs| - 1]), rs[|rs| - 1])
  }

  // The value after the deltas, without limits.
  function Sum(start: int, deltas: seq<int>): int {
    if deltas == [] then start else Sum(start, deltas[..|deltas| - 1]) + deltas[|deltas| - 1]
  }

  // No partial sum of the deltas runs into a limit.
  predicate NeverSaturates(start: int, deltas: seq<int>) {
    0 <= Sum(start, deltas) <= 100 && (deltas != [] ==> NeverSaturates(start, deltas[..|deltas| - 1]))
  }

  function Deltas(deltas: seq<int>): (rs: seq<Request>)
    ensures |rs| == |deltas|
  {
    if deltas == [] then [] else Deltas(deltas[..|deltas| - 1]) + [Delta(deltas[|deltas| - 1])]
  }

  lemma DeltasSplit(deltas: seq<int>)
    requires deltas != []
    ensures var rs := Deltas(deltas);
            rs[..|rs| - 1] == Deltas(deltas[..|deltas| - 1]) && rs[|rs| - 1] == Delta(deltas[|deltas| - 1])
  {
  }

  lemma MergeTwoDeltas(queue: seq<Request>, a: int, b: int)
    requires queue == [Delta(a)]
    ensures Merged(queue, Delta(b)) == [Delta(Clamp(-100, 100, a + b))]
  {
    assert queue[..0] == [];
  }

  // Unsaturated deltas are merged into their sum.
  lemma {:induction false} MergedDeltas(start: int, deltas: seq<int>)
    requires 0 <= start <= 100 && NeverSaturates(start, deltas) && deltas != []
    ensures MergedAll([], Deltas(deltas)) == [Delta(Sum(start, deltas) - start)]
  {
    var init, d := deltas[..|deltas| - 1], deltas[|deltas| - 1];
    DeltasSplit(deltas);
    assert MergedAll([], Deltas(deltas)) == Merged(MergedAll([], Deltas(init)), Delta(d));
    if init == [] {
      assert Sum(start, deltas) == start + d;
    } else {
      MergedDeltas(start, init);
      MergeTwoDeltas(MergedAll([], Deltas(init)), Sum(start, init) - start, d);
      assert 0 <= Sum(start, init) <= 100;
    }
  }

  lemma ExecuteOne(m: Monitor, r: Request)
    ensures ExecuteAll(m, [r]) == Execute(m, r)
  {
    assert [r][..0] == [];
  }

  // However many deltas are merged into one, nothing is lost while no partial sum saturates.
  lemma UnsaturatedDeltasAreExact(m: Monitor, deltas: seq<int>)
    requires IsSane(m) && NeverSaturates(m.brightness, deltas)
    ensures ExecuteAll(m, MergedAll([], Deltas(deltas))) == m.(brightness := Sum(m.brightness, deltas))
  {
    if deltas != [] {
      MergedDeltas(m.brightness, deltas);
      ExecuteOne(m, Delta(Sum(m.brightness, deltas) - m.brightness));
    }
  }

  // ----- submitters and workers ---------------------------------------------------------------

  datatype Step =
    | Submit(bus: Bus, request: Request)
    | WorkerStep(bus: Bus, commandSucceeds: bool)

  // What waits and what was asked for on one bus, next to the state of its monitor.
  datatype Channel = Channel(
    monitor: Monitor,
    inFlight: seq<Request>,
    waiting: seq<Request>,
    submitted: seq<Request>,
    exactBrightness: bool,
    exactPower: bool)
  {
    function Work(): seq<Request> { inFlight + waiting }

    // What the monitor will come to when all work is done.
    function Prospect(): Monitor { ExecuteAll(monitor, Work()) }
  }

  // The monitor is heading for what the requests ask for, executed in order from its first state.
  ghost predicate ChannelOk(c: Channel, start: Monitor) {
    && IsSane(start) && IsSane(c.monitor) && AllMayWait(c.Work()) && Alternates(c.waiting) && |c.inFlight| <= 1
    && (c.exactPower ==> c.Prospect().powered == ExecuteAll(start, c.submitted).powered)
    && (c.exactBrightness ==> c.Prospect().brightness == ExecuteAll(start, c.submitted).brightness)
  }

  function Submitted(c: Channel, r: Request): Channel {
    c.(
    waiting := Merged(c.waiting, r),
    submitted := c.submitted + [r],
    exactPower := c.exactPower || r.Power?,
    exactBrightness := r.Percent? || (c.exactBrightness && !IsLossy(ExecuteAll(c.monitor, c.inFlight), c.waiting, r)))
  }

  function Taken(c: Channel): Channel
    requires c.waiting != []
  {
    c.(inFlight := [c.waiting[0]], waiting := c.waiting[1..])
  }

  // Some waiting request fixes the brightness, or the power state, whatever it was before.
  predicate FixesBrightness(queue: seq<Request>) {
    queue != [] && (queue[|queue| - 1].Percent? || FixesBrightness(queue[..|queue| - 1]))
  }

  predicate FixesPower(queue: seq<Request>) {
    queue != [] && (queue[|queue| - 1].Power? || FixesPower(queue[..|queue| - 1]))
  }

  // A command that fails leaves the monitor as it was; that matters until an absolute write follows.
  function Done(c: Channel, succeeds: bool): Channel
    requires |c.inFlight| == 1
  {
    if succeeds then c.(monitor := Execute(c.monitor, c.inFlight[0]), inFlight := [])
    else c.(inFlight := [],
            exactPower := c.exactPower && (!c.inFlight[0].Power? || FixesPower(c.waiting)),
            exactBrightness := c.exactBrightness && (c.inFlight[0].Power? || FixesBrightness(c.waiting)))
  }

  lemma {:induction false} ExecuteInTwoParts(m: Monitor, a: seq<Request>, b: seq<Request>)
    ensures ExecuteAll(m, a + b) == ExecuteAll(ExecuteAll(m, a), b)
  {
    if b == [] {
      assert a + b == a;
    } else {
      ExecuteInTwoParts(m, a, b[..|b| - 1]);
      assert (a + b)[..|a + b| - 1] == a + b[..|b| - 1];
    }
  }

  // Only requests of the same kind influence the brightness, or the power state.
  lemma {:induction false} KindsAreIndependent(m: Monitor, n: Monitor, queue: seq<Request>)
    ensures m.powered == n.powered ==> ExecuteAll(m, queue).powered == ExecuteAll(n, queue).powered
    ensures m.brightness == n.brightness ==> ExecuteAll(m, queue).brightness == ExecuteAll(n, queue).brightness
  {
    if queue != [] { KindsAreIndependent(m, n, queue[..|queue| - 1]); }
  }

  // An absolute write makes up for everything before it.
  lemma {:induction false} AbsoluteWritesForget(m: Monitor, n: Monitor, queue: seq<Request>)
    ensures FixesBrightness(queue) ==> ExecuteAll(m, queue).brightness == ExecuteAll(n, queue).brightness
    ensures FixesPower(queue) ==> ExecuteAll(m, queue).powered == ExecuteAll(n, queue).powered
  {
    if queue != [] { AbsoluteWritesForget(m, n, queue[..|queue| - 1]); }
  }

  lemma PartsMayWait(a: seq<Request>, b: seq<Request>)
    ensures AllMayWait(a + b) <==> AllMayWait(a) && AllMayWait(b)
  {
    if AllMayWait(a + b) {
      assert forall i :: 0 <= i < |a| ==> a[i] == (a + b)[i];
      assert forall i :: 0 <= i < |b| ==> b[i] == (a + b)[|a| + i];
    }
  }

  // Submitting to what waits behind the request in flight.
  lemma SubmitBehind(monitor: Monitor, inFlight: seq<Request>, waiting: seq<Request>, r: Request)
    requires IsSane(monitor) && AllMayWait(inFlight) && AllMayWait(waiting) && IsAllowed(r)
    ensures var before := ExecuteAll(monitor, inFlight + waiting);
            var after := ExecuteAll(monitor, inFlight + Merged(waiting, r));
            && after.powered == Execute(before, r).powered
            && (!IsLossy(ExecuteAll(monitor, inFlight), waiting, r) ==> after == Execute(before, r))
            && (r.Percent? ==> after.brightness == r.percent)
  {
    BrightnessStaysSane(monitor, inFlight);
    MergeIsExactUnlessLossy(ExecuteAll(monitor, inFlight), waiting, r);
    ExecuteInTwoParts(monitor, inFlight, waiting);
    ExecuteInTwoParts(monitor, inFlight, Merged(waiting, r));
  }

  lemma ExecuteLast(start: Monitor, queue: seq<Request>, r: Request)
    ensures ExecuteAll(start, queue + [r]) == Execute(ExecuteAll(start, queue), r)
  {
    assert (queue + [r])[..|queue|] == queue;
  }

  lemma SubmittedIsOk(c: Channel, start: Monitor, r: Request)
    requires ChannelOk(c, start) && IsAllowed(r)
    ensures ChannelOk(Submitted(c, r), start)
  {
    PartsMayWait(c.inFlight, c.waiting);
    PartsMayWait(c.inFlight, Merged(c.waiting, r));
    MergeKeepsTheOthers(c.waiting, r);
    SubmitBehind(c.monitor, c.inFlight, c.waiting, r);
    ExecuteLast(start, c.submitted, r);
  }

  lemma TakenIsOk(c: Channel, start: Monitor)
    requires ChannelOk(c, start) && c.waiting != [] && c.inFlight == []
    ensures ChannelOk(Taken(c), start)
  {
    assert Taken(c).Work() == c.Work();
  }

  // A finished command was the first of the work; a failed one matters only to what is not fixed later.
  lemma FinishFirst(m: Monitor, r: Request, waiting: seq<Request>)
    ensures ExecuteAll(m, [r] + waiting) == ExecuteAll(Execute(m, r), waiting)
    ensures !r.Power? || FixesPower(waiting) ==>
      ExecuteAll(m, [r] + waiting).powered == ExecuteAll(m, waiting).powered
    ensures r.Power? || FixesBrightness(waiting) ==>
      ExecuteAll(m, [r] + waiting).brightness == ExecuteAll(m, waiting).brightness
  {
    ExecuteInTwoParts(m, [r], waiting);
    ExecuteOne(m, r);
    KindsAreIndependent(m, Execute(m, r), waiting);
    AbsoluteWritesForget(m, Execute(m, r), waiting);
  }

  lemma DoneStaysSane(c: Channel, start: Monitor, succeeds: bool)
    requires ChannelOk(c, start) && |c.inFlight| == 1
    ensures var d := Done(c, succeeds); IsSane(d.monitor) && AllMayWait(d.Work()) && d.Work() == c.waiting
  {
    var r := c.inFlight[0];
    PartsMayWait(c.inFlight, c.waiting);
    assert MayWait(c.inFlight[0]);
    assert Done(c, succeeds).Work() == c.waiting;
  }

  lemma DoneIsOk(c: Channel, start: Monitor, succeeds: bool)
    requires ChannelOk(c, start) && |c.inFlight| == 1
    ensures ChannelOk(Done(c, succeeds), start)
    ensures succeeds ==> Done(c, succeeds).Prospect() == c.Prospect()
  {
    DoneStaysSane(c, start, succeeds);
    hide IsSane, AllMayWait, Alternates, Execute, ExecuteAll, FixesPower, FixesBrightness;
    assert c.inFlight == [c.inFlight[0]];
    FinishFirst(c.monitor, c.inFlight[0], c.waiting);
  }

  // With nothing left to do, the monitor is where executing every request in order would have put it.
  lemma DrainedIsInOrder(c: Channel, start: Monitor)
    requires ChannelOk(c, start) && c.waiting == [] && c.inFlight == []
    ensures c.exactPower ==> c.monitor.powered == ExecuteAll(start, c.submitted).powered
    ensures c.exactBrightness ==> c.monitor.brightness == ExecuteAll(start, c.submitted).brightness
  {
  }

  // The queue as a value: every channel, and the buses with a worker.
  datatype Queue = Queue(channels: map<Bus, Channel>, running: set<Bus>)

  // An accepted request is merged and wakes a worker; a worker finishes the command in hand, takes
  // the next request, or ends.
  function AfterStep(q: Queue, step: Step): Queue {
    match step
    case Submit(bus, r) =>
      if bus !in q.channels || !IsAllowed(r) then q
      else Queue(q.channels[bus := Submitted(q.channels[bus], r)], q.running + {bus})
    case WorkerStep(bus, succeeds) =>
      if bus !in q.running || bus !in q.channels then q
      else
        var c := q.channels[bus];
        if |c.inFlight| == 1 then q.(channels := q.channels[bus := Done(c, succeeds)])
        else if c.waiting != [] then q.(channels := q.channels[bus := Taken(c)])
        else q.(running := q.running - {bus})
  }

  function AfterSteps(q: Queue, steps: seq<Step>): Queue {
    if steps == [] then q else AfterStep(AfterSteps(q, steps[..|steps| - 1]), steps[|steps| - 1])
  }

  // A worker that is left alone finishes everything and ends.
  function StepsLeft(c: Channel): nat { |c.inFlight| + 2 * |c.waiting| + 1 }

  function Alone(q: Queue, bus: Bus, n: nat): Queue
    decreases n
  {
    if n == 0 then q else Alone(AfterStep(q, WorkerStep(bus, true)), bus, n - 1)
  }

  function NextOf(c: Channel): Channel {
    if |c.inFlight| == 1 then Done(c, true) else if c.waiting != [] then Taken(c) else c
  }

  lemma NextComesCloser(c: Channel)
    requires |c.inFlight| <= 1 && c.Work() != []
    ensures var d := NextOf(c);
            |d.inFlight| <= 1 && StepsLeft(d) == StepsLeft(c) - 1 && d.Prospect() == c.Prospect()
  {
    var d := NextOf(c);
    if |c.inFlight| == 1 {
      assert c.inFlight == [c.inFlight[0]] && d.Work() == c.waiting;
      FinishFirst(c.monitor, c.inFlight[0], c.waiting);
    } else {
      assert d.Work() == c.Work();
    }
  }

  lemma {:induction false} WorkersFinish(q: Queue, bus: Bus)
    requires bus in q.channels && bus in q.running && |q.channels[bus].inFlight| <= 1
    ensures var end := Alone(q, bus, StepsLeft(q.channels[bus]));
            && end.running == q.running - {bus} && bus in end.channels
            && end.channels[bus].Work() == []
            && end.channels[bus].monitor == q.channels[bus].Prospect()
    decreases StepsLeft(q.channels[bus])
  {
    var c := q.channels[bus];
    var next := AfterStep(q, WorkerStep(bus, true));
    if c.Work() == [] {
      assert Alone(q, bus, 1) == Alone(next, bus, 0);
    } else {
      assert next == q.(channels := q.channels[bus := NextOf(c)]);
      NextComesCloser(c);
      WorkersFinish(next, bus);
    }
  }

  // ----- what is asked for decides whether merging is exact ----------------------------------------

  // Since the last absolute write all deltas point in one direction.
  predicate OneDirection(submitted: seq<Request>, up: bool) {
    submitted == []
    || var init := submitted[..|submitted| - 1];
       match submitted[|submitted| - 1]
       case Percent(_) => true
       case Delta(d) => Points(d, up) && OneDirection(init, up)
       case Power(_) => OneDirection(init, up)
  }

  predicate Points(d: int, up: bool) {
    if up then d >= 0 else d <= 0
  }

  // Since the last absolute write no delta, executed in order, runs into a limit.
  predicate NeverLimited(start: Monitor, submitted: seq<Request>) {
    submitted == []
    || var init := submitted[..|submitted| - 1];
       match submitted[|submitted| - 1]
       case Percent(_) => true
       case Delta(d) => 0 <= ExecuteAll(start, init).brightness + d <= 100 && NeverLimited(start, init)
       case Power(_) => NeverLimited(start, init)
  }

  // The last waiting delta, if that is what waits last, and the brightness it will be added to.
  predicate EndsInDelta(queue: seq<Request>) {
    queue != [] && queue[|queue| - 1].Delta?
  }

  function BaseOf(c: Channel): int
    requires c.waiting != []
  {
    ExecuteAll(ExecuteAll(c.monitor, c.inFlight), c.waiting[..|c.waiting| - 1]).brightness
  }

  // Requests in one direction have been merged exactly, and the last waiting delta has that direction.
  predicate Pointing(c: Channel, up: bool) {
    OneDirection(c.submitted, up) ==>
      c.exactBrightness && (EndsInDelta(c.waiting) ==> Points(c.waiting[|c.waiting| - 1].delta, up))
  }

  // Requests that never run into a limit have been merged exactly, and the last waiting delta will not either.
  predicate Fitting(c: Channel, start: Monitor) {
    NeverLimited(start, c.submitted) ==>
      c.exactBrightness && (EndsInDelta(c.waiting) ==> 0 <= BaseOf(c) + c.waiting[|c.waiting| - 1].delta <= 100)
  }

  lemma SubmittedLast(c: Channel, r: Request)
    ensures var s := Submitted(c, r).submitted;
            s != [] && s[..|s| - 1] == c.submitted && s[|s| - 1] == r
  {
  }

  lemma SubmittedPoints(c: Channel, start: Monitor, r: Request, up: bool)
    requires ChannelOk(c, start) && Pointing(c, up) && IsAllowed(r)
    ensures Pointing(Submitted(c, r), up)
  {
    SubmittedLast(c, r);
    PartsMayWait(c.inFlight, c.waiting);
    BrightnessStaysSane(c.monitor, c.inFlight);
    if c.waiting != [] {
      assert AllMayWait(c.waiting[..|c.waiting| - 1]);
      BrightnessStaysSane(ExecuteAll(c.monitor, c.inFlight), c.waiting[..|c.waiting| - 1]);
    }
  }

  // The base of the last waiting delta is where everything before it leads, and a percentage.
  lemma BaseBefore(c: Channel, start: Monitor)
    requires ChannelOk(c, start) && c.waiting != []
    ensures 0 <= BaseOf(c) <= 100
    ensures c.Prospect() == Execute(ExecuteAll(ExecuteAll(c.monitor, c.inFlight), c.waiting[..|c.waiting| - 1]),
                                    c.waiting[|c.waiting| - 1])
  {
    PartsMayWait(c.inFlight, c.waiting);
    BrightnessStaysSane(c.monitor, c.inFlight);
    assert AllMayWait(c.waiting[..|c.waiting| - 1]);
    BrightnessStaysSane(ExecuteAll(c.monitor, c.inFlight), c.waiting[..|c.waiting| - 1]);
    ExecuteInTwoParts(c.monitor, c.inFlight, c.waiting);
  }

  lemma SubmittedFits(c: Channel, start: Monitor, r: Request)
    requires ChannelOk(c, start) && Fitting(c, start) && IsAllowed(r)
    ensures Fitting(Submitted(c, r), start)
  {
    SubmittedLast(c, r);
    if NeverLimited(start, Submitted(c, r).submitted) && r.Delta? {
      if c.waiting == [] {
        assert c.Work() == c.inFlight;
      } else {
        BaseBefore(c, start);
        ExecuteInTwoParts(c.monitor, c.inFlight, c.waiting);
        assert Submitted(c, r).waiting[..|Submitted(c, r).waiting| - 1] ==
               if c.waiting[|c.waiting| - 1].Power? then c.waiting else c.waiting[..|c.waiting| - 1];
      }
    }
  }

  lemma TakenKeeps(c: Channel, start: Monitor, up: bool)
    requires c.inFlight == [] && c.waiting != []
    ensures Pointing(c, up) ==> Pointing(Taken(c), up)
    ensures Fitting(c, start) ==> Fitting(Taken(c), start)
  {
    var t := Taken(c);
    if t.waiting != [] {
      var init := c.waiting[..|c.waiting| - 1];
      assert [c.waiting[0]] + t.waiting[..|t.waiting| - 1] == init;
      ExecuteInTwoParts(c.monitor, [c.waiting[0]], t.waiting[..|t.waiting| - 1]);
      assert BaseOf(t) == BaseOf(c);
    }
  }

  lemma DoneKeeps(c: Channel, start: Monitor, up: bool)
    requires |c.inFlight| == 1
    ensures Pointing(c, up) ==> Pointing(Done(c, true), up)
    ensures Fitting(c, start) ==> Fitting(Done(c, true), start)
  {
    assert c.inFlight == [c.inFlight[0]];
    ExecuteOne(c.monitor, c.inFlight[0]);
    assert ExecuteAll(Execute(c.monitor, c.inFlight[0]), []) == Execute(c.monitor, c.inFlight[0]);
  }

  // Every bus idle, nothing asked for.
  function Fresh(monitors: map<Bus, Monitor>): Queue {
    Queue(map bus | bus in monitors :: Channel(monitors[bus], [], [], [], true, true), {})
  }

  // Every command on this bus succeeds.
  predicate Succeeds(steps: seq<Step>, bus: Bus) {
    forall i | 0 <= i < |steps| :: steps[i].WorkerStep? && steps[i].bus == bus ==> steps[i].commandSucceeds
  }

  // What was asked of this bus, in order.
  function RequestsFor(steps: seq<Step>, bus: Bus): seq<Request> {
    if steps == [] then []
    else
      RequestsFor(steps[..|steps| - 1], bus) +
      match steps[|steps| - 1]
      case Submit(b, r) => if b == bus && IsAllowed(r) then [r] else []
      case WorkerStep(_, _) => []
  }

  // What holds of a bus whose commands succeed.
  ghost predicate BusOk(c: Channel, start: Monitor) {
    ChannelOk(c, start) && c.exactPower && Pointing(c, true) && Pointing(c, false) && Fitting(c, start)
  }

  lemma StepKeepsBus(q: Queue, step: Step, bus: Bus, start: Monitor)
    requires bus in q.channels && BusOk(q.channels[bus], start)
    requires step.WorkerStep? && step.bus == bus ==> step.commandSucceeds
    ensures var after := AfterStep(q, step);
            after.channels.Keys == q.channels.Keys && BusOk(after.channels[bus], start)
  {
    var c := q.channels[bus];
    if step.bus == bus {
      match step
      case Submit(_, r) =>
        if IsAllowed(r) {
          SubmittedIsOk(c, start, r);
          SubmittedPoints(c, start, r, true);
          SubmittedPoints(c, start, r, false);
          SubmittedFits(c, start, r);
        }
      case WorkerStep(_, _) =>
        if |c.inFlight| == 1 {
          DoneIsOk(c, start, true);
          DoneKeeps(c, start, true);
          DoneKeeps(c, start, false);
        } else if c.waiting != [] {
          TakenIsOk(c, start);
          TakenKeeps(c, start, true);
          TakenKeeps(c, start, false);
        }
    }
  }

  lemma FreshIsOk(start: Monitor)
    requires IsSane(start)
    ensures BusOk(Channel(start, [], [], [], true, true), start)
  {
  }

  lemma StepAsks(q: Queue, step: Step, bus: Bus)
    requires bus in q.channels
    ensures var after := AfterStep(q, step);
            bus in after.channels
            && after.channels[bus].submitted == q.channels[bus].submitted +
               match step
               case Submit(b, r) => if b == bus && IsAllowed(r) then [r] else []
               case WorkerStep(_, _) => []
  {
    hide Merged, IsLossy, FixesPower, FixesBrightness, Execute, ExecuteAll;
  }

  lemma {:induction false} RunKeepsBus(monitors: map<Bus, Monitor>, steps: seq<Step>, bus: Bus)
    requires bus in monitors && IsSane(monitors[bus]) && Succeeds(steps, bus)
    ensures var q := AfterSteps(Fresh(monitors), steps);
            && q.channels.Keys == monitors.Keys && BusOk(q.channels[bus], monitors[bus])
            && q.channels[bus].submitted == RequestsFor(steps, bus)
  {
    hide BusOk, AfterStep, IsAllowed;
    if steps == [] {
      FreshIsOk(monitors[bus]);
    } else {
      var init := steps[..|steps| - 1];
      RunKeepsBus(monitors, init, bus);
      StepKeepsBus(AfterSteps(Fresh(monitors), init), steps[|steps| - 1], bus, monitors[bus]);
      StepAsks(AfterSteps(Fresh(monitors), init), steps[|steps| - 1], bus);
    }
  }

  // In every interleaving in which the commands of a bus succeed: if the deltas asked for since the last
  // absolute write point in one direction, or none of them runs into a limit, the monitor is heading for
  // exactly what executing all requests in order gives, and with nothing left to do it is there.
  lemma MergingIsExact(monitors: map<Bus, Monitor>, steps: seq<Step>, bus: Bus)
    requires bus in monitors && IsSane(monitors[bus]) && Succeeds(steps, bus)
    requires var rs := RequestsFor(steps, bus);
             OneDirection(rs, true) || OneDirection(rs, false) || NeverLimited(monitors[bus], rs)
    ensures bus in AfterSteps(Fresh(monitors), steps).channels
    ensures var c := AfterSteps(Fresh(monitors), steps).channels[bus];
            && c.Prospect() == ExecuteAll(monitors[bus], RequestsFor(steps, bus))
            && (c.Work() == [] ==> c.monitor == ExecuteAll(monitors[bus], RequestsFor(steps, bus)))
  {
    RunKeepsBus(monitors, steps, bus);
  }

  class DdcBrightnessQueue {
    var channels: map<Bus, Channel>
    var running: set<Bus>
    ghost const start: map<Bus, Monitor>
    ghost var workers: multiset<Bus>  // the threads started and not yet ended

    ghost function Now(): Queue
      reads this
    {
      Queue(channels, running)
    }

    // One worker for each running bus; whatever waits has a worker; every channel is in order.
    ghost predicate Valid()
      reads this
    {
      && channels.Keys == start.Keys && running <= channels.Keys
      && workers == multiset(running)
      && (forall bus :: bus in channels ==> ChannelOk(channels[bus], start[bus]))
      && (forall bus :: bus in channels && channels[bus].Work() != [] ==> bus in running)
    }

    constructor (monitors: map<Bus, Monitor>)
      requires forall bus :: bus in monitors ==> IsSane(monitors[bus])
      ensures Valid() && running == {}
      ensures channels.Keys == monitors.Keys
      ensures Now() == Fresh(monitors) && start == monitors
    {
      channels := map bus | bus in monitors :: Channel(monitors[bus], [], [], [], true, true);
      running, workers, start := {}, multiset{}, monitors;
    }

    // Rejected out of range; otherwise merged, and a worker is started if the bus has none.
    method SubmitRequest(bus: Bus, r: Request) returns (ok: bool)
      requires Valid() && bus in channels
      modifies this
      ensures Valid() && ok == IsAllowed(r)
      ensures Now() == AfterStep(old(Now()), Submit(bus, r))
      ensures workers == old(workers) + multiset(if ok && bus !in old(running) then {bus} else {})
    {
      hide ChannelOk, Submitted;
      ok := IsAllowed(r);
      if ok {
        SubmittedIsOk(channels[bus], start[bus], r);
        channels := channels[bus := Submitted(channels[bus], r)];
        if bus !in running {
          running := running + {bus};
          workers := workers + multiset{bus};
        }
      }
    }

    method Put(bus: Bus, c: Channel)
      requires Valid() && bus in channels && bus in running && ChannelOk(c, start[bus])
      modifies this`channels
      ensures Valid() && channels == old(channels)[bus := c]
    {
      channels := channels[bus := c];
    }

    // With nothing left to do the worker ends.
    method End(bus: Bus)
      requires Valid() && bus in running && channels[bus].Work() == []
      modifies this`running, this`workers
      ensures Valid() && running == old(running) - {bus} && workers == old(workers) - multiset{bus}
    {
      assert running == (running - {bus}) + {bus};
      assert multiset(running) == multiset(running - {bus}) + multiset{bus};
      running := running - {bus};
      workers := workers - multiset{bus};
    }

    method RunCommand(bus: Bus, succeeds: bool)
      requires Valid() && bus in running && channels[bus].inFlight != []
      modifies this`channels
      ensures Valid() && channels == old(channels)[bus := Done(old(channels)[bus], succeeds)]
    {
      DoneIsOk(channels[bus], start[bus], succeeds);
      Put(bus, Done(channels[bus], succeeds));
    }

    method TakeNext(bus: Bus)
      requires Valid() && bus in running && channels[bus].inFlight == [] && channels[bus].waiting != []
      modifies this`channels
      ensures Valid() && channels == old(channels)[bus := Taken(old(channels)[bus])]
    {
      TakenIsOk(channels[bus], start[bus]);
      Put(bus, Taken(channels[bus]));
    }

    // The next step of the worker of this bus: run the command in hand, take the next one, or end.
    method Work(bus: Bus, commandSucceeds: bool)
      requires Valid() && bus in running
      modifies this
      ensures Valid() && Now() == AfterStep(old(Now()), WorkerStep(bus, commandSucceeds))
    {
      if channels[bus].inFlight != [] {
        RunCommand(bus, commandSucceeds);
      } else if channels[bus].waiting != [] {
        TakeNext(bus);
      } else {
        End(bus);
      }
    }

    // Any interleaving of submitters and workers.
    method Interleave(steps: seq<Step>)
      requires Valid()
      modifies this
      ensures Valid() && Now() == AfterSteps(old(Now()), steps)
      ensures forall bus :: bus in channels && bus !in running ==>
        DrainedInOrder(channels[bus], start[bus])
    {
      for i := 0 to |steps|
        invariant Valid() && Now() == AfterSteps(old(Now()), steps[..i])
      {
        assert steps[..i + 1][..i] == steps[..i];
        match steps[i]
        case Submit(bus, r) =>
          if bus in channels {
            var _ := SubmitRequest(bus, r);
          }
        case WorkerStep(bus, succeeds) =>
          if bus in running {
            Work(bus, succeeds);
          }
      }
      assert steps[..|steps|] == steps;
      forall bus | bus in channels && bus !in running ensures DrainedInOrder(channels[bus], start[bus]) {
        DrainedIsInOrder(channels[bus], start[bus]);
      }
    }
  }

  ghost predicate DrainedInOrder(c: Channel, start: Monitor) {
    && c.Work() == []
    && (c.exactPower ==> c.monitor.powered == ExecuteAll(start, c.submitted).powered)
    && (c.exactBrightness ==> c.monitor.brightness == ExecuteAll(start, c.submitted).brightness)
  }
}
