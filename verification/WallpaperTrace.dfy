/**
  What may happen, and in which order, between the user interface, the background worker
  and the native renderer.  A run is a trace; each event must be legal after those before it.
*/
module WallpaperTrace {
  import opened Wrappers

  type SceneId = string
  type Topology = nat

  datatype Message = HELLO | READY | COMMITTED | FAILED | EXIT

  datatype Event =
    // the user interface
    | Requested(ticket: nat)
    | Restored(ticket: nat)
    | Superseded(ticket: nat)
    // the monitors
    | MonitorsAre(topology: Topology)
    // the renderer
    | Emitted(message: Message, generation: nat)
    // the worker
    | AutoQueued(ticket: nat)
    | Taken(ticket: nat)
    | Prepared(generation: nat, scene: SceneId, ticket: nat, topology: Topology)
    | FallbackSent(generation: nat)
    | Received(message: Message, generation: nat)
    | Sampled(generation: nat, topology: Topology)
    | CommitSent(generation: nat)
    | AbortSent(generation: nat)
    | Stored(generation: nat, scene: SceneId, ticket: nat)
    | Failed(active: bool)  // an uncertain failure, or one of a recovery
    | Succeeded(ticket: nat)
    | FallbackTried
    | Degraded(topology: Topology)
    | TopologyMoved(topology: Topology)

  type Trace = seq<Event>

  // The generation of a worker event; the others have none.
  function Gen(e: Event): nat {
    match e
    case Prepared(g, _, _, _) => g
    case FallbackSent(g) => g
    case Received(_, g) => g
    case Sampled(g, _) => g
    case CommitSent(g) => g
    case AbortSent(g) => g
    case Stored(g, _, _) => g
    case _ => 0
  }

  ghost predicate Above(g: nat, t: Trace) {
    g > 0 && forall e :: e in t ==> Gen(e) < g
  }

  // The last word on generation g is that the topology was read, with this value, after this message.
  ghost predicate SampledAfter(t: Trace, g: nat, m: Message, topology: Topology) {
    t != []
    && var init, last := t[..|t| - 1], t[|t| - 1];
       if Gen(last) == g then last == Sampled(g, topology) && Received(m, g) in init
       else SampledAfter(init, g, m, topology)
  }

  // The topology the generation was prepared for is what was read last, after this message.
  ghost predicate SameTopology(t: Trace, g: nat, s: SceneId, k: nat, m: Message) {
    exists topology :: Prepared(g, s, k, topology) in t && SampledAfter(t, g, m, topology)
  }

  // This is what the monitors are, since they changed last.
  ghost predicate Shows(t: Trace, topology: Topology) {
    t != []
    && var init, last := t[..|t| - 1], t[|t| - 1];
       if last.MonitorsAre? then last.topology == topology else Shows(init, topology)
  }

  // The topology a fallback recorded last, until an attempt succeeds.
  ghost function DegradedAt(t: Trace): Option<Topology> {
    if t == [] then None
    else
      match t[|t| - 1]
      case Degraded(topology) => Some(topology)
      case Succeeded(_) => None
      case _ => DegradedAt(t[..|t| - 1])
  }

  // What has become of the attempt that was taken last, as far as the worker counts it.
  datatype Stage = Idle | Trying(ticket: nat) | Lost

  ghost function StageOf(t: Trace): Stage {
    if t == [] then Idle
    else
      match t[|t| - 1]
      case Taken(k) => Trying(k)
      case Failed(_) => Lost
      case Succeeded(_) => Idle
      case FallbackTried => Idle
      case _ => StageOf(t[..|t| - 1])
  }

  // Automatic attempts are allowed until a fallback has recorded its topology, and again
  // after a request taken from the user or a change of topology.
  ghost predicate Open(t: Trace) {
    t == []
    || var init, last := t[..|t| - 1], t[|t| - 1];
       match last
       case Degraded(_) => false
       case TopologyMoved(_) => true
       case Taken(k) => Open(init) || Requested(k) in init || Restored(k) in init
       case _ => Open(init)
  }

  // How many failures in a row, with a scene to recover, the worker has counted without trying the fallback.
  ghost function Streak(t: Trace): nat {
    if t == [] then 0
    else
      var n := Streak(t[..|t| - 1]);
      match t[|t| - 1]
      case Failed(active) => if active then n + 1 else n
      case Succeeded(_) => 0
      case FallbackTried => 0
      case TopologyMoved(_) => 0
      case _ => n
  }

  ghost predicate Legal(t: Trace, e: Event) {
    match e
    case Requested(k) => Superseded(k) !in t
    case Restored(k) => Superseded(k) !in t
    case Superseded(k) => forall g, s :: Stored(g, s, k) !in t
    case MonitorsAre(_) => true
    case Emitted(_, _) => true
    case AutoQueued(k) => Open(t) && Requested(k) !in t && Restored(k) !in t
    case Taken(k) => Superseded(k) !in t && (AutoQueued(k) in t ==> Open(t)) && Streak(t) < 3
    case Prepared(g, s, k, topology) => Above(g, t) && Superseded(k) !in t && Taken(k) in t
    case FallbackSent(g) => Above(g, t)
    case Received(m, g) => Emitted(m, g) in t
    case Sampled(g, topology) => Shows(t, topology)
    case CommitSent(g) =>
      && Received(READY, g) in t && AbortSent(g) !in t && CommitSent(g) !in t
      && (FallbackSent(g) in t || exists s, k :: SameTopology(t, g, s, k, READY))
    case AbortSent(g) => CommitSent(g) !in t && AbortSent(g) !in t && FallbackSent(g) !in t
    case Stored(g, s, k) =>
      SameTopology(t, g, s, k, COMMITTED) && CommitSent(g) in t && Superseded(k) !in t
    case Failed(_) => Streak(t) < 3 && StageOf(t).Trying?
    case Succeeded(k) => StageOf(t) == Trying(k) && exists g, s :: Stored(g, s, k) in t
    case FallbackTried => StageOf(t) != Idle
    case Degraded(topology) => Shows(t, topology)
    case TopologyMoved(topology) =>
      Shows(t, topology) && DegradedAt(t).Some? && DegradedAt(t).value != topology
  }

  ghost predicate IsRun(t: Trace) {
    t == [] || (IsRun(t[..|t| - 1]) && Legal(t[..|t| - 1], t[|t| - 1]))
  }

  lemma {:induction false} PrefixIsRun(t: Trace, i: nat)
    requires IsRun(t) && i <= |t|
    ensures IsRun(t[..i])
  {
    if i < |t| {
      PrefixIsRun(t[..|t| - 1], i);
      assert t[..|t| - 1][..i] == t[..i];
    } else {
      assert t[..i] == t;
    }
  }

  lemma EventIsLegal(t: Trace, i: nat)
    requires IsRun(t) && i < |t|
    ensures Legal(t[..i], t[i])
  {
    PrefixIsRun(t, i + 1);
    assert t[..i + 1][..i] == t[..i];
  }

  // ----- safety of every run ------------------------------------------------------------

  // Each new generation is higher than every earlier one.
  lemma GenerationsIncrease(t: Trace, i: nat, j: nat)
    requires IsRun(t) && i < j < |t|
    requires (t[i].Prepared? || t[i].FallbackSent?) && (t[j].Prepared? || t[j].FallbackSent?)
    ensures Gen(t[i]) < Gen(t[j])
  {
    EventIsLegal(t, j);
    assert t[..j][i] in t[..j];
  }

  // A generation is committed at most once, after the renderer said it was ready, and never both
  // committed and aborted.
  lemma CommitFollowsReady(t: Trace, i: nat)
    requires IsRun(t) && i < |t| && t[i].CommitSent?
    ensures var g := t[i].generation;
            Received(READY, g) in t[..i] && AbortSent(g) !in t
            && forall j :: 0 <= j < |t| && t[j] == CommitSent(g) ==> j == i
  {
    var g := t[i].generation;
    EventIsLegal(t, i);
    forall j | 0 <= j < |t| ensures t[j] != AbortSent(g) && (t[j] == CommitSent(g) ==> j == i) {
      if j < i {
        assert t[..i][j] in t[..i];
      } else if j > i {
        EventIsLegal(t, j);
        assert t[..j][i] in t[..j];
      }
    }
  }

  // Where the message and the reading stand.
  lemma {:induction false} SamplePlace(t: Trace, g: nat, m: Message, topology: Topology) returns (c: nat, n: nat)
    requires SampledAfter(t, g, m, topology)
    ensures c < n < |t| && t[c] == Received(m, g) && t[n] == Sampled(g, topology)
    ensures forall j :: n < j < |t| ==> Gen(t[j]) != g
  {
    var init, last := t[..|t| - 1], t[|t| - 1];
    if Gen(last) == g {
      n := |t| - 1;
      c :| 0 <= c < n && t[c] == Received(m, g);
    } else {
      c, n := SamplePlace(init, g, m, topology);
    }
  }

  // The scene of a generation is committed only after the renderer was ready and the topology, read again
  // after that as the last thing, was the one it was prepared for.
  lemma CommitWasChecked(t: Trace, i: nat) returns (topology: Topology, c: nat, n: nat)
    requires IsRun(t) && i < |t| && t[i].CommitSent? && FallbackSent(t[i].generation) !in t[..i]
    ensures var g := t[i].generation;
            && c < n < i && t[c] == Received(READY, g) && t[n] == Sampled(g, topology)
            && (exists s, k :: Prepared(g, s, k, topology) in t[..i])
            && (forall j :: n < j < i ==> Gen(t[j]) != g)
  {
    var g := t[i].generation;
    EventIsLegal(t, i);
    var s, k :| SameTopology(t[..i], g, s, k, READY);
    topology :| Prepared(g, s, k, topology) in t[..i] && SampledAfter(t[..i], g, READY, topology);
    c, n := SamplePlace(t[..i], g, READY, topology);
  }

  // A scene is stored only once the renderer has committed that generation, prepared for that scene, and
  // the topology, read again after the commit was confirmed and as the last thing, is the one it was
  // prepared for; a fallback is never stored.
  lemma StoredWasCommitted(t: Trace, i: nat) returns (topology: Topology, c: nat, n: nat)
    requires IsRun(t) && i < |t| && t[i].Stored?
    ensures var Stored(g, s, k) := t[i];
            && c < n < i && t[c] == Received(COMMITTED, g) && t[n] == Sampled(g, topology)
            && Prepared(g, s, k, topology) in t[..i] && (forall j :: n < j < i ==> Gen(t[j]) != g)
            && CommitSent(g) in t[..i] && Received(READY, g) in t[..i] && Emitted(COMMITTED, g) in t[..i]
            && FallbackSent(g) !in t
  {
    var Stored(g, s, k) := t[i];
    EventIsLegal(t, i);
    topology :| Prepared(g, s, k, topology) in t[..i] && SampledAfter(t[..i], g, COMMITTED, topology);
    c, n := SamplePlace(t[..i], g, COMMITTED, topology);
    hide IsRun, SampledAfter;
    assert t[..i][c] == t[c] && t[..i][n] == t[n];
    ReceivedWasEmitted(t, c, COMMITTED, g);
    assert forall e :: e in t[..c] ==> e in t[..i];
    CommittedWasReady(t, i, g);
    assert forall e :: e in t[..i] ==> e in t;
    PreparedIsNoFallback(t, Prepared(g, s, k, topology));
  }

  lemma PreparedIsNoFallback(t: Trace, e: Event)
    requires IsRun(t) && e.Prepared? && e in t
    ensures FallbackSent(e.generation) !in t
  {
    var p :| 0 <= p < |t| && t[p] == e;
    if FallbackSent(e.generation) in t {
      var f :| 0 <= f < |t| && t[f] == FallbackSent(e.generation);
      if f < p { GenerationsIncrease(t, f, p); } else { GenerationsIncrease(t, p, f); }
    }
  }

  lemma ReceivedWasEmitted(t: Trace, c: nat, m: Message, g: nat)
    requires IsRun(t) && c < |t| && t[c] == Received(m, g)
    ensures Emitted(m, g) in t[..c]
  {
    EventIsLegal(t, c);
  }

  lemma CommittedWasReady(t: Trace, i: nat, g: nat)
    requires IsRun(t) && i <= |t| && CommitSent(g) in t[..i]
    ensures Received(READY, g) in t[..i]
  {
    var sent :| 0 <= sent < i && t[sent] == CommitSent(g);
    EventIsLegal(t, sent);
    assert forall e :: e in t[..sent] ==> e in t[..i];
  }

  // A request that was superseded is never stored, neither before nor afterwards.
  lemma SupersededIsNeverStored(t: Trace, g: nat, s: SceneId, k: nat)
    requires IsRun(t) && Superseded(k) in t
    ensures Stored(g, s, k) !in t
  {
    var i :| 0 <= i < |t| && t[i] == Superseded(k);
    forall j | 0 <= j < |t| ensures t[j] != Stored(g, s, k) {
      if j < i {
        EventIsLegal(t, i);
        assert t[..i][j] in t[..i];
      } else if j > i {
        EventIsLegal(t, j);
        assert t[..j][i] in t[..j];
      }
    }
  }

  // The worker takes a request of the user, or finds the monitors to be other than a fallback recorded.
  ghost predicate Reopens(t: Trace, m: int)
    requires 0 <= m < |t|
  {
    || (t[m].Taken? && (Requested(t[m].ticket) in t[..m] || Restored(t[m].ticket) in t[..m]))
    || (t[m].TopologyMoved? && Shows(t[..m], t[m].topology)
        && DegradedAt(t[..m]).Some? && DegradedAt(t[..m]).value != t[m].topology)
  }

  // Once a fallback has recorded its topology, the worker tries nothing of its own accord until then.
  lemma {:induction false} ClosedUntilReopened(t: Trace, i: nat, j: nat) returns (m: nat)
    requires IsRun(t) && i < j <= |t| && t[i].Degraded? && Open(t[..j])
    ensures i < m < j && Reopens(t, m)
    decreases j
  {
    assert t[..j][..j - 1] == t[..j - 1] && t[..j][j - 1] == t[j - 1];
    if i < j - 1 && Open(t[..j - 1]) {
      m := ClosedUntilReopened(t, i, j - 1);
    } else {
      m := j - 1;
      EventIsLegal(t, m);
    }
  }

  // The fallback that recorded a topology, no earlier than one before it.
  lemma {:induction false} RecordedBy(t: Trace, m: nat, i: nat) returns (d: nat)
    requires i < m <= |t| && t[i].Degraded? && DegradedAt(t[..m]).Some?
    ensures i <= d < m && t[d] == Degraded(DegradedAt(t[..m]).value)
    decreases m
  {
    assert t[..m][..m - 1] == t[..m - 1] && t[..m][m - 1] == t[m - 1];
    if t[m - 1].Degraded? { d := m - 1; } else { d := RecordedBy(t, m - 1, i); }
  }

  lemma {:induction false} ShowsOne(t: Trace, one: Topology, other: Topology)
    requires Shows(t, one) && Shows(t, other)
    ensures one == other
  {
    if !t[|t| - 1].MonitorsAre? { ShowsOne(t[..|t| - 1], one, other); }
  }

  // Monitors that are not any more what they were have changed in between.
  lemma {:induction false} ChangedBetween(t: Trace, d: nat, m: nat, was: Topology, now: Topology) returns (n: nat)
    requires d < m <= |t| && Shows(t[..d], was) && Shows(t[..m], now) && was != now
    ensures d <= n < m && t[n] == MonitorsAre(now)
    decreases m
  {
    assert t[..m][..m - 1] == t[..m - 1] && t[..m][m - 1] == t[m - 1];
    n := m - 1;
    if !t[n].MonitorsAre? {
      if d == n { ShowsOne(t[..d], was, now); }
      n := ChangedBetween(t, d, n, was, now);
    }
  }

  // Between a fallback that recorded its topology and the next automatic attempt the worker took a
  // request of the user, or the monitors changed and it noticed.
  lemma AutomaticOnlyWhenOpen(t: Trace, i: nat, j: nat) returns (m: nat, n: nat)
    requires IsRun(t) && i < j < |t| && t[i].Degraded?
    requires t[j].AutoQueued? || (t[j].Taken? && AutoQueued(t[j].ticket) in t[..j])
    ensures i < m < j && Reopens(t, m)
    ensures t[m].TopologyMoved? ==> i < n < m && t[n] == MonitorsAre(t[m].topology)
  {
    EventIsLegal(t, j);
    m := ClosedUntilReopened(t, i, j);
    n := 0;
    if t[m].TopologyMoved? {
      var d := RecordedBy(t, m, i);
      EventIsLegal(t, d);
      n := ChangedBetween(t, d, m, t[d].topology, t[m].topology);
    }
  }

  // At most three failures in a row come before the fallback is tried.
  lemma {:induction false} AtMostThreeFailures(t: Trace)
    requires IsRun(t)
    ensures Streak(t) <= 3
  {
    if t != [] {
      AtMostThreeFailures(t[..|t| - 1]);
    }
  }

  // What ends a row of failures: the attempt taken last was stored, or is given up for the fallback, or the
  // monitors are not any more what the fallback recorded.
  ghost predicate EndsRow(t: Trace, m: int)
    requires 0 <= m < |t|
  {
    match t[m]
    case Succeeded(k) => StageOf(t[..m]) == Trying(k) && exists g, s :: Stored(g, s, k) in t[..m]
    case FallbackTried => StageOf(t[..m]) != Idle
    case TopologyMoved(k) => Shows(t[..m], k) && DegradedAt(t[..m]).Some? && DegradedAt(t[..m]).value != k
    case _ => false
  }

  // A row of failures only gets shorter where it ends.
  lemma {:induction false} RowsEnd(t: Trace, i: nat, j: nat) returns (m: nat)
    requires IsRun(t) && i < j <= |t| && Streak(t[..j]) < Streak(t[..i])
    ensures i <= m < j && EndsRow(t, m)
    decreases j
  {
    assert t[..j][..j - 1] == t[..j - 1] && t[..j][j - 1] == t[j - 1];
    if i < j - 1 && Streak(t[..j - 1]) < Streak(t[..i]) {
      m := RowsEnd(t, i, j - 1);
    } else {
      m := j - 1;
      EventIsLegal(t, m);
    }
  }

  // Each attempt that was taken succeeds, or fails and is given up for the fallback, at most once: between
  // two such events another is taken.
  lemma {:induction false} OneEndPerAttempt(t: Trace, i: nat, j: nat) returns (m: nat)
    requires IsRun(t) && i < j < |t|
    requires (t[i].Succeeded? || t[i].FallbackTried?) && (t[j].Succeeded? || t[j].FallbackTried? || t[j].Failed?)
    ensures i < m < j && t[m].Taken?
  {
    EventIsLegal(t, j);
    m := TakenSince(t, i, j);
  }

  lemma {:induction false} TakenSince(t: Trace, i: nat, j: nat) returns (m: nat)
    requires i < j <= |t| && (t[i].Succeeded? || t[i].FallbackTried?) && StageOf(t[..j]) != Idle && IsRun(t)
    ensures i < m < j && t[m].Taken?
    decreases j
  {
    assert t[..j][..j - 1] == t[..j - 1] && t[..j][j - 1] == t[j - 1];
    if t[j - 1].Taken? {
      m := j - 1;
    } else {
      EventIsLegal(t, j - 1);
      m := TakenSince(t, i, j - 1);
    }
  }
}
