/**
  Visual settings with receipts.  A client sends a write that carries (source, token, serial);
  the compositor accepts it only if source and serial are its own, and then raises the serial.
  The reply may be lost and the write may arrive late, twice, or never.
*/
module VisualReceipts {
  import opened Wrappers

  // ----- the compositor ------------------------------------------------------------------

  datatype Intensity = Finite(value: real) | NotFinite
  datatype Settings = Settings(schemaVersion: nat, preset: string, enabled: bool, breathing: bool, intensity: Intensity)
  datatype Recovery = NoRecovery | MalformedRecovery | SchemaRecovery | PresetRecovery | IntensityRecovery
  // Tokens of one client are random; those of every other writer are told apart from them.
  datatype Token = NoToken | Own(n: nat) | Foreign(n: nat)
  datatype Receipt = Receipt(source: nat, token: Token, serial: nat)
  // What is asked for, unless it cannot be read.
  datatype Write = Write(request: Option<Settings>, receipt: Receipt)

  const DEFAULT := Settings(1, "balanced", true, true, Finite(0.42))
  const MAX_COUNTER := 0xFFFF_FFFF_FFFF_FFFF

  datatype Compositor = Compositor(
    source: nat, serial: nat, token: Token, revision: nat, configured: bool,
    recovery: Recovery, settings: Settings, rendererSchema: nat, hasReceipts: bool)

  predicate Normalized(s: Settings) {
    s.schemaVersion == 1 && s.preset == "balanced" && s.intensity.Finite? && 0.0 <= s.intensity.value <= 3.0
  }

  predicate IsReadable(request: Option<Settings>) {
    && request.Some? && request.value.schemaVersion == 1 && request.value.preset == "balanced"
    && request.value.intensity.Finite?
  }

  // What is stored for a request, and why it was replaced if it was.
  function Resolve(request: Option<Settings>): (r: (Settings, Recovery))
    ensures Normalized(r.0)
    ensures r.1 == NoRecovery <==> IsReadable(request)
    ensures request.Some? && Normalized(request.value) ==> r == (request.value, NoRecovery)
    ensures r.1 == NoRecovery ==>
      && r.0.(intensity := request.value.intensity) == request.value
      && forall x: real :: 0.0 <= x <= 3.0 ==>
           Distance(r.0.intensity.value, request.value.intensity.value) <= Distance(x, request.value.intensity.value)
    ensures r.1 != NoRecovery ==> r.0 == DEFAULT
  {
    match request
    case None => (DEFAULT, MalformedRecovery)
    case Some(s) =>
      if s.schemaVersion != 1 then (DEFAULT, SchemaRecovery)
      else if s.preset != "balanced" then (DEFAULT, PresetRecovery)
      else if s.intensity.NotFinite? then (DEFAULT, IntensityRecovery)
      else
        var asked := s.intensity.value;
        (s.(intensity := Finite(if asked < 0.0 then 0.0 else if asked > 3.0 then 3.0 else asked)), NoRecovery)
  }

  function Distance(x: real, y: real): real {
    if x < y then y - x else x - y
  }

  predicate Matches(c: Compositor, r: Receipt) {
    c.hasReceipts && r.source == c.source && r.serial == c.serial && r.token != NoToken
  }

  function Store(c: Compositor, request: Option<Settings>, token: Token): Option<Compositor> {
    var (settings, recovery) := Resolve(request);
    var changed := !c.configured || settings != c.settings;
    if c.serial >= MAX_COUNTER || (changed && c.revision >= MAX_COUNTER) then None
    else Some(c.(serial := c.serial + 1, token := token, settings := settings, recovery := recovery,
                 configured := true, revision := if changed then c.revision + 1 else c.revision))
  }

  function Accept(c: Compositor, w: Write): Option<Compositor> {
    if Matches(c, w.receipt) then Store(c, w.request, w.receipt.token) else None
  }

  // ----- the compositor among everything that happens to it --------------------------------

  // A write that took effect, with the settings before and after it.
  datatype Entry = Entry(receipt: Receipt, before: Settings, after: Settings)

  // flight holds every write ever sent: any of them may be delivered at any time, and again.
  datatype World = World(comp: Compositor, sources: set<nat>, flight: set<Write>, log: seq<Entry>)

  datatype Action =
    | Deliver(write: Write)
    | OtherWrite(request: Option<Settings>, n: nat, source: nat, serial: nat)
    | PlainWrite(request: Option<Settings>)
    | Restart(source: nat, rendererSchema: nat, hasReceipts: bool)

  function DeliverWrite(w: World, write: Write): World {
    match Accept(w.comp, write)
    case None => w
    case Some(c) => w.(comp := c, log := w.log + [Entry(write.receipt, w.comp.settings, c.settings)])
  }

  function Step(w: World, a: Action): World {
    match a
    case Deliver(write) => if write in w.flight then DeliverWrite(w, write) else w
    case OtherWrite(s, n, source, serial) => DeliverWrite(w, Write(s, Receipt(source, Foreign(n), serial)))
    case PlainWrite(s) =>
      (match Store(w.comp, s, NoToken)
       case None => w
       case Some(c) => w.(comp := c))
    case Restart(source, rendererSchema, hasReceipts) =>
      if source in w.sources then w  // sources are random and never reused
      else w.(comp := Compositor(source, 0, NoToken, 0, false, NoRecovery, DEFAULT, rendererSchema, hasReceipts),
              sources := w.sources + {source})
  }

  function Run(w: World, actions: seq<Action>): World
    decreases |actions|
  {
    if actions == [] then w else Run(Step(w, actions[0]), actions[1..])
  }

  // ----- what holds of every world ----------------------------------------------------------

  ghost predicate TokensAreUnique(flight: set<Write>) {
    && (forall x :: x in flight ==> x.receipt.token.Own?)
    && forall x, y :: x in flight && y in flight && x.receipt.token == y.receipt.token ==> x == y
  }

  ghost predicate Earlier(r: Receipt, c: Compositor) {
    r.source == c.source ==> r.serial < c.serial
  }

  ghost predicate NotAhead(r: Receipt, c: Compositor) {
    r.source == c.source ==> r.serial <= c.serial
  }

  // What was ever sent has tokens of its own and is not ahead of the compositor.
  ghost predicate FlightOk(flight: set<Write>, sources: set<nat>, c: Compositor) {
    TokensAreUnique(flight) && forall x :: x in flight ==> x.receipt.source in sources && NotAhead(x.receipt, c)
  }

  // What took effect did so earlier, in the order of the serials.
  ghost predicate LogOk(log: seq<Entry>, sources: set<nat>, c: Compositor) {
    && (forall e :: e in log ==> e.receipt.source in sources && Earlier(e.receipt, c))
    && (forall i, j :: 0 <= i < j < |log| && log[i].receipt.source == log[j].receipt.source ==>
          log[i].receipt.serial < log[j].receipt.serial)
  }

  // What took effect with a token of the client was sent by it.
  ghost predicate LogIsSent(log: seq<Entry>, flight: set<Write>) {
    forall e :: e in log && e.receipt.token.Own? ==> exists x :: x in flight && x.receipt == e.receipt
  }

  // A token that is shown is the one of the last effect.
  ghost predicate LastOk(log: seq<Entry>, c: Compositor) {
    c.token != NoToken ==>
      && log != [] && c.serial > 0
      && var last := log[|log| - 1];
         last.receipt == Receipt(c.source, c.token, c.serial - 1) && last.after == c.settings
  }

  ghost predicate Good(w: World) {
    && w.comp.source in w.sources && Normalized(w.comp.settings)
    && FlightOk(w.flight, w.sources, w.comp) && LogOk(w.log, w.sources, w.comp)
    && LogIsSent(w.log, w.flight) && LastOk(w.log, w.comp)
  }

  // A write that no longer matches the compositor it was meant for.
  ghost predicate Dead(write: Write, c: Compositor) {
    Earlier(write.receipt, c)
  }

  // v came before w: serials never fall, and one (source, serial) has one content.
  ghost predicate Follows(v: World, w: World) {
    && v.sources <= w.sources && v.flight <= w.flight
    && |v.log| <= |w.log| && w.log[..|v.log|] == v.log
    && (if w.comp.source == v.comp.source
        then w.comp.serial >= v.comp.serial && (w.comp.serial == v.comp.serial ==> w.comp == v.comp)
        else w.comp.source !in v.sources)
  }

  lemma FollowsTransitive(u: World, v: World, w: World)
    requires Follows(u, v) && Follows(v, w) && Good(u) && Good(v)
    ensures Follows(u, w)
  {
    assert w.log[..|u.log|] == w.log[..|v.log|][..|u.log|];
  }

  lemma LaterIsFurther(flight: set<Write>, sources: set<nat>, c: Compositor, d: Compositor)
    requires FlightOk(flight, sources, c) && d.source == c.source && d.serial >= c.serial
    ensures FlightOk(flight, sources, d)
  {
  }

  lemma LogGrows(log: seq<Entry>, sources: set<nat>, c: Compositor, d: Compositor, e: Entry)
    requires LogOk(log, sources, c) && c.source in sources && d.source == c.source && d.serial == c.serial + 1
    requires e.receipt.source == c.source && e.receipt.serial == c.serial
    ensures LogOk(log + [e], sources, d)
  {
    var after := log + [e];
    forall i, j | 0 <= i < j < |after| && after[i].receipt.source == after[j].receipt.source
      ensures after[i].receipt.serial < after[j].receipt.serial
    {
      assert after[i] in log && Earlier(after[i].receipt, c);
    }
  }

  lemma SentLogGrows(log: seq<Entry>, flight: set<Write>, e: Entry)
    requires LogIsSent(log, flight) && (e.receipt.token.Own? ==> exists x :: x in flight && x.receipt == e.receipt)
    ensures LogIsSent(log + [e], flight)
  {
  }

  lemma DeliverIsGood(w: World, write: Write)
    requires Good(w) && (write.receipt.token.Own? ==> write in w.flight)
    ensures Good(DeliverWrite(w, write)) && Follows(w, DeliverWrite(w, write))
    ensures DeliverWrite(w, write).flight == w.flight
  {
    hide FlightOk, LogOk, LogIsSent;
    if Accept(w.comp, write).Some? {
      var next := DeliverWrite(w, write);
      LaterIsFurther(w.flight, w.sources, w.comp, next.comp);
      LogGrows(w.log, w.sources, w.comp, next.comp, next.log[|w.log|]);
      SentLogGrows(w.log, w.flight, next.log[|w.log|]);
    }
  }

  lemma LaterStoreIsGood(w: World, s: Option<Settings>)
    requires Good(w)
    ensures Good(Step(w, PlainWrite(s)))
  {
    if Store(w.comp, s, NoToken).Some? {
      LaterIsFurther(w.flight, w.sources, w.comp, Store(w.comp, s, NoToken).value);
    }
  }

  lemma StepIsGood(w: World, a: Action)
    requires Good(w)
    ensures Good(Step(w, a)) && Follows(w, Step(w, a)) && Step(w, a).flight == w.flight
  {
    match a
    case Deliver(write) => if write in w.flight { DeliverIsGood(w, write); }
    case OtherWrite(s, n, source, serial) => DeliverIsGood(w, Write(s, Receipt(source, Foreign(n), serial)));
    case PlainWrite(s) => LaterStoreIsGood(w, s);
    case Restart(source, rendererSchema, hasReceipts) =>
  }

  lemma {:induction false} RunIsGood(w: World, actions: seq<Action>)
    requires Good(w)
    ensures Good(Run(w, actions)) && Follows(w, Run(w, actions)) && Run(w, actions).flight == w.flight
    decreases |actions|
  {
    if actions != [] {
      StepIsGood(w, actions[0]);
      RunIsGood(Step(w, actions[0]), actions[1..]);
      FollowsTransitive(w, Step(w, actions[0]), Run(w, actions));
    }
  }

  // ----- safety of every run -----------------------------------------------------------------

  // Each of the client's writes takes effect at most once, however often it is delivered.
  lemma AppliedAtMostOnce(w: World)
    requires Good(w)
    ensures forall i, j :: 0 <= i < j < |w.log| && w.log[i].receipt.token.Own? ==>
      w.log[i].receipt.token != w.log[j].receipt.token
  {
    forall i, j | 0 <= i < j < |w.log| && w.log[i].receipt.token.Own?
      ensures w.log[i].receipt.token != w.log[j].receipt.token
    {
      assert w.log[i] in w.log && w.log[j] in w.log;
    }
  }

  ghost predicate TookEffect(w: World, token: Token) {
    exists e :: e in w.log && e.receipt.token == token
  }

  // Once a write is dead it cannot take effect any more, whatever happens later.
  lemma {:induction false} DeadNeverApplies(w: World, write: Write, actions: seq<Action>)
    requires Good(w) && write in w.flight && Dead(write, w.comp)
    ensures Dead(write, Run(w, actions).comp)
    ensures TookEffect(Run(w, actions), write.receipt.token) ==> TookEffect(w, write.receipt.token)
    decreases |actions|
  {
    if actions != [] {
      var next := Step(w, actions[0]);
      StepIsGood(w, actions[0]);
      DeadNeverApplies(next, write, actions[1..]);
    }
  }

  // A fence repeats the settings it found: while it can still win it writes what is already
  // there, and when it has won it has left the settings as they were.
  ghost predicate Harmless(w: World, fences: set<Write>) {
    && fences <= w.flight
    && (forall f :: f in fences ==> Dead(f, w.comp) || f.request == Some(w.comp.settings))
    && forall f, e :: f in fences && e in w.log && e.receipt == f.receipt ==> e.before == e.after
  }

  lemma DeliverStaysHarmless(w: World, write: Write, fences: set<Write>)
    requires Good(w) && Harmless(w, fences) && (write.receipt.token.Own? ==> write in w.flight)
    ensures Harmless(DeliverWrite(w, write), fences)
  {
    var next := DeliverWrite(w, write);
    forall f, e | f in fences && e in next.log && e.receipt == f.receipt ensures e.before == e.after {
      if e !in w.log {
        assert write == f;
      }
    }
  }

  lemma StepStaysHarmless(w: World, a: Action, fences: set<Write>)
    requires Good(w) && Harmless(w, fences)
    ensures Harmless(Step(w, a), fences)
  {
    match a
    case Deliver(write) => if write in w.flight { DeliverStaysHarmless(w, write, fences); }
    case OtherWrite(s, n, source, serial) =>
      DeliverStaysHarmless(w, Write(s, Receipt(source, Foreign(n), serial)), fences);
    case PlainWrite(s) =>
    case Restart(source, rendererSchema, hasReceipts) =>
  }

  lemma {:induction false} FencesStayHarmless(w: World, actions: seq<Action>, fences: set<Write>)
    requires Good(w) && Harmless(w, fences)
    ensures Harmless(Run(w, actions), fences)
    decreases |actions|
  {
    if actions != [] {
      StepIsGood(w, actions[0]);
      StepStaysHarmless(w, actions[0], fences);
      FencesStayHarmless(Step(w, actions[0]), actions[1..], fences);
    }
  }

  // As long as the compositor still shows the same source and serial, nothing has changed there.
  lemma SameSerialSameState(w: World, actions: seq<Action>)
    requires Good(w)
    ensures var c := Run(w, actions).comp;
            c.source == w.comp.source && c.serial == w.comp.serial ==> c == w.comp
  {
    RunIsGood(w, actions);
  }

  // ----- the client ---------------------------------------------------------------------------

  // How one call to the compositor goes: what happens before it, whether it arrives, whether
  // the answer gets back, and what happens afterwards.
  datatype Turn = Turn(before: seq<Action>, arrives: bool, answered: bool, after: seq<Action>)

  // A call that meets nothing and nobody.
  const CALM := Turn([], true, true, [])

  predicate AreCalm(turns: seq<Turn>, n: nat) {
    n <= |turns| && forall i :: 0 <= i < n ==> turns[i] == CALM
  }

  function FirstOf(turns: seq<Turn>): Turn {
    if turns == [] then Turn([], false, false, []) else turns[0]
  }

  function RestOf(turns: seq<Turn>): seq<Turn> {
    if turns == [] then [] else turns[1..]
  }

  // The compositor can still take a change.
  predicate IsOpen(c: Compositor) {
    c.hasReceipts && c.serial < MAX_COUNTER && c.revision < MAX_COUNTER
  }

  predicate IsReady(c: Compositor) {
    IsOpen(c) && c.rendererSchema == 1
  }

  datatype Outcome = Invalid | Unavailable | CompletionUnknown | Applied(view: Compositor)
  datatype Verdict = Pending | Complete | Superseded | Unreadable

  ghost predicate TokensBelow(flight: set<Write>, n: nat) {
    forall x :: x in flight ==> x.receipt.token.Own? && x.receipt.token.n < n
  }

  // At most one change can still take effect, and then the client knows that it is uncertain.
  ghost predicate OneOpen(requests: set<Write>, request: Option<Write>, uncertain: bool, c: Compositor) {
    && (request.Some? ==> request.value in requests)
    && (uncertain ==> request.Some?)
    && forall x :: x in requests ==> Dead(x, c) || (uncertain && Some(x) == request)
  }

  lemma FlightGrows(flight: set<Write>, sources: set<nat>, c: Compositor, write: Write, n: nat)
    requires FlightOk(flight, sources, c) && TokensBelow(flight, n) && write.receipt.token == Own(n)
    requires write.receipt.source in sources && NotAhead(write.receipt, c)
    ensures FlightOk(flight + {write}, sources, c) && TokensBelow(flight + {write}, n + 1) && write !in flight
    ensures forall x :: x in flight ==> x.receipt != write.receipt
  {
  }

  lemma StillSent(log: seq<Entry>, flight: set<Write>, more: set<Write>)
    requires LogIsSent(log, flight) && flight <= more
    ensures LogIsSent(log, more)
  {
    forall e | e in log && e.receipt.token.Own? ensures exists x :: x in more && x.receipt == e.receipt {
      var x :| x in flight && x.receipt == e.receipt;
      assert x in more;
    }
  }

  lemma LaunchIsGood(w: World, write: Write, n: nat, next: World)
    requires Good(w) && TokensBelow(w.flight, n) && write.receipt.token == Own(n)
    requires write.receipt.source in w.sources && NotAhead(write.receipt, w.comp)
    requires next == w.(flight := w.flight + {write})
    ensures Good(next) && Follows(w, next) && TokensBelow(next.flight, n + 1) && write !in w.flight
    ensures forall e :: e in w.log ==> e.receipt != write.receipt
  {
    FlightGrows(w.flight, w.sources, w.comp, write, n);
    StillSent(w.log, w.flight, next.flight);
    forall e | e in w.log ensures e.receipt != write.receipt {
      if e.receipt.token.Own? {
        var x :| x in w.flight && x.receipt == e.receipt;
      }
    }
    hide FlightOk, LogOk, LogIsSent, LastOk, TokensBelow;
    assert Good(next);
  }

  lemma FollowsItself(w: World)
    ensures Follows(w, w)
  {
  }

  lemma ShownIsBehind(seen: World, w: World)
    requires Good(seen) && Follows(seen, w)
    ensures seen.comp.source in w.sources && NotAhead(Receipt(seen.comp.source, NoToken, seen.comp.serial), w.comp)
  {
  }

  // What became of the open change is settled.
  lemma Settled(requests: set<Write>, request: Option<Write>, c: Compositor)
    requires OneOpen(requests, request, true, c) && Dead(request.value, c)
    ensures OneOpen(requests, request, false, c)
  {
  }

  class HyprlandClient {
    var world: World
    var turns: seq<Turn>
    var nextToken: nat
    var request: Option<Write>
    var uncertain: bool
    ghost var requests: set<Write>  // every settings change ever sent
    ghost var fences: set<Write>    // every fence ever sent

    ghost predicate Valid()
      reads this
    {
      && Good(world)
      && world.flight == requests + fences && requests !! fences
      && TokensBelow(world.flight, nextToken)
      && OneOpen(requests, request, uncertain, world.comp)
      && Harmless(world, fences)
    }

    constructor (world: World, turns: seq<Turn>)
      requires Good(world) && world.flight == {}
      ensures Valid() && !uncertain && request == None && requests == {} && fences == {}
    {
      this.world, this.turns := world, turns;
      nextToken, request, uncertain := 0, None, false;
      requests, fences := {}, {};
    }

    method NextTurn() returns (turn: Turn)
      modifies this`turns
      ensures turn == FirstOf(old(turns)) && turns == RestOf(old(turns))
    {
      turn, turns := FirstOf(turns), RestOf(turns);
    }

    // The world moves on; the client waits.
    method Pass(actions: seq<Action>)
      requires Valid()
      modifies this`world
      ensures Valid() && world == Run(old(world), actions) && Follows(old(world), world)
    {
      RunIsGood(world, actions);
      FencesStayHarmless(world, actions, fences);
      world := Run(world, actions);
    }

    method Read() returns (view: Option<Compositor>, ghost seen: World)
      requires Valid()
      modifies this`world, this`turns
      ensures Valid() && world.flight == seen.flight == old(world).flight && Seen(old(world), seen, world)
      ensures turns == RestOf(old(turns))
      ensures seen == Run(old(world), FirstOf(old(turns)).before) && world == Run(seen, FirstOf(old(turns)).after)
      ensures view == if FirstOf(old(turns)).answered then Some(seen.comp) else None
    {
      var turn := NextTurn();
      Pass(turn.before);
      view := if turn.answered then Some(world.comp) else None;
      seen := world;
      Pass(turn.after);
      FollowsTransitive(old(world), seen, world);
    }

    // Prepares a write under a fresh token and puts it on its way.
    method Launch(settings: Settings, source: nat, serial: nat, fence: bool) returns (write: Write)
      requires Valid()
      requires source in world.sources && NotAhead(Receipt(source, NoToken, serial), world.comp)
      requires if fence
               then source == world.comp.source && serial == world.comp.serial ==> settings == world.comp.settings
               else !uncertain
      modifies this`world, this`nextToken, this`request, this`uncertain, this`requests, this`fences
      ensures Valid() && Follows(old(world), world)
      ensures world == old(world).(flight := old(world).flight + {write})
      ensures write.request == Some(settings) && write.receipt.source == source && write.receipt.serial == serial
      ensures write.receipt.token == Own(old(nextToken)) && write !in old(world).flight
      ensures if fence
              then fences == old(fences) + {write} && requests == old(requests)
                   && request == old(request) && uncertain == old(uncertain)
              else requests == old(requests) + {write} && fences == old(fences)
                   && request == Some(write) && uncertain
    {
      write := Write(Some(settings), Receipt(source, Own(nextToken), serial));
      nextToken := nextToken + 1;
      if fence {
        fences := fences + {write};
      } else {
        request := Some(write);
        uncertain := true;
        requests := requests + {write};
      }
      LaunchIsGood(world, write, nextToken - 1, world.(flight := world.flight + {write}));
      world := world.(flight := world.flight + {write});
    }

    // Carries one write to the compositor, if it gets there, and its answer back, if that does.
    method Exchange(write: Write) returns (reply: Option<Compositor>, ghost seen: World)
      requires Valid() && write in world.flight
      modifies this`world, this`turns
      ensures Valid() && world.flight == seen.flight == old(world).flight && Seen(old(world), seen, world)
      ensures turns == RestOf(old(turns))
      ensures var turn, met := FirstOf(old(turns)), Run(old(world), FirstOf(old(turns)).before);
              && seen == (if turn.arrives then Step(met, Deliver(write)) else met) && world == Run(seen, turn.after)
              && reply == (if turn.arrives && turn.answered && Accept(met.comp, write).Some? then Some(seen.comp)
                           else None)
    {
      var turn := NextTurn();
      Pass(turn.before);
      reply := None;
      if turn.arrives {
        var accepted := Accept(world.comp, write);
        ghost var before := world;
        Pass([Deliver(write)]);
        FollowsTransitive(old(world), before, world);
        if turn.answered && accepted.Some? {
          reply := Some(world.comp);
        }
      }
      seen := world;
      Pass(turn.after);
      FollowsTransitive(old(world), seen, world);
    }

    // Puts one change on its way, for what was read.
    method Transmit(settings: Settings, shown: Compositor)
      returns (write: Write, reply: Option<Compositor>, ghost seen: World)
      requires Valid() && !uncertain
      requires shown.source in world.sources && NotAhead(Receipt(shown.source, NoToken, shown.serial), world.comp)
      modifies this
      ensures Valid() && Seen(old(world), seen, world) && fences == old(fences)
      ensures request == Some(write) && uncertain && write.request == Some(settings) && write in seen.flight
      ensures requests == old(requests) + {write} && write !in old(requests)
      ensures reply.Some? ==> reply.value == seen.comp
      ensures AreCalm(old(turns), 1) && IsReady(shown) && shown == old(world).comp && Normalized(settings) ==>
        reply == Some(world.comp) && Acknowledges(world.comp, write) && turns == old(turns)[1..]
    {
      write := Launch(settings, shown.source, shown.serial, false);
      ghost var launched := world;
      reply, seen := Exchange(write);
      FollowsTransitive(old(world), launched, seen);
    }

    // Sends one change, if it may be sent.
    method SendChange(settings: Settings) returns (write: Option<Write>, reply: Option<Compositor>, ghost seen: World)
      requires Valid() && !uncertain
      modifies this
      ensures Valid() && Seen(old(world), seen, world) && fences == old(fences)
      ensures write == None ==> requests == old(requests) && !uncertain && reply == None
      ensures write.Some? ==>
        request == write && uncertain && write.value.request == Some(settings) && write.value in seen.flight
        && requests == old(requests) + {write.value} && write.value !in old(requests)
      ensures reply.Some? ==> reply.value == seen.comp
      ensures AreCalm(old(turns), 2) && IsReady(old(world).comp) && Normalized(settings) ==>
        write.Some? && reply == Some(world.comp) && Acknowledges(world.comp, write.value) && turns == old(turns)[2..]
    {
      hide Good, Follows, Harmless, TokensBelow, OneOpen, Acknowledges, NotAhead;
      FollowsItself(world);
      write, reply := None, None;
      var before;
      before, seen := Read();
      if before.Some? && before.value.rendererSchema == 1 && before.value.hasReceipts {
        ghost var read := world;
        ShownIsBehind(seen, read);
        FollowsTransitive(old(world), seen, read);
        var sent;
        sent, reply, seen := Transmit(settings, before.value);
        FollowsTransitive(old(world), read, seen);
        write := Some(sent);
      }
    }

    // Waits until the answer and the read-back agree that this very write took effect.
    method Confirm(write: Write, applied: Option<Compositor>) returns (outcome: Outcome)
      requires Valid() && uncertain && request == Some(write) && write in world.flight
      modifies this`world, this`turns, this`uncertain
      ensures Valid() && Follows(old(world), world) && world.flight == old(world).flight
      ensures outcome.Applied? || outcome.CompletionUnknown?
      ensures uncertain <==> outcome.CompletionUnknown?
      ensures outcome.Applied? ==> Confirmed(write, world) && Some(outcome.view.settings) == write.request
      ensures applied == Some(old(world).comp) && Acknowledges(old(world).comp, write) && AreCalm(old(turns), 1) ==>
        outcome.Applied?
    {
      hide Good, Follows, Harmless, OneOpen, TokensBelow, Confirmed;
      FollowsItself(world);
      outcome := CompletionUnknown;
      if applied.Some? && Acknowledges(applied.value, write) {
        var observed;
        ghost var seen;
        observed, seen := Read();
        FollowsTransitive(old(world), seen, world);
        if observed == applied {
          EffectIsConfirmed(seen, write, world);
          ConfirmedIsDead(write, world);
          Settled(requests, request, world.comp);
          uncertain := false;
          outcome := Applied(observed.value);
        }
      }
    }

    // Sends one change and checks that it was the one that took effect.
    method ApplyVisualSettings(settings: Settings) returns (outcome: Outcome)
      requires Valid()
      modifies this
      ensures Valid() && Follows(old(world), world) && fences == old(fences)
      ensures outcome.Invalid? <==> !Normalized(settings)
      ensures outcome.Invalid? || old(uncertain) ==>
        world == old(world) && requests == old(requests) && request == old(request) && uncertain == old(uncertain)
      ensures Normalized(settings) ==> (uncertain <==> outcome.CompletionUnknown?)
      ensures outcome.Unavailable? ==> requests == old(requests)
      ensures requests != old(requests) ==>
        request.Some? && requests == old(requests) + {request.value} && request.value !in old(requests)
        && request.value.request == Some(settings)
      ensures outcome.Applied? ==>
        requests != old(requests) && Confirmed(request.value, world) && outcome.view.settings == settings
      ensures Normalized(settings) && !old(uncertain) && AreCalm(old(turns), 3) && IsReady(old(world).comp) ==>
        outcome.Applied?
    {
      if !Normalized(settings) {
        return Invalid;
      }
      if uncertain {
        return CompletionUnknown;
      }
      var write, applied;
      ghost var seen;
      write, applied, seen := SendChange(settings);
      FollowsTransitive(old(world), seen, world);
      outcome := Unavailable;
      if write.Some? {
        ghost var w := world;
        outcome := Confirm(write.value, applied);
        FollowsTransitive(old(world), w, world);
      }
    }

    // Sends a fence, whatever comes of it.
    method SendFence(shown: Compositor, ghost before: World)
      requires Valid() && Good(before) && shown == before.comp && Follows(before, world)
      modifies this`world, this`turns, this`nextToken, this`request, this`uncertain, this`requests, this`fences
      ensures Valid() && Follows(old(world), world) && turns == RestOf(old(turns))
      ensures requests == old(requests) && request == old(request) && uncertain == old(uncertain)
      ensures old(fences) <= fences
      ensures AreCalm(old(turns), 1) && IsOpen(shown) && shown == old(world).comp ==>
        world.comp.source == shown.source && world.comp.serial == shown.serial + 1
    {
      var write := Launch(shown.settings, shown.source, shown.serial, true);
      ghost var w := world;
      if IsOpen(w.comp) && shown == w.comp { OpenTakesMatching(w, write); }
      var _, answered := Exchange(write);
      FollowsTransitive(w, answered, world);
      FollowsTransitive(old(world), w, world);
    }

    // Writes back what the compositor shows, so that nothing older can win any more, and looks again.
    method Fence(shown: Compositor, ghost before: World) returns (state: Option<Compositor>, ghost seen: World)
      requires Valid() && Good(before) && shown == before.comp && Follows(before, world)
      modifies this`world, this`turns, this`nextToken, this`request, this`uncertain, this`requests, this`fences
      ensures Valid() && Seen(old(world), seen, world)
      ensures requests == old(requests) && request == old(request) && uncertain == old(uncertain)
      ensures old(fences) <= fences
      ensures state.Some? ==> state.value == seen.comp
      ensures AreCalm(old(turns), 2) && IsOpen(shown) && shown == old(world).comp ==>
        state.Some? && state.value.source == shown.source && state.value.serial == shown.serial + 1
    {
      SendFence(shown, before);
      ghost var w := world;
      state, seen := Read();
      FollowsTransitive(old(world), w, seen);
      FollowsTransitive(old(world), seen, world);
    }

    // A fence, if the compositor still stands where the write was meant to find it.
    method FenceIfOpen(first: Compositor, write: Write, fence: bool, ghost before: World)
      returns (state: Option<Compositor>, ghost seen: World)
      requires Valid() && Good(before) && first == before.comp && Follows(before, world) && write in before.flight
      modifies this`world, this`turns, this`nextToken, this`request, this`uncertain, this`requests, this`fences
      ensures Valid() && Seen(before, seen, world) && Follows(old(world), world)
      ensures requests == old(requests) && request == old(request) && uncertain == old(uncertain)
      ensures old(fences) <= fences && (!fence ==> fences == old(fences))
      ensures state.Some? ==> state.value == seen.comp
      ensures !fence ==> state == Some(first)
      ensures fence && AreCalm(old(turns), 2) && IsOpen(first) && first == old(world).comp ==>
        state.Some? && VerdictOn(state.value, write) != Pending
    {
      state, seen := Some(first), before;
      if fence && first.source == write.receipt.source && first.serial == write.receipt.serial {
        ghost var w := world;
        state, seen := Fence(first, before);
        FollowsTransitive(before, w, seen);
        FollowsTransitive(w, seen, world);
      } else {
        OnlyOpenIsPending(before, write);
      }
    }

    // What the compositor shows decides, after a fence where one helps.
    method Decide(first: Compositor, write: Write, fence: bool, ghost before: World) returns (verdict: Verdict)
      requires Valid() && Good(before) && first == before.comp && Follows(before, world) && write in before.flight
      modifies this`world, this`turns, this`nextToken, this`request, this`uncertain, this`requests, this`fences
      ensures Valid() && Follows(old(world), world)
      ensures requests == old(requests) && request == old(request) && uncertain == old(uncertain)
      ensures old(fences) <= fences && (!fence ==> fences == old(fences))
      ensures verdict == Complete ==> Confirmed(write, world)
      ensures verdict == Superseded ==> Dead(write, world.comp)
      ensures !fence ==> verdict == VerdictOn(first, write)
      ensures fence && AreCalm(old(turns), 2) && IsOpen(first) && first == old(world).comp ==>
        verdict == Complete || verdict == Superseded
    {
      var state;
      ghost var seen;
      state, seen := FenceIfOpen(first, write, fence, before);
      verdict := Judge(state, write, seen);
    }

    // Finds out what became of the last change without ever sending it again.  When nothing interferes, a
    // fence always settles it.
    method ReconcileVisualSettings(fence: bool) returns (verdict: Verdict)
      requires Valid()
      modifies this
      ensures Valid() && Follows(old(world), world)
      ensures requests == old(requests) && request == old(request)
      ensures old(fences) <= fences && (!fence ==> fences == old(fences))
      ensures verdict == Complete ==> request.Some? && !uncertain && Confirmed(request.value, world)
      ensures verdict == Superseded ==> request.Some? && !uncertain && Dead(request.value, world.comp)
      ensures verdict == Pending || verdict == Unreadable ==> uncertain == old(uncertain)
      ensures request == None ==> verdict == Pending && world == old(world)
      ensures request.Some? && !fence && AreCalm(old(turns), 1) && old(world).comp.hasReceipts ==>
        verdict == VerdictOn(old(world).comp, request.value)
      ensures request.Some? && fence && AreCalm(old(turns), 3) && IsOpen(old(world).comp) ==>
        verdict == Complete || verdict == Superseded
    {
      hide Good, Follows, Harmless, TokensBelow, Confirmed, Dead, VerdictOn;
      FollowsItself(world);
      if request == None {
        return Pending;
      }
      var write := request.value;
      var state;
      ghost var seen;
      state, seen := Read();
      ghost var w := world;
      FollowsTransitive(old(world), seen, w);
      if state == None {
        return Unreadable;
      }
      if !state.value.hasReceipts {
        return Pending;
      }
      verdict := Decide(state.value, write, fence, seen);
      FollowsTransitive(old(world), w, world);
      if verdict == Complete || verdict == Superseded {
        uncertain := false;
      }
    }

    // What one reading of the compositor's state says about the write.
    method Judge(state: Option<Compositor>, write: Write, ghost seen: World) returns (verdict: Verdict)
      requires Valid() && Good(seen) && Follows(seen, world) && write in seen.flight
      requires state.Some? ==> state.value == seen.comp
      ensures verdict == if state.Some? then VerdictOn(state.value, write) else Unreadable
      ensures verdict == Complete ==> Confirmed(write, world)
      ensures verdict == Superseded ==> Dead(write, world.comp)
    {
      verdict := if state.Some? then VerdictOn(state.value, write) else Unreadable;
      if verdict == Complete {
        EffectIsConfirmed(seen, write, world);
      }
    }
  }

  // The state shows that exactly this write was the last to take effect.
  predicate Acknowledges(c: Compositor, w: Write) {
    && c.source == w.receipt.source && c.serial == w.receipt.serial + 1 && c.token == w.receipt.token
    && c.rendererSchema == 1 && Some(c.settings) == w.request && c.recovery == NoRecovery
  }

  // It was the last to take effect; or something else did since; or it may still do so.
  function VerdictOn(c: Compositor, w: Write): Verdict {
    if Acknowledges(c, w) then Complete
    else if c.source != w.receipt.source || c.serial > w.receipt.serial then Superseded
    else Pending
  }

  // A write that may still take effect was meant for just this state.
  lemma OnlyOpenIsPending(w: World, write: Write)
    requires Good(w) && write in w.flight
    ensures VerdictOn(w.comp, write) == Pending ==>
      w.comp.source == write.receipt.source && w.comp.serial == write.receipt.serial
  {
    assert NotAhead(write.receipt, w.comp);
  }

  lemma OpenTakesMatching(w: World, write: Write)
    requires IsOpen(w.comp) && Matches(w.comp, write.receipt) && write in w.flight
    ensures var c := Step(w, Deliver(write)).comp;
            c.source == w.comp.source && c.serial == w.comp.serial + 1 && c.token == write.receipt.token
  {
  }

  // The write took effect with the settings it carried, and cannot do so again.
  ghost predicate Confirmed(write: Write, w: World) {
    && Dead(write, w.comp)
    && exists e :: e in w.log && e.receipt == write.receipt && Some(e.after) == write.request
  }

  lemma ConfirmedIsDead(write: Write, w: World)
    requires Confirmed(write, w)
    ensures Dead(write, w.comp)
  {
  }

  // Between v and w there was the state seen.
  ghost predicate Seen(v: World, seen: World, w: World) {
    Good(seen) && Follows(v, seen) && Follows(seen, w)
  }

  lemma EffectIsConfirmed(seen: World, write: Write, w: World)
    requires Good(seen) && Follows(seen, w) && Acknowledges(seen.comp, write) && write in seen.flight
    requires Good(w)
    ensures Confirmed(write, w)
  {
    assert write.receipt.token != NoToken;
    var e := seen.log[|seen.log| - 1];
    assert e == w.log[..|seen.log|][|seen.log| - 1];
    assert e in w.log && e.receipt == write.receipt;
  }
}
