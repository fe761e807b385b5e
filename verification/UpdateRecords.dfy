/**
  The life of a recorded package transaction: observed, evaluated, built, staged, installed.  Several
  programs share the queue without a lock: each reads a record and later replaces its file, which is
  atomic, and any of them may stop between two of its steps.  Hashes are injective: a package set stands
  for its digest, a transaction for its id.
*/
module UpdateRecords {
  import opened Wrappers

  type PackageSet = map<string, string>

  datatype Transaction = Transaction(digest: PackageSet, changes: map<string, string>, release: Option<string>)
  datatype State = Observed | Evaluating | Building | Staged | Compatible | Installed | Failed
  datatype Detail =
    | NoDetail
    | Evaluator
    | Evaluation(status: string)
    | Receipted(receipt: Transaction, generation: string, hostDigest: PackageSet)
    | Admitted(generation: string)
    | Failure(reason: string)
    | ResumedFrom(prior: State)

  datatype Record = Record(state: State, detail: Detail, lastError: Option<string>, history: seq<State>)
  datatype Receipt = Receipt(transaction: Transaction, hostDigest: PackageSet, generation: string, sound: bool)
  datatype FollowError = InvalidTransition | QueueFull

  // Who replaces records: the consumer, an installer, or somebody who resumes or retries.
  datatype Writer = ByConsumer | ByInstaller(id: nat) | ByHand(id: nat)

  // A record as it was read, and what its file will be replaced with.
  datatype Write = Write(tx: Transaction, loaded: Record, replacement: Record)

  const MAX_PENDING := 64

  function Targets(s: State): set<State> {
    match s
    case Observed => {Evaluating, Failed}
    case Evaluating => {Compatible, Building, Failed}
    case Building => {Staged, Failed}
    case Staged => {Installed, Failed}
    case Compatible => {}
    case Installed => {}
    case Failed => {Observed}
  }

  // ----- histories ---------------------------------------------------------------------------------

  // A step of the table, or work that was interrupted and is taken up again.
  predicate IsEdge(a: State, b: State) {
    b in Targets(a) || (a in {Evaluating, Building} && b == Observed)
  }

  predicate IsPath(h: seq<State>) {
    h != [] && h[0] == Observed && forall i | 0 <= i < |h| - 1 :: IsEdge(h[i], h[i + 1])
  }

  predicate RecordOk(r: Record) {
    IsPath(r.history) && r.history[|r.history| - 1] == r.state
  }

  lemma PathGrows(h: seq<State>, s: State)
    requires IsPath(h) && IsEdge(h[|h| - 1], s)
    ensures IsPath(h + [s])
  {
    var g := h + [s];
    forall i | 0 <= i < |g| - 1 ensures IsEdge(g[i], g[i + 1]) {
      if i < |h| - 1 { assert IsEdge(h[i], h[i + 1]); }
    }
  }

  // What was compatible or installed stays so: no history goes on from there.
  lemma TerminalStatesLast(h: seq<State>, g: seq<State>)
    requires IsPath(h) && IsPath(g) && h <= g && h[|h| - 1] in {Compatible, Installed}
    ensures g == h
  {
    assert g[|h| - 1] == h[|h| - 1];
    assert |h| < |g| ==> IsEdge(g[|h| - 1], g[|h|]);
  }

  // Before it was installed, a transaction was observed, evaluated, built and staged, in that order.
  lemma InstalledWasBuilt(h: seq<State>, i: nat)
    requires IsPath(h) && i < |h| && h[i] == Installed
    ensures i >= 4 && h[i - 1] == Staged && h[i - 2] == Building && h[i - 3] == Evaluating && h[i - 4] == Observed
  {
    assert IsEdge(h[i - 1], h[i]);
    assert IsEdge(h[i - 2], h[i - 1]);
    assert IsEdge(h[i - 3], h[i - 2]);
    assert IsEdge(h[i - 4], h[i - 3]);
  }

  // ----- the programs ------------------------------------------------------------------------------

  // Where the consumer stands; it holds a lock, so there is one.
  datatype Consumer =
    | Idle
    | Chosen(tx: Transaction)
    | AtEvaluator(tx: Transaction)
    | AtBuilder(tx: Transaction)
    | Failing(tx: Transaction, reason: string)
    | MustFail(tx: Transaction, reason: string)

  datatype Installer =
    | Loaded(tx: Transaction, detail: Detail)
    | HasReceipt(tx: Transaction, receipt: Receipt)
    | HostChecked(tx: Transaction, receipt: Receipt)
    | PackageInstalled(tx: Transaction, receipt: Receipt)

  // What a worker of the consumer comes back with; Breaks is a result the consumer raises an error on that
  // it does not catch, like a receipt whose generation is not a text.
  datatype Work = WorkFails(reason: string) | Evaluated(status: string) | Built(receipt: Receipt) | Breaks

  // What an installer found the host to be, and where the consumer wants to go.
  datatype Sighting = Sighting(tx: Transaction, host: PackageSet)
  datatype Aim = Aim(state: State, detail: Detail, next: Consumer)

  datatype Step =
    | Observe(targets: set<string>, watched: set<string>, installed: PackageSet, release: Option<string>,
              maxPending: int)
    | Resumes(id: nat, tx: Transaction)
    | Retries(id: nat, tx: Transaction)
    | HandGoesOn(id: nat)
    | HandStops(id: nat)
    | ConsumerStarts(tx: Transaction)
    | ConsumerGoesOn(work: Work)
    | ConsumerStops
    | InstallerStarts(id: nat, tx: Transaction)
    | InstallerGoesOn(id: nat, succeeds: bool, host: PackageSet)
    | InstallerStops(id: nat)
    | HostChanges(host: PackageSet)

  // The receipt is for this transaction and the host it was observed on, and the package is sound.
  predicate ReceiptOk(receipt: Receipt, tx: Transaction) {
    receipt.transaction == tx && receipt.hostDigest == tx.digest && receipt.sound
  }

  // The record moved on to s.
  function Moved(r: Record, s: State, detail: Detail, lastError: Option<string>): Record {
    Record(s, detail, lastError, r.history + [s])
  }

  function ReasonOf(target: State, detail: Detail): Option<string> {
    if target == Failed && detail.Failure? then Some(detail.reason) else None
  }

  // The writer is about to move the record of tx on to target, if the table allows that.
  ghost predicate Plans(records: map<Transaction, Record>, before: map<Writer, Write>, after: map<Writer, Write>,
                        writer: Writer, tx: Transaction, target: State, detail: Detail)
  {
    && tx in records
    && after == if target in Targets(records[tx].state)
                then before[writer := Write(tx, records[tx],
                                            Moved(records[tx], target, detail, ReasonOf(target, detail)))]
                else before
  }

  // Where the consumer wants to move the record it works on, and what it does after that; None if it
  // has nothing to record.
  ghost function Goal(c: Consumer, work: Work): Option<Aim> {
    match c
    case Idle => None
    case Chosen(tx) => Some(Aim(Evaluating, Evaluator, AtEvaluator(tx)))
    case AtEvaluator(tx) =>
      (match work
       case Evaluated("compatible") => Some(Aim(Compatible, Evaluation("compatible"), Idle))
       case Evaluated("rebuild-required") => Some(Aim(Building, Evaluation("rebuild-required"), AtBuilder(tx)))
       case _ => None)
    case AtBuilder(tx) =>
      (match work
       case Built(receipt) =>
         if ReceiptOk(receipt, tx) then Some(Aim(Staged, Receipted(tx, receipt.generation, receipt.hostDigest), Idle))
           else None
       case _ => None)
    case Failing(_, _) => None
    case MustFail(_, reason) => Some(Aim(Failed, Failure(reason), Idle))
  }

  // The goal is pursued.  Without one nothing is recorded: the consumer goes on to fail, and then sees
  // whether that is to be recorded; or it breaks off.
  ghost predicate Pursued(goal: Option<Aim>, work: Work, records: map<Transaction, Record>, writes: map<Writer, Write>,
                          after: map<Writer, Write>, consumer: Consumer, next: Consumer)
    requires consumer != Idle && consumer.tx in records
  {
    var tx, state := consumer.tx, records[consumer.tx].state;
    match goal
    case Some(aim) =>
      && Plans(records, writes, after, ByConsumer, tx, aim.state, aim.detail)
      && next == if aim.state in Targets(state) then aim.next else Idle
    case None =>
      && after == writes
      && if consumer.Failing?
         then next == if state in {Evaluating, Building, Staged} then MustFail(tx, consumer.reason) else Idle
         else if work.Breaks? then next == Idle
         else next.Failing? && next.tx == tx
  }

  // No record is installed that was not before, but perhaps that of tx.
  ghost predicate InstalledBut(tx: Option<Transaction>, a: map<Transaction, Record>, b: map<Transaction, Record>) {
    forall t :: t in b && b[t].state == Installed ==> (t in a && a[t].state == Installed) || tx == Some(t)
  }

  // The transaction of an installer that has put its package in.
  ghost function Finishing(installers: map<nat, Installer>, id: nat): Option<Transaction> {
    if id in installers && installers[id].PackageInstalled? then Some(installers[id].tx) else None
  }

  // Every record is still there, and its history has only grown.
  ghost predicate Evolves(a: map<Transaction, Record>, b: map<Transaction, Record>) {
    forall tx :: tx in a ==> tx in b && a[tx].history <= b[tx].history
  }

  predicate IsInterrupted(s: State) {
    s in {Evaluating, Building}
  }

  // What was interrupted is observed again, and says so.
  function Resumed(r: Record): Record {
    if !IsInterrupted(r.state) then r
    else
      var reason := if r.state == Evaluating then "interrupted:evaluating" else "interrupted:building";
      Moved(r, Observed, ResumedFrom(r.state), Some(reason))
  }

  function Interrupted(some: set<Transaction>, records: map<Transaction, Record>): set<Transaction> {
    set tx | tx in some && tx in records && IsInterrupted(records[tx].state)
  }

  // All records but some are resumed.
  ghost predicate ResumedBut(rest: set<Transaction>, a: map<Transaction, Record>, b: map<Transaction, Record>) {
    && b.Keys == a.Keys && rest <= a.Keys
    && forall tx :: tx in a ==> b[tx] == if tx in rest then a[tx] else Resumed(a[tx])
  }

  lemma OneMoreResumed(rest: set<Transaction>, tx: Transaction, a: map<Transaction, Record>,
                       b: map<Transaction, Record>, c: map<Transaction, Record>)
    requires ResumedBut(rest, a, b) && tx in rest && tx in c
    requires c == b[tx := Resumed(b[tx])]
    ensures ResumedBut(rest - {tx}, a, c)
    ensures Interrupted(rest, a) == Interrupted(rest - {tx}, a) + (if IsInterrupted(a[tx].state) then {tx} else {})
  {
  }

  lemma AllResumed(a: map<Transaction, Record>, b: map<Transaction, Record>)
    requires ResumedBut({}, a, b)
    ensures Interrupted({}, a) == {} && forall tx :: tx in b ==> !IsInterrupted(b[tx].state)
  {
  }

  lemma NoneResumed(a: map<Transaction, Record>)
    ensures ResumedBut(a.Keys, a, a) && Evolves(a, a)
  {
  }

  lemma SizeOfUpdate(records: map<Transaction, Record>, tx: Transaction, r: Record)
    ensures |records[tx := r]| == if tx in records then |records| else |records| + 1
  {
    assert records[tx := r].Keys == records.Keys + {tx};
    assert |records.Keys| == |records| && |records[tx := r].Keys| == |records[tx := r]|;
  }

  // A sound package was built for this transaction, on the host it was observed on.
  predicate WasBuilt(built: map<Transaction, Receipt>, tx: Transaction) {
    tx in built && ReceiptOk(built[tx], tx)
  }

  // An installer found the host to be the one the transaction was observed on.
  predicate WasSeen(seen: set<Sighting>, tx: Transaction) {
    Sighting(tx, tx.digest) in seen
  }

  // The history is legal; who was staged was built, and who was installed was seen.
  ghost predicate Backed(r: Record, tx: Transaction, built: map<Transaction, Receipt>, seen: set<Sighting>) {
    && RecordOk(r)
    && (Staged in r.history ==> WasBuilt(built, tx))
    && (Installed in r.history ==> WasSeen(seen, tx))
  }

  ghost predicate RecordsOk(records: map<Transaction, Record>, built: map<Transaction, Receipt>, seen: set<Sighting>) {
    |records| <= MAX_PENDING && forall tx :: tx in records ==> Backed(records[tx], tx, built, seen)
  }

  ghost predicate InstallerOk(pc: Installer, known: set<Transaction>, seen: set<Sighting>) {
    && pc.tx in known
    && (!pc.Loaded? ==> pc.receipt.hostDigest == pc.tx.digest)
    && (pc.HostChecked? || pc.PackageInstalled? ==> WasSeen(seen, pc.tx))
  }

  // Every program works on a recorded transaction.
  ghost predicate ProgramsOk(consumer: Consumer, installers: map<nat, Installer>, known: set<Transaction>,
                             seen: set<Sighting>) {
    (consumer != Idle ==> consumer.tx in known)
      && forall id :: id in installers ==> InstallerOk(installers[id], known, seen)
  }

  lemma SameKeys(records: map<Transaction, Record>, tx: Transaction, r: Record)
    requires tx in records
    ensures records[tx := r].Keys == records.Keys
    ensures records[tx].history <= r.history ==> Evolves(records, records[tx := r])
  {
  }

  lemma OneRecordAdded(records: map<Transaction, Record>, tx: Transaction, r: Record, built: map<Transaction, Receipt>,
                       consumer: Consumer, installers: map<nat, Installer>, seen: set<Sighting>)
    requires RecordsOk(records, built, seen) && ProgramsOk(consumer, installers, records.Keys, seen)
    requires tx !in records && |records| < MAX_PENDING && Backed(r, tx, built, seen)
    ensures RecordsOk(records[tx := r], built, seen) && ProgramsOk(consumer, installers, records[tx := r].Keys, seen)
  {
    SizeOfUpdate(records, tx, r);
    assert records[tx := r].Keys == records.Keys + {tx};
  }

  lemma OneMoreBuilt(records: map<Transaction, Record>, tx: Transaction, receipt: Receipt,
                     built: map<Transaction, Receipt>,
                     seen: set<Sighting>)
    requires RecordsOk(records, built, seen) && ReceiptOk(receipt, tx)
    ensures RecordsOk(records, built[tx := receipt], seen) && WasBuilt(built[tx := receipt], tx)
  {
  }

  lemma OneMoreSeen(records: map<Transaction, Record>, built: map<Transaction, Receipt>, consumer: Consumer,
                    installers: map<nat, Installer>, seen: set<Sighting>, sight: Sighting)
    requires RecordsOk(records, built, seen) && ProgramsOk(consumer, installers, records.Keys, seen)
    ensures RecordsOk(records, built, seen + {sight}) && ProgramsOk(consumer, installers, records.Keys, seen + {sight})
  {
  }

  lemma OneInstallerMoved(consumer: Consumer, installers: map<nat, Installer>, known: set<Transaction>,
                          seen: set<Sighting>, id: nat, pc: Installer)
    requires ProgramsOk(consumer, installers, known, seen)
    ensures ProgramsOk(consumer, installers - {id}, known, seen)
    ensures InstallerOk(pc, known, seen) ==> ProgramsOk(consumer, installers[id := pc], known, seen)
  {
  }

  lemma ConsumerMoved(consumer: Consumer, installers: map<nat, Installer>, known: set<Transaction>,
                      seen: set<Sighting>, next: Consumer)
    requires ProgramsOk(consumer, installers, known, seen) && (next != Idle ==> next.tx in known)
    ensures ProgramsOk(next, installers, known, seen)
  {
  }

  // One more step of a record that is allowed,
  lemma MovedIsBacked(records: map<Transaction, Record>, tx: Transaction, target: State, detail: Detail,
                      built: map<Transaction, Receipt>, seen: set<Sighting>)
    requires RecordsOk(records, built, seen) && tx in records && target in Targets(records[tx].state)
    requires target == Staged ==> WasBuilt(built, tx)
    requires target == Installed ==> WasSeen(seen, tx)
    ensures var r := Moved(records[tx], target, detail, ReasonOf(target, detail));
            Backed(r, tx, built, seen) && r.state == target && r.history == records[tx].history + [target]
  {
    assert Backed(records[tx], tx, built, seen);
    PathGrows(records[tx].history, target);
  }

  // or is taken back.
  lemma ResumedIsBacked(records: map<Transaction, Record>, tx: Transaction, built: map<Transaction, Receipt>,
                        seen: set<Sighting>)
    requires RecordsOk(records, built, seen) && tx in records && IsInterrupted(records[tx].state)
    ensures var r := Resumed(records[tx]);
            Backed(r, tx, built, seen) && r.state == Observed && r.history == records[tx].history + [Observed]
  {
    assert Backed(records[tx], tx, built, seen);
    PathGrows(records[tx].history, Observed);
  }

  // ----- reading and replacing ----------------------------------------------------------------------

  // What a writer is about to do is one more step of the record it read.  Nobody else has replaced that
  // unless the writer is late; then, as long as nobody late has replaced anything, it has got longer.
  ghost predicate WriteOk(w: Write, isLate: bool, overlaps: nat, records: map<Transaction, Record>,
                          built: map<Transaction, Receipt>, seen: set<Sighting>)
  {
    && w.tx in records && Backed(w.replacement, w.tx, built, seen)
    && w.replacement.history == w.loaded.history + [w.replacement.state]
    && (!isLate ==> records[w.tx] == w.loaded)
    && (overlaps == 0 && isLate ==> w.loaded.history < records[w.tx].history)
  }

  // No two writers are about to replace one record.
  ghost predicate Alone(writes: map<Writer, Write>) {
    forall v, w :: v in writes && w in writes && writes[v].tx == writes[w].tx ==> v == w
  }

  // Without contention nobody is late, and nobody late has replaced anything.
  ghost predicate WritesOk(writes: map<Writer, Write>, late: set<Writer>, overlaps: nat, contended: nat,
                           records: map<Transaction, Record>, built: map<Transaction, Receipt>, seen: set<Sighting>)
  {
    && late <= writes.Keys
    && (forall w :: w in writes ==> WriteOk(writes[w], w in late, overlaps, records, built, seen))
    && (contended == 0 ==> overlaps == 0 && late == {} && Alone(writes))
  }

  // Only an installer that has put the package in is about to say so.
  ghost predicate InstallsOk(writes: map<Writer, Write>, installers: map<nat, Installer>) {
    forall w :: w in writes && writes[w].replacement.state == Installed ==>
      Installs(w, installers) == Some(writes[w].tx)
  }

  function OneIf(b: bool): nat {
    if b then 1 else 0
  }

  // The transaction of an installer that has put its package in.
  ghost function Installs(w: Writer, installers: map<nat, Installer>): Option<Transaction> {
    if w.ByInstaller? then Finishing(installers, w.id) else None
  }

  // The writers about to replace this record, and those of them besides w.
  ghost function WritersOf(writes: map<Writer, Write>, tx: Transaction): set<Writer> {
    set w | w in writes && writes[w].tx == tx
  }

  ghost function Overtaken(writes: map<Writer, Write>, w: Writer): set<Writer>
    requires w in writes
  {
    WritersOf(writes, writes[w].tx) - {w}
  }

  lemma WriteAdded(writes: map<Writer, Write>, late: set<Writer>, overlaps: nat, contended: nat,
                   records: map<Transaction, Record>, built: map<Transaction, Receipt>, seen: set<Sighting>,
                   w: Writer, tx: Transaction, r: Record)
    requires WritesOk(writes, late, overlaps, contended, records, built, seen) && w !in writes && tx in records
    requires Backed(r, tx, built, seen) && r.history == records[tx].history + [r.state]
    ensures var more := contended + if WritersOf(writes, tx) == {} then 0 else 1;
            WritesOk(writes[w := Write(tx, records[tx], r)], late, overlaps, more, records, built, seen)
  {
    hide Backed;
    if WritersOf(writes, tx) == {} {
      forall v | v in writes ensures writes[v].tx != tx {
        assert v !in WritersOf(writes, tx);
      }
    }
  }

  lemma WriteDropped(writes: map<Writer, Write>, late: set<Writer>, overlaps: nat, contended: nat,
                     records: map<Transaction, Record>, built: map<Transaction, Receipt>, seen: set<Sighting>,
                     w: Writer)
    requires WritesOk(writes, late, overlaps, contended, records, built, seen)
    ensures WritesOk(writes - {w}, late - {w}, overlaps, contended, records, built, seen)
  {
    hide WriteOk;
  }

  // The other writers that read this record are late from now on.
  lemma WriteDone(writes: map<Writer, Write>, late: set<Writer>, overlaps: nat, contended: nat,
                  records: map<Transaction, Record>, built: map<Transaction, Receipt>, seen: set<Sighting>, w: Writer)
    requires WritesOk(writes, late, overlaps, contended, records, built, seen) && w in writes
    ensures writes[w].tx in records
    ensures WritesOk(writes - {w}, late - {w} + Overtaken(writes, w), overlaps + OneIf(w in late), contended,
                     records[writes[w].tx := writes[w].replacement], built, seen)
  {
    hide Backed;
    var tx, after := writes[w].tx, records[writes[w].tx := writes[w].replacement];
    assert WriteOk(writes[w], w in late, overlaps, records, built, seen);
    forall v | v in writes && v != w
      ensures WriteOk(writes[v], v in late - {w} + Overtaken(writes, w), overlaps + OneIf(w in late), after, built,
                      seen)
    {
      assert WriteOk(writes[v], v in late, overlaps, records, built, seen);
    }
  }

  // A writer that is not late only makes a history longer.  The first that is late keeps it exactly if
  // the others have taken the same step and no other.
  lemma WhoIsLateLoses(writes: map<Writer, Write>, late: set<Writer>, overlaps: nat, contended: nat,
                       records: map<Transaction, Record>, built: map<Transaction, Receipt>, seen: set<Sighting>,
                       w: Writer)
    requires WritesOk(writes, late, overlaps, contended, records, built, seen) && w in writes
    ensures writes[w].tx in records
    ensures var Write(tx, loaded, replacement) := writes[w];
            && (w !in late ==> records[tx].history <= replacement.history)
            && (overlaps == 0 && w in late ==>
                  (records[tx].history <= replacement.history <==>
                    records[tx].history == loaded.history + [replacement.state]))
  {
    hide Backed;
    assert WriteOk(writes[w], w in late, overlaps, records, built, seen);
  }

  lemma OneRecordReplaced(records: map<Transaction, Record>, writes: map<Writer, Write>, late: set<Writer>,
                          overlaps: nat,
                          contended: nat, built: map<Transaction, Receipt>, seen: set<Sighting>, w: Writer)
    requires RecordsOk(records, built, seen) && WritesOk(writes, late, overlaps, contended, records, built, seen)
      && w in writes
    ensures var Write(tx, _, r) := writes[w];
            tx in records && RecordsOk(records[tx := r], built, seen) && records[tx := r].Keys == records.Keys
  {
    hide Backed;
    var Write(tx, _, r) := writes[w];
    assert WriteOk(writes[w], w in late, overlaps, records, built, seen);
    SizeOfUpdate(records, tx, r);
    SameKeys(records, tx, r);
  }

  lemma WritesStay(writes: map<Writer, Write>, late: set<Writer>, overlaps: nat, contended: nat,
                   records: map<Transaction, Record>, built: map<Transaction, Receipt>, seen: set<Sighting>,
                   tx: Transaction, r: Record)
    requires WritesOk(writes, late, overlaps, contended, records, built, seen) && tx !in records
    ensures WritesOk(writes, late, overlaps, contended, records[tx := r], built, seen)
  {
    hide Backed;
    forall w | w in writes ensures WriteOk(writes[w], w in late, overlaps, records[tx := r], built, seen) {
      assert WriteOk(writes[w], w in late, overlaps, records, built, seen);
    }
  }

  lemma WritesStillBacked(writes: map<Writer, Write>, late: set<Writer>, overlaps: nat, contended: nat,
                          records: map<Transaction, Record>, built: map<Transaction, Receipt>, seen: set<Sighting>,
                          tx: Transaction, receipt: Receipt, sight: Sighting)
    requires WritesOk(writes, late, overlaps, contended, records, built, seen)
    ensures ReceiptOk(receipt, tx) ==> WritesOk(writes, late, overlaps, contended, records, built[tx := receipt], seen)
    ensures WritesOk(writes, late, overlaps, contended, records, built, seen + {sight})
  {
    hide RecordOk;
    forall w | w in writes
      ensures ReceiptOk(receipt, tx) ==> WriteOk(writes[w], w in late, overlaps, records, built[tx := receipt], seen)
      ensures WriteOk(writes[w], w in late, overlaps, records, built, seen + {sight})
    {
      assert WriteOk(writes[w], w in late, overlaps, records, built, seen);
    }
  }

  // All of it, when a record is replaced.
  lemma ReplacingKeeps(records: map<Transaction, Record>, consumer: Consumer, installers: map<nat, Installer>,
                       writes: map<Writer, Write>, late: set<Writer>, overlaps: nat, contended: nat,
                       built: map<Transaction, Receipt>, seen: set<Sighting>, w: Writer)
    requires RecordsOk(records, built, seen) && ProgramsOk(consumer, installers, records.Keys, seen) && w in writes
    requires WritesOk(writes, late, overlaps, contended, records, built, seen) && InstallsOk(writes, installers)
    ensures writes[w].tx in records
    ensures var after := records[writes[w].tx := writes[w].replacement];
            && RecordsOk(after, built, seen) && ProgramsOk(consumer, installers, after.Keys, seen)
            && WritesOk(writes - {w}, late - {w} + Overtaken(writes, w), overlaps + OneIf(w in late), contended,
                        after, built, seen)
            && InstallsOk(writes - {w}, installers)
    ensures var Write(tx, loaded, replacement) := writes[w];
            var after := records[tx := replacement];
            && (w !in late ==> Evolves(records, after))
            && (overlaps == 0 && w in late ==>
                  (Evolves(records, after) <==> records[tx].history == loaded.history + [replacement.state]))
            && InstalledBut(Installs(w, installers), records, after)
  {
    hide RecordsOk, ProgramsOk, WritesOk, Evolves, Overtaken;
    WhoIsLateLoses(writes, late, overlaps, contended, records, built, seen, w);
    WriteDone(writes, late, overlaps, contended, records, built, seen, w);
    OneRecordReplaced(records, writes, late, overlaps, contended, built, seen, w);
    OneReplaced(records, writes[w].tx, writes[w].replacement);
    FewerInstalls(writes, installers, w);
  }

  lemma PutAndDrop(writes: map<Writer, Write>, w: Writer, write: Write)
    requires w !in writes
    ensures writes[w := write] - {w} == writes
  {
  }

  class UpdateGuardian {
    var records: map<Transaction, Record>
    var receipts: map<Transaction, Receipt>
    var host: PackageSet
    var consumer: Consumer
    var installers: map<nat, Installer>
    var writes: map<Writer, Write>                      // records that were read and are to be replaced
    ghost var built: map<Transaction, Receipt>          // the receipt a build was last staged with
    ghost var seen: set<Sighting>                       // what installers found the host to be
    ghost var late: set<Writer>                         // whose record was replaced since it was read
    ghost var overlaps: nat                             // how often somebody late replaced a record, and
    ghost var contended: nat                            // how often one was read that another was to replace

    ghost predicate Valid()
      reads this
    {
      && RecordsOk(records, built, seen) && ProgramsOk(consumer, installers, records.Keys, seen)
      && WritesOk(writes, late, overlaps, contended, records, built, seen) && InstallsOk(writes, installers)
    }

    constructor (host: PackageSet)
      ensures Valid() && records == map[] && consumer == Idle && installers == map[] && writes == map[]
      ensures overlaps == 0 && contended == 0 && late == {}
    {
      records, receipts, this.host, consumer, installers := map[], map[], host, Idle, map[];
      writes, built, seen, late, overlaps, contended := map[], map[], {}, {}, 0, 0;
    }

    // ----- records -------------------------------------------------------------------------------------

    // Reads a record that is to be replaced with one more step.
    method Plan(w: Writer, tx: Transaction, r: Record)
      requires Valid() && w !in writes && tx in records
      requires Backed(r, tx, built, seen) && r.history == records[tx].history + [r.state]
      requires r.state == Installed ==> Installs(w, installers) == Some(tx)
      modifies this`writes, this`contended
      ensures Valid() && writes == old(writes)[w := Write(tx, records[tx], r)]
      ensures contended == old(contended) + if WritersOf(old(writes), tx) == {} then 0 else 1
    {
      hide RecordsOk, ProgramsOk, WritesOk;
      WriteAdded(writes, late, overlaps, contended, records, built, seen, w, tx, r);
      contended := contended + if WritersOf(writes, tx) == {} then 0 else 1;
      writes := writes[w := Write(tx, records[tx], r)];
    }

    // A step the table allows is planned with its detail; anything else is an error and changes nothing.
    method Load(w: Writer, tx: Transaction, target: State, detail: Detail) returns (r: Result<(), FollowError>)
      requires Valid() && w !in writes && tx in records
      requires target == Staged ==> WasBuilt(built, tx)
      requires target == Installed ==> WasSeen(seen, tx) && Installs(w, installers) == Some(tx)
      modifies this`writes, this`contended
      ensures Valid() && (r.Ok? <==> target in Targets(records[tx].state))
      ensures Plans(records, old(writes), writes, w, tx, target, detail)
      ensures contended == old(contended) + if r.Err? || WritersOf(old(writes), tx) == {} then 0 else 1
    {
      hide RecordsOk, ProgramsOk, WritesOk, InstallsOk, Backed, WritersOf, Moved, ReasonOf, Targets, Installs;
      var record := records[tx];
      if target !in Targets(record.state) {
        return Err(InvalidTransition);
      }
      MovedIsBacked(records, tx, target, detail, built, seen);
      Plan(w, tx, Moved(record, target, detail, ReasonOf(target, detail)));
      r := Ok(());
    }

    // Replaces the file of a record.  Nothing of its history is lost if nobody else replaced it since it
    // was read; the first time somebody did, exactly if they took the same step and no other.
    method Replace(w: Writer)
      requires Valid() && w in writes
      modifies this`records, this`writes, this`late, this`overlaps
      ensures Valid() && old(writes)[w].tx in old(records)
      ensures records == old(records)[old(writes)[w].tx := old(writes)[w].replacement] && writes == old(writes) - {w}
      ensures late == old(late) - {w} + Overtaken(old(writes), w)
      ensures overlaps == old(overlaps) + OneIf(w in old(late))
      ensures w !in old(late) ==> Evolves(old(records), records)
      ensures old(overlaps) == 0 && w in old(late) ==>
        var Write(tx, loaded, replacement) := old(writes)[w];
        Evolves(old(records), records) <==> old(records)[tx].history == loaded.history + [replacement.state]
      ensures InstalledBut(Installs(w, installers), old(records), records)
    {
      hide RecordsOk, ProgramsOk, WritesOk, InstallsOk, Evolves, InstalledBut, Overtaken, Installs;
      ReplacingKeeps(records, consumer, installers, writes, late, overlaps, contended, built, seen, w);
      ghost var others, count := late - {w} + Overtaken(writes, w), overlaps + OneIf(w in late);
      Install(records[writes[w].tx := writes[w].replacement], writes - {w}, others, count);
    }

    method Install(records_: map<Transaction, Record>, writes_: map<Writer, Write>, ghost late_: set<Writer>,
                   ghost overlaps_: nat)
      modifies this`records, this`writes, this`late, this`overlaps
      ensures records == records_ && writes == writes_ && late == late_ && overlaps == overlaps_
    {
      records, writes, late, overlaps := records_, writes_, late_, overlaps_;
    }

    // The writer stops, or never had anything to replace.
    method Drop(w: Writer)
      requires Valid()
      modifies this`writes, this`late
      ensures Valid() && writes == old(writes) - {w} && late == old(late) - {w}
    {
      hide RecordsOk, ProgramsOk, WritesOk, InstallsOk;
      FewerInstalls(writes, installers, w);
      WriteDropped(writes, late, overlaps, contended, records, built, seen, w);
      writes, late := writes - {w}, late - {w};
    }

    // Records a package transaction that concerns the desktop; observing it again adds nothing.
    method ObserveChange(targets: set<string>, watched: set<string>, installed: PackageSet, release: Option<string>,
                         maxPending: int)
      returns (r: Result<Option<Transaction>, FollowError>)
      requires Valid()
      modifies this`records
      ensures Valid() && Evolves(old(records), records) && InstalledBut(None, old(records), records)
      ensures var changes := map name | name in targets * watched && name in installed :: installed[name];
              var tx := Transaction(installed, changes, release);
              var full := |old(records)| >= (if maxPending < MAX_PENDING then maxPending else MAX_PENDING);
              if changes == map[] then r == Ok(None) && records == old(records)
              else if tx in old(records) then r == Ok(Some(tx)) && records == old(records)
              else if full then r == Err(QueueFull) && records == old(records)
              else r == Ok(Some(tx)) && records == old(records)[tx := Record(Observed, NoDetail, None, [Observed])]
      ensures |records| > |old(records)| ==> |records| <= maxPending
    {
      hide RecordsOk, ProgramsOk, WritesOk, InstallsOk;
      var changes := map name | name in targets * watched && name in installed :: installed[name];
      if changes == map[] {
        return Ok(None);
      }
      var tx := Transaction(installed, changes, release);
      if tx in records {
        return Ok(Some(tx));
      }
      if |records| >= (if maxPending < MAX_PENDING then maxPending else MAX_PENDING) {
        return Err(QueueFull);
      }
      AddRecord(tx);
      r := Ok(Some(tx));
    }

    method AddRecord(tx: Transaction)
      requires Valid() && tx !in records && |records| < MAX_PENDING
      modifies this`records
      ensures Valid() && records == old(records)[tx := Record(Observed, NoDetail, None, [Observed])]
      ensures |records| == |old(records)| + 1
    {
      hide RecordsOk, ProgramsOk, WritesOk, InstallsOk;
      var r := Record(Observed, NoDetail, None, [Observed]);
      SizeOfUpdate(records, tx, r);
      OneRecordAdded(records, tx, r, built, consumer, installers, seen);
      WritesStay(writes, late, overlaps, contended, records, built, seen, tx, r);
      records := records[tx := r];
    }

    // ----- resuming ------------------------------------------------------------------------------------

    // What was interrupted is to be observed again.
    method LoadInterrupted(id: nat, tx: Transaction) returns (interrupted: bool)
      requires Valid() && tx in records && ByHand(id) !in writes
      modifies this`writes, this`contended
      ensures Valid() && (interrupted <==> IsInterrupted(records[tx].state))
      ensures writes == if interrupted then old(writes)[ByHand(id) := Write(tx, records[tx], Resumed(records[tx]))]
                        else old(writes)
      ensures contended == old(contended) + if !interrupted || WritersOf(old(writes), tx) == {} then 0 else 1
    {
      var record := records[tx];
      interrupted := IsInterrupted(record.state);
      if interrupted {
        ResumedIsBacked(records, tx, built, seen);
        hide Valid, Backed, WritersOf, Resumed;
        Plan(ByHand(id), tx, Resumed(record));
      }
    }

    // Nobody else replaces the record in between.
    method ResumeRecord(id: nat, tx: Transaction) returns (resumed: bool)
      requires Valid() && tx in records && ByHand(id) !in writes
      modifies this`records, this`writes, this`late, this`overlaps, this`contended
      ensures Valid() && Evolves(old(records), records) && writes == old(writes) && overlaps == old(overlaps)
      ensures resumed <==> IsInterrupted(old(records)[tx].state)
      ensures records == old(records)[tx := Resumed(old(records)[tx])]
    {
      OnlyWritersAreLate();
      SameAgain(records, tx);
      hide Valid, Evolves, InstalledBut, Overtaken, WritersOf, Installs;
      ghost var write := Write(tx, records[tx], Resumed(records[tx]));
      PutAndDrop(writes, ByHand(id), write);
      resumed := LoadInterrupted(id, tx);
      if resumed {
        Replace(ByHand(id));
      }
    }

    lemma OnlyWritersAreLate()
      requires Valid()
      ensures late <= writes.Keys
    {
    }

    // Resumes one more of the records.
    method ResumeNext(id: nat, rest: set<Transaction>, tx: Transaction, ghost before: map<Transaction, Record>)
      returns (resumed: nat)
      requires Valid() && tx in rest && Evolves(before, records) && ResumedBut(rest, before, records)
        && ByHand(id) !in writes
      modifies this`records, this`writes, this`late, this`overlaps, this`contended
      ensures Valid() && Evolves(before, records) && ResumedBut(rest - {tx}, before, records)
      ensures resumed + |Interrupted(rest - {tx}, before)| == |Interrupted(rest, before)|
      ensures writes == old(writes) && overlaps == old(overlaps)
    {
      hide Valid;
      ghost var now := records;
      var done := ResumeRecord(id, tx);
      EvolvesOn(before, now, records);
      OneMoreResumed(rest, tx, before, now, records);
      resumed := if done then 1 else 0;
    }

    // After a restart, undisturbed: nothing is left half done.
    method Resume(id: nat) returns (resumed: nat)
      requires Valid() && ByHand(id) !in writes
      modifies this`records, this`writes, this`late, this`overlaps, this`contended
      ensures Valid() && Evolves(old(records), records) && writes == old(writes) && overlaps == old(overlaps)
      ensures ResumedBut({}, old(records), records) && resumed == |Interrupted(old(records).Keys, old(records))|
      ensures forall tx :: tx in records ==> !IsInterrupted(records[tx].state)
    {
      hide Valid;
      ghost var before := records;
      resumed := 0;
      var rest := records.Keys;
      NoneResumed(before);
      while rest != {}
        invariant Valid() && Evolves(before, records) && ResumedBut(rest, before, records)
        invariant resumed + |Interrupted(rest, before)| == |Interrupted(before.Keys, before)|
        invariant writes == old(writes) && overlaps == old(overlaps)
        decreases rest
      {
        var tx :| tx in rest;
        var n := ResumeNext(id, rest, tx, before);
        resumed := resumed + n;
        rest := rest - {tx};
      }
      AllResumed(before, records);
    }

    // ----- the consumer ---------------------------------------------------------------------------

    method ConsumerBecomes(next: Consumer)
      requires Valid() && (next != Idle ==> next.tx in records)
      modifies this`consumer
      ensures Valid() && consumer == next
    {
      hide RecordsOk, ProgramsOk, WritesOk, InstallsOk;
      ConsumerMoved(consumer, installers, records.Keys, seen, next);
      consumer := next;
    }

    // A transition that is refused is not caught: the run ends there.
    method ConsumerPlans(tx: Transaction, target: State, detail: Detail, next: Consumer)
      requires Valid() && tx in records && target != Installed && (target == Staged ==> WasBuilt(built, tx))
      requires ByConsumer !in writes && (next != Idle ==> next.tx == tx)
      modifies this`writes, this`contended, this`consumer
      ensures Valid() && Plans(records, old(writes), writes, ByConsumer, tx, target, detail)
      ensures consumer == if target in Targets(records[tx].state) then next else Idle
    {
      hide Valid, Plans;
      var r := Load(ByConsumer, tx, target, detail);
      ConsumerBecomes(if r.Ok? then next else Idle);
    }

    // A package was built, and is about to be recorded.
    method NoteBuilt(tx: Transaction, receipt: Receipt)
      requires Valid() && ReceiptOk(receipt, tx)
      modifies this`built
      ensures Valid() && built == old(built)[tx := receipt] && WasBuilt(built, tx)
    {
      hide RecordsOk, ProgramsOk, WritesOk, InstallsOk;
      OneMoreBuilt(records, tx, receipt, built, seen);
      WritesStillBacked(writes, late, overlaps, contended, records, built, seen, tx, receipt, Sighting(tx, host));
      built := built[tx := receipt];
    }

    // To be staged exactly with a receipt that fits; any other is a failure.
    method FinishBuild(tx: Transaction, receipt: Receipt)
      requires Valid() && consumer == AtBuilder(tx) && ByConsumer !in writes && tx in records
      modifies this`writes, this`contended, this`receipts, this`consumer, this`built
      ensures Valid() && receipts == old(receipts)[tx := receipt]
      ensures built == if ReceiptOk(receipt, tx) then old(built)[tx := receipt] else old(built)
      ensures Pursued(Goal(AtBuilder(tx), Built(receipt)), Built(receipt), records, old(writes), writes, AtBuilder(tx),
                      consumer)
    {
      hide RecordsOk, ProgramsOk, WritesOk, InstallsOk, Plans;
      receipts := receipts[tx := receipt];
      if ReceiptOk(receipt, tx) {
        NoteBuilt(tx, receipt);
        ConsumerPlans(tx, Staged, Receipted(tx, receipt.generation, receipt.hostDigest), Idle);
      } else {
        ConsumerBecomes(Failing(tx, "build-receipt-invalid"));
      }
    }

    method AfterEvaluation(tx: Transaction, work: Work)
      requires Valid() && consumer == AtEvaluator(tx) && ByConsumer !in writes && tx in records
      modifies this`writes, this`contended, this`consumer
      ensures Valid() && Pursued(Goal(AtEvaluator(tx), work), work, records, old(writes), writes, AtEvaluator(tx),
                                 consumer)
    {
      hide Valid, Plans;
      if work == Evaluated("compatible") {
        ConsumerPlans(tx, Compatible, Evaluation("compatible"), Idle);
      } else if work == Evaluated("rebuild-required") {
        ConsumerPlans(tx, Building, Evaluation("rebuild-required"), AtBuilder(tx));
      } else if work.Breaks? {
        ConsumerBecomes(Idle);
      } else {
        ConsumerBecomes(Failing(tx, if work.WorkFails? then work.reason
                                else if work.Evaluated? then "host-" + work.status else ""));
      }
    }

    method AfterBuild(tx: Transaction, work: Work)
      requires Valid() && consumer == AtBuilder(tx) && ByConsumer !in writes && tx in records
      modifies this`writes, this`contended, this`receipts, this`consumer, this`built
      ensures Valid() && Pursued(Goal(AtBuilder(tx), work), work, records, old(writes), writes, AtBuilder(tx), consumer)
      ensures built == if work.Built? && ReceiptOk(work.receipt, tx) then old(built)[tx := work.receipt] else old(built)
    {
      hide Valid, Plans;
      if work.Built? {
        FinishBuild(tx, work.receipt);
      } else if work.Breaks? {
        ConsumerBecomes(Idle);
      } else {
        ConsumerBecomes(Failing(tx, if work.WorkFails? then work.reason else ""));
      }
    }

    // Whether there is a failure to record.
    method CheckFailure(tx: Transaction, reason: string)
      requires Valid() && consumer == Failing(tx, reason) && tx in records
      modifies this`consumer
      ensures Valid()
      ensures consumer == if records[tx].state in {Evaluating, Building, Staged} then MustFail(tx, reason) else Idle
    {
      hide Valid;
      ConsumerBecomes(if records[tx].state in {Evaluating, Building, Staged} then MustFail(tx, reason) else Idle);
    }

    // The next step of the consumer, with what its worker came back with.
    method ConsumerStep(work: Work)
      requires Valid() && consumer != Idle && consumer.tx in records && ByConsumer !in writes
      modifies this`writes, this`contended, this`receipts, this`consumer, this`built
      ensures Valid()
      ensures Pursued(Goal(old(consumer), work), work, records, old(writes), writes, old(consumer), consumer)
      ensures built == if old(consumer).AtBuilder? && work.Built? && ReceiptOk(work.receipt, old(consumer).tx)
                       then old(built)[old(consumer).tx := work.receipt] else old(built)
    {
      hide Valid, Plans;
      match consumer
      case Chosen(tx) => ConsumerPlans(tx, Evaluating, Evaluator, AtEvaluator(tx));
      case AtEvaluator(tx) => AfterEvaluation(tx, work);
      case AtBuilder(tx) => AfterBuild(tx, work);
      case Failing(tx, reason) => CheckFailure(tx, reason);
      case MustFail(tx, reason) => ConsumerPlans(tx, Failed, Failure(reason), Idle);
    }

    // ----- the installer ----------------------------------------------------------------------------

    method InstallerFails(id: nat)
      requires Valid()
      modifies this`installers, this`writes, this`late
      ensures Valid() && installers == old(installers) - {id}
      ensures writes == old(writes) - {ByInstaller(id)} && late == old(late) - {ByInstaller(id)}
    {
      hide RecordsOk, ProgramsOk, WritesOk, InstallsOk;
      Drop(ByInstaller(id));
      InstallerMovedOn(writes, installers, id, None);
      OneInstallerMoved(consumer, installers, records.Keys, seen, id,
                        Loaded(Transaction(map[], map[], None), NoDetail));
      installers := installers - {id};
    }

    method InstallerBecomes(id: nat, pc: Installer)
      requires Valid() && InstallerOk(pc, records.Keys, seen) && ByInstaller(id) !in writes
      modifies this`installers
      ensures Valid() && installers == old(installers)[id := pc]
    {
      hide RecordsOk, ProgramsOk, WritesOk, InstallsOk;
      InstallerMovedOn(writes, installers, id, Some(pc));
      OneInstallerMoved(consumer, installers, records.Keys, seen, id, pc);
      installers := installers[id := pc];
    }

    // The receipt the record of this transaction points to is for it, and for the host it was observed on.
    predicate ReceiptFits(pc: Installer)
      requires pc.Loaded?
      reads this
    {
      && pc.detail.Receipted? && pc.detail.receipt in receipts
      && receipts[pc.detail.receipt].transaction == pc.tx && receipts[pc.detail.receipt].hostDigest == pc.tx.digest
    }

    // What the host is found to be.
    method See(tx: Transaction)
      requires Valid()
      modifies this`seen
      ensures Valid() && seen == old(seen) + {Sighting(tx, host)}
    {
      hide RecordsOk, ProgramsOk, WritesOk, InstallsOk;
      OneMoreSeen(records, built, consumer, installers, seen, Sighting(tx, host));
      WritesStillBacked(writes, late, overlaps, contended, records, built, seen, tx, Receipt(tx, host, "", false),
                        Sighting(tx, host));
      seen := seen + {Sighting(tx, host)};
    }

    // The next check of one installer before the last; any that fails ends it.
    method InstallerCheck(id: nat, succeeds: bool, newHost: PackageSet)
      requires Valid() && id in installers && !installers[id].PackageInstalled? && ByInstaller(id) !in writes
      modifies this`installers, this`host, this`seen, this`writes, this`late
      ensures Valid() && writes == old(writes)
      ensures seen == if old(installers)[id].HasReceipt? then old(seen) + {Sighting(old(installers)[id].tx, old(host))}
        else old(seen)
      ensures host == if old(installers)[id].HostChecked? && succeeds then newHost else old(host)
      ensures installers ==
        match old(installers)[id]
        case Loaded(tx, detail) =>
          if old(ReceiptFits(installers[id])) then old(installers)[id := HasReceipt(tx, receipts[detail.receipt])]
          else old(installers) - {id}
        case HasReceipt(tx, receipt) =>
          if old(host) == tx.digest then old(installers)[id := HostChecked(tx, receipt)] else old(installers) - {id}
        case HostChecked(tx, receipt) =>
          if succeeds then old(installers)[id := PackageInstalled(tx, receipt)] else old(installers) - {id}
        case PackageInstalled(_, _) => old(installers)
    {
      InstallerIsOk(consumer, installers, records.Keys, seen, id);
      assert writes - {ByInstaller(id)} == writes;
      hide Valid;
      match installers[id]
      case Loaded(tx, detail) =>
        if ReceiptFits(installers[id]) {
          InstallerBecomes(id, HasReceipt(tx, receipts[detail.receipt]));
        } else {
          InstallerFails(id);
        }
      case HasReceipt(tx, receipt) =>
        See(tx);
        if host == receipt.hostDigest {
          InstallerBecomes(id, HostChecked(tx, receipt));
        } else {
          InstallerFails(id);
        }
      case HostChecked(tx, receipt) =>
        if succeeds {
          ChangeHost(newHost);
          InstallerBecomes(id, PackageInstalled(tx, receipt));
        } else {
          InstallerFails(id);
        }
    }

    // The package is there; if its generation was admitted, the record is to move on, if it is still
    // staged.  Otherwise the installer ends.
    method InstallerPlans(id: nat, admitted: bool)
      requires Valid() && id in installers && installers[id].PackageInstalled? && ByInstaller(id) !in writes
      modifies this`installers, this`writes, this`late, this`contended
      ensures Valid() && old(installers)[id].tx in records
      ensures var PackageInstalled(tx, receipt) := old(installers)[id];
              && (if admitted then Plans(records, old(writes), writes, ByInstaller(id), tx, Installed,
                                         Admitted(receipt.generation))
                  else writes == old(writes))
              && installers == if ByInstaller(id) in writes then old(installers) else old(installers) - {id}
    {
      InstallerIsOk(consumer, installers, records.Keys, seen, id);
      assert writes - {ByInstaller(id)} == writes;
      hide Valid;
      var loaded := Err(InvalidTransition);
      if admitted {
        loaded := Load(ByInstaller(id), installers[id].tx, Installed, Admitted(installers[id].receipt.generation));
      }
      if loaded.Err? {
        InstallerFails(id);
      }
    }

    // The record is installed, and the installer ends.
    method InstallerFinishes(id: nat)
      requires Valid() && ByInstaller(id) in writes
      modifies this`records, this`installers, this`writes, this`late, this`overlaps
      ensures Valid() && installers == old(installers) - {id} && writes == old(writes) - {ByInstaller(id)}
      ensures old(writes)[ByInstaller(id)].tx in old(records)
      ensures var write := old(writes)[ByInstaller(id)]; records == old(records)[write.tx := write.replacement]
      ensures overlaps == old(overlaps) ==> Evolves(old(records), records)
      ensures overlaps >= old(overlaps) && InstalledBut(Finishing(old(installers), id), old(records), records)
    {
      hide Valid, Evolves, InstalledBut, Overtaken;
      Replace(ByInstaller(id));
      InstallerFails(id);
    }

    // ----- any interleaving -----------------------------------------------------------------------------

    method ConsumerWorks(work: Work)
      requires Valid()
      modifies this`records, this`writes, this`late, this`overlaps, this`contended, this`receipts, this`consumer,
        this`built
      ensures Valid() && overlaps >= old(overlaps) && (overlaps == old(overlaps) ==> Evolves(old(records), records))
      ensures InstalledBut(None, old(records), records)
    {
      NothingChanges(records);
      ConsumerIsOk(consumer, installers, records.Keys, seen);
      hide Valid, Evolves, InstalledBut, Pursued, Overtaken;
      if ByConsumer in writes {
        Replace(ByConsumer);
      } else if consumer != Idle {
        ConsumerStep(work);
      }
    }

    method ConsumerEnds()
      requires Valid()
      modifies this`consumer, this`writes, this`late
      ensures Valid() && consumer == Idle && writes == old(writes) - {ByConsumer}
    {
      hide Valid;
      Drop(ByConsumer);
      ConsumerBecomes(Idle);
    }

    method InstallerWorks(id: nat, succeeds: bool, newHost: PackageSet)
      requires Valid()
      modifies this`records, this`writes, this`late, this`overlaps, this`contended, this`installers, this`host,
        this`seen
      ensures Valid() && overlaps >= old(overlaps) && (overlaps == old(overlaps) ==> Evolves(old(records), records))
      ensures InstalledBut(Finishing(old(installers), id), old(records), records)
    {
      NothingChanges(records);
      hide Valid, Evolves, InstalledBut, Plans;
      if ByInstaller(id) in writes {
        InstallerFinishes(id);
      } else if id in installers {
        if installers[id].PackageInstalled? {
          InstallerPlans(id, succeeds);
        } else {
          InstallerCheck(id, succeeds, newHost);
        }
      }
    }

    // The consumer chooses what is observed, an installer what is staged.
    method Start(step: Step)
      requires Valid() && (step.ConsumerStarts? || step.InstallerStarts?)
      modifies this`consumer, this`installers
      ensures Valid()
      ensures consumer == if step.ConsumerStarts? && old(consumer) == Idle && ByConsumer !in writes
                             && step.tx in records && records[step.tx].state == Observed
                          then Chosen(step.tx) else old(consumer)
      ensures installers == if step.InstallerStarts? && step.id !in old(installers) && ByInstaller(step.id) !in writes
                               && step.tx in records && records[step.tx].state == Staged
                            then old(installers)[step.id := Loaded(step.tx, records[step.tx].detail)]
                            else old(installers)
    {
      hide Valid;
      match step
      case ConsumerStarts(tx) =>
        if consumer == Idle && ByConsumer !in writes && tx in records && records[tx].state == Observed {
          ConsumerBecomes(Chosen(tx));
        }
      case InstallerStarts(id, tx) =>
        if id !in installers && ByInstaller(id) !in writes && tx in records && records[tx].state == Staged {
          InstallerBecomes(id, Loaded(tx, records[tx].detail));
        }
    }

    // Somebody resumes a record, or has a failed one observed again.
    method ByHandWorks(step: Step)
      requires Valid() && (step.Resumes? || step.Retries? || step.HandGoesOn? || step.HandStops?)
      modifies this`records, this`writes, this`late, this`overlaps, this`contended
      ensures Valid() && overlaps >= old(overlaps) && (overlaps == old(overlaps) ==> Evolves(old(records), records))
      ensures InstalledBut(None, old(records), records)
    {
      NothingChanges(records);
      hide Valid, Evolves, InstalledBut, Plans, Overtaken;
      match step
      case Resumes(id, tx) => if ByHand(id) !in writes && tx in records { var _ := LoadInterrupted(id, tx); }
      case Retries(id, tx) =>
        if ByHand(id) !in writes && tx in records { var _ := Load(ByHand(id), tx, Observed, NoDetail); }
      case HandGoesOn(id) => if ByHand(id) in writes { Replace(ByHand(id)); }
      case HandStops(id) => Drop(ByHand(id));
    }

    // A record is installed only by an installer that has put the package in.
    method Perform(step: Step)
      requires Valid()
      modifies this
      ensures Valid() && overlaps >= old(overlaps) && (overlaps == old(overlaps) ==> Evolves(old(records), records))
      ensures InstalledBut(if step.InstallerGoesOn? then Finishing(old(installers), step.id)
                           else None, old(records), records)
    {
      NothingChanges(records);
      hide Valid, Evolves, InstalledBut;
      match step
      case Observe(targets, watched, installed, release, maxPending) =>
        var _ := ObserveChange(targets, watched, installed, release, maxPending);
      case Resumes(_, _) => ByHandWorks(step);
      case Retries(_, _) => ByHandWorks(step);
      case HandGoesOn(_) => ByHandWorks(step);
      case HandStops(_) => ByHandWorks(step);
      case ConsumerStarts(_) => Start(step);
      case ConsumerGoesOn(work) => ConsumerWorks(work);
      case ConsumerStops => ConsumerEnds();
      case InstallerStarts(_, _) => Start(step);
      case InstallerGoesOn(id, succeeds, newHost) => InstallerWorks(id, succeeds, newHost);
      case InstallerStops(id) => InstallerFails(id);
      case HostChanges(newHost) => ChangeHost(newHost);
    }

    method ChangeHost(newHost: PackageSet)
      requires Valid()
      modifies this`host
      ensures Valid() && host == newHost
    {
      hide RecordsOk, ProgramsOk, WritesOk, InstallsOk;
      host := newHost;
    }

    // Whatever the programs do, and wherever they stop: histories are legal, and nothing is installed
    // that was not built and staged for the host it was observed on and seen on that host again.  If
    // nobody replaces a record that another has replaced since it was read, histories only grow, and what
    // is compatible or installed stays as it is; and nobody does if no record is read while another
    // program is about to replace it.
    method Run(steps: seq<Step>)
      requires Valid()
      modifies this
      ensures Valid() && |records| <= MAX_PENDING
      ensures forall tx :: tx in records ==> IsPath(records[tx].history)
      ensures forall tx :: tx in records && records[tx].state == Installed ==>
        Staged in records[tx].history && WasBuilt(built, tx) && WasSeen(seen, tx)
      ensures overlaps == old(overlaps) ==>
        && Evolves(old(records), records)
        && forall tx :: tx in old(records) && old(records)[tx].state in {Compatible, Installed} ==>
             tx in records && records[tx].history == old(records)[tx].history
               && records[tx].state == old(records)[tx].state
      ensures contended == 0 ==> overlaps == 0
    {
      ghost var first := records;
      RecordsAreSound();
      {
        hide Valid, Evolves;
        AlwaysEvolves(first);
        for i := 0 to |steps|
          invariant Valid() && overlaps >= old(overlaps) && (overlaps == old(overlaps) ==> Evolves(first, records))
        {
          ghost var before, count := records, overlaps;
          Perform(steps[i]);
          if overlaps == old(overlaps) { EvolvesOn(first, before, records); }
        }
      }
      RecordsAreSound();
      if overlaps == old(overlaps) { FinalStatesStay(first, records); }
    }

    // What holds in every state the queue gets into.
    lemma RecordsAreSound()
      requires Valid()
      ensures |records| <= MAX_PENDING && (contended == 0 ==> overlaps == 0)
      ensures forall tx :: tx in records ==> RecordOk(records[tx])
      ensures forall tx :: tx in records && records[tx].state == Installed ==>
        Staged in records[tx].history && WasBuilt(built, tx) && WasSeen(seen, tx)
    {
      forall tx | tx in records && records[tx].state == Installed
        ensures Staged in records[tx].history && WasBuilt(built, tx) && WasSeen(seen, tx)
      {
        var h := records[tx].history;
        assert Backed(records[tx], tx, built, seen);
        InstalledWasBuilt(h, |h| - 1);
        assert h[|h| - 2] == Staged && h[|h| - 1] == Installed;
      }
    }
  }

  lemma EvolvesOn(a: map<Transaction, Record>, b: map<Transaction, Record>, c: map<Transaction, Record>)
    requires Evolves(a, b) && Evolves(b, c)
    ensures Evolves(a, c)
  {
  }

  lemma AlwaysEvolves(a: map<Transaction, Record>)
    ensures Evolves(a, a)
  {
  }

  lemma NothingChanges(a: map<Transaction, Record>)
    ensures Evolves(a, a) && forall tx :: InstalledBut(tx, a, a)
  {
  }

  lemma FinalStatesStay(a: map<Transaction, Record>, b: map<Transaction, Record>)
    requires Evolves(a, b) && (forall tx :: tx in a ==> RecordOk(a[tx])) && (forall tx :: tx in b ==> RecordOk(b[tx]))
    ensures forall tx :: tx in a && a[tx].state in {Compatible, Installed} ==>
      tx in b && b[tx].history == a[tx].history && b[tx].state == a[tx].state
  {
    forall tx | tx in a && a[tx].state in {Compatible, Installed}
      ensures tx in b && b[tx].history == a[tx].history && b[tx].state == a[tx].state
    {
      TerminalStatesLast(a[tx].history, b[tx].history);
    }
  }

  lemma OneReplaced(a: map<Transaction, Record>, tx: Transaction, r: Record)
    requires tx in a
    ensures Evolves(a, a[tx := r]) <==> a[tx].history <= r.history
    ensures InstalledBut(if r.state == Installed then Some(tx) else None, a, a[tx := r])
  {
    assert tx in a[tx := r] && a[tx := r][tx] == r;
  }

  lemma SameAgain(a: map<Transaction, Record>, tx: Transaction)
    requires tx in a
    ensures a[tx := a[tx]] == a && Evolves(a, a)
  {
  }

  lemma FewerInstalls(writes: map<Writer, Write>, installers: map<nat, Installer>, w: Writer)
    requires InstallsOk(writes, installers)
    ensures InstallsOk(writes - {w}, installers)
    ensures w in writes && writes[w].replacement.state == Installed ==> Installs(w, installers) == Some(writes[w].tx)
  {
  }

  lemma InstallerMovedOn(writes: map<Writer, Write>, installers: map<nat, Installer>, id: nat, pc: Option<Installer>)
    requires InstallsOk(writes, installers) && ByInstaller(id) !in writes
    ensures InstallsOk(writes, if pc.Some? then installers[id := pc.value] else installers - {id})
  {
    forall w | w in writes && writes[w].replacement.state == Installed
      ensures Installs(w, if pc.Some? then installers[id := pc.value] else installers - {id}) == Some(writes[w].tx)
    {
      assert w.ByInstaller? ==> w.id != id;
    }
  }

  lemma InstallerIsOk(consumer: Consumer, installers: map<nat, Installer>, known: set<Transaction>,
                      seen: set<Sighting>, id: nat)
    requires ProgramsOk(consumer, installers, known, seen) && id in installers
    ensures InstallerOk(installers[id], known, seen)
  {
  }

  lemma ConsumerIsOk(consumer: Consumer, installers: map<nat, Installer>, known: set<Transaction>, seen: set<Sighting>)
    requires ProgramsOk(consumer, installers, known, seen)
    ensures consumer != Idle ==> consumer.tx in known
  {
  }

  // ----- what does not hold ----------------------------------------------------------------------------

  method Recorded(name: string, version: string) returns (guardian: UpdateGuardian, tx: Transaction)
    ensures fresh(guardian) && guardian.Valid() && guardian.writes == map[] && guardian.late == {}
    ensures guardian.consumer == Idle && guardian.overlaps == 0
    ensures tx in guardian.records && guardian.records[tx] == Record(Observed, NoDetail, None, [Observed])
  {
    hide UpdateGuardian.Valid, Evolves, InstalledBut;
    guardian := new UpdateGuardian(map[]);
    var installed := map[name := version];
    var observed := guardian.ObserveChange({name}, {name}, installed, None, 1);
    var changes := map n | n in {name} * {name} && n in installed :: installed[n];
    assert name in changes;
    tx := Transaction(installed, changes, None);
  }

  method AtTheEvaluator(name: string, version: string) returns (guardian: UpdateGuardian, tx: Transaction)
    ensures fresh(guardian) && guardian.Valid() && guardian.writes == map[] && tx in guardian.records
    ensures guardian.consumer == AtEvaluator(tx)
    ensures guardian.records[tx].state == Evaluating && guardian.records[tx].history == [Observed, Evaluating]
  {
    hide UpdateGuardian.Valid, Overtaken, Evolves, InstalledBut, Installs;
    guardian, tx := Recorded(name, version);
    guardian.Start(ConsumerStarts(tx));
    guardian.ConsumerStep(Evaluated("compatible"));
    guardian.Replace(ByConsumer);
  }

  // Somebody resumes while the consumer works: both have read the record as evaluating.  The consumer
  // records that it is compatible, which is final; then it is observed again, and nothing tells that it
  // ever was compatible.
  method FinalStateIsLost(name: string, version: string) returns (first: Record, later: Record)
    ensures first.state == Compatible && first.history == [Observed, Evaluating, Compatible]
    ensures later.state == Observed && later.history == [Observed, Evaluating, Observed]
  {
    hide UpdateGuardian.Valid, Overtaken, Evolves, InstalledBut, Installs, WritersOf;
    var guardian, tx := AtTheEvaluator(name, version);
    guardian.ConsumerStep(Evaluated("compatible"));
    var _ := guardian.LoadInterrupted(0, tx);
    guardian.Replace(ByConsumer);
    first := guardian.records[tx];
    guardian.Replace(ByHand(0));
    later := guardian.records[tx];
  }
}
