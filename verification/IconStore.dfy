/**
  Approving a generated icon: an object, a journal, a manifest and the active icon are replaced one
  after the other, and the program may stop between any two.  Opening the store again repairs.
  Hashes are injective: an object is named by its own content.
*/
module IconStore {
  import opened Wrappers

  type Content = string

  datatype Entry = Entry(desktop: string, target: string, source: string, strategy: string, object_: Content,
                         approvedAt: int)
  // A text that is no JSON, JSON that is no object or cannot be taken in, or what was pending.
  datatype Journal = Unreadable | NoObject | Pending(desktop: string, object_: Content, target: string)

  datatype Disk = Disk(
    objects: map<Content, Content>,   // by name; the content should be the name
    journal: Option<Journal>,
    manifest: map<string, Entry>,     // by desktop id, case folded
    overlay: bool,
    active: map<string, Content>)

  predicate Intact(d: Disk, object_: Content) {
    object_ in d.objects && d.objects[object_] == object_
  }

  // ----- the steps of an approval ----------------------------------------------------------------------

  // The object, unless there is a file of that name already.
  function WithObject(d: Disk, e: Entry): Disk {
    if e.object_ in d.objects then d else d.(objects := d.objects[e.object_ := e.object_])
  }

  function WithJournal(d: Disk, e: Entry): Disk {
    d.(journal := Some(Pending(e.desktop, e.object_, e.target)))
  }

  // The manifest is written from the entries the program has in memory.
  function WithEntry(fold: string -> string, d: Disk, entries: map<string, Entry>, e: Entry): Disk {
    d.(manifest := entries[fold(e.desktop) := e])
  }

  function WithActive(d: Disk, e: Entry): Disk
    requires e.object_ in d.objects
  {
    d.(overlay := true, active := d.active[e.target := d.objects[e.object_]])
  }

  // Object, journal and manifest are written.
  function Written(fold: string -> string, d: Disk, entries: map<string, Entry>, e: Entry): Disk {
    WithEntry(fold, WithJournal(WithObject(d, e), e), entries, e)
  }

  // So many steps after the manifest; a damaged object is not activated.
  function Activated(d: Disk, e: Entry, steps: nat): Disk {
    if steps == 0 || !Intact(d, e.object_) then d
    else if steps == 1 then d.(overlay := true)
    else if steps == 2 then WithActive(d, e)
    else WithActive(d, e).(journal := None)
  }

  // The disk after so many steps of approving e.
  function AfterSteps(fold: string -> string, d: Disk, entries: map<string, Entry>, e: Entry, steps: nat): Disk {
    if steps == 0 then d
    else if steps == 1 then WithObject(d, e)
    else if steps == 2 then WithJournal(WithObject(d, e), e)
    else Activated(Written(fold, d, entries, e), e, steps - 3)
  }

  // ----- opening the store -------------------------------------------------------------------------------

  // The entry of the manifest the journal is about, if it names the same object.
  function Awaited(fold: string -> string, d: Disk): Option<Entry> {
    match d.journal
    case Some(Pending(desktop, object_, _)) =>
      if fold(desktop) in d.manifest && d.manifest[fold(desktop)].object_ == object_
      then Some(d.manifest[fold(desktop)]) else None
    case _ => None
  }

  // What reconciling does: activate what was awaited, and forget the journal unless that failed.
  function Reopened(fold: string -> string, d: Disk): Disk {
    match d.journal
    case None => d
    case Some(Unreadable) => d
    case Some(NoObject) => d
    case Some(Pending(_, _, _)) =>
      match Awaited(fold, d)
      case None => d.(journal := None)
      case Some(e) => if Intact(d, e.object_) then WithActive(d, e).(journal := None) else d
  }

  // The journal is cleared exactly unless it cannot be read, is no object, or awaits an object that is damaged.
  lemma JournalIsCleared(fold: string -> string, d: Disk)
    ensures Reopened(fold, d).journal == None <==>
      !(d.journal in {Some(Unreadable), Some(NoObject)}
        || (Awaited(fold, d).Some? && !Intact(d, Awaited(fold, d).value.object_)))
  {
  }

  // Opening the store, stopped after so many of its own steps.
  function ReopenedPartly(fold: string -> string, d: Disk, steps: nat): Disk {
    match d.journal
    case None => d
    case Some(Unreadable) => d
    case Some(NoObject) => d
    case Some(Pending(_, _, _)) =>
      match Awaited(fold, d)
      case None => if steps == 0 then d else d.(journal := None)
      case Some(e) => Activated(d, e, steps)
  }

  // Wherever opening the store stopped, opening it again gives what finishing would have given.
  lemma ReopeningAgain(fold: string -> string, d: Disk, steps: nat)
    ensures Reopened(fold, ReopenedPartly(fold, d, steps)) == Reopened(fold, d)
    ensures steps >= 3 ==> ReopenedPartly(fold, d, steps) == Reopened(fold, d)
  {
    if Awaited(fold, d).Some? {
      var e := Awaited(fold, d).value;
      var after := Activated(d, e, steps);
      if Intact(d, e.object_) {
        assert d.active[e.target := e.object_][e.target := e.object_] == d.active[e.target := e.object_];
      }
      assert after.journal.Some? ==> Awaited(fold, after) == Some(e);
    }
  }

  // Opening again changes nothing more.
  lemma ReopeningTwice(fold: string -> string, d: Disk)
    ensures Reopened(fold, Reopened(fold, d)) == Reopened(fold, d)
  {
    ReopeningAgain(fold, d, 3);
  }

  // An active icon only changes into the intact object of an entry of the manifest.
  lemma OnlyEntriesBecomeActive(fold: string -> string, d: Disk, target: string)
    requires target in Reopened(fold, d).active
    requires target !in d.active || Reopened(fold, d).active[target] != d.active[target]
    ensures exists key :: key in d.manifest && d.manifest[key].target == target
                          && d.manifest[key].object_ == Reopened(fold, d).active[target]
    ensures Reopened(fold, d).manifest == d.manifest && Reopened(fold, d).objects == d.objects
  {
    var e := Awaited(fold, d).value;
    assert fold(d.journal.value.desktop) in d.manifest;
  }

  predicate ObjectUsable(d: Disk, e: Entry) {
    e.object_ in d.objects ==> d.objects[e.object_] == e.object_
  }

  // With the manifest replaced and the journal still there, opening completes the approval or leaves it pending.
  lemma PendingIsCompleted(fold: string -> string, d: Disk, e: Entry)
    requires d.journal == Some(Pending(e.desktop, e.object_, e.target)) && fold(e.desktop) in d.manifest
    requires d.manifest[fold(e.desktop)] == e
    ensures Reopened(fold, d) == if Intact(d, e.object_) then WithActive(d, e).(journal := None) else d
  {
  }

  lemma WrittenIsPending(fold: string -> string, d: Disk, entries: map<string, Entry>, e: Entry)
    ensures var w := Written(fold, d, entries, e);
            && w.manifest == entries[fold(e.desktop) := e] && w.active == d.active
            && w.journal == Some(Pending(e.desktop, e.object_, e.target))
            && (Intact(w, e.object_) <==> ObjectUsable(d, e))
  {
  }

  // Wherever activating stopped, opening the store gives what finishing it would have given.
  lemma ActivationIsCompleted(fold: string -> string, w: Disk, e: Entry, steps: nat)
    requires w.journal == Some(Pending(e.desktop, e.object_, e.target)) && fold(e.desktop) in w.manifest
    requires w.manifest[fold(e.desktop)] == e
    ensures var r := Reopened(fold, Activated(w, e, steps));
            r == if Intact(w, e.object_) then WithActive(w, e).(journal := None) else w
  {
    var after := Activated(w, e, steps);
    if after.journal != None {
      PendingIsCompleted(fold, after, e);
    }
    if Intact(w, e.object_) {
      assert w.active[e.target := e.object_][e.target := e.object_] == w.active[e.target := e.object_];
    }
  }

  lemma EarlySteps(fold: string -> string, d: Disk, entries: map<string, Entry>, e: Entry, steps: nat)
    requires steps < 3
    ensures AfterSteps(fold, d, entries, e, steps).manifest == d.manifest
  {
  }

  // Stopping before the manifest was replaced leaves the old one; stopping later leaves the entries with
  // the new one, with the icon active and the journal gone, exactly if the object is not damaged.
  lemma StoppedApprovalIsRepaired(fold: string -> string, d: Disk, entries: map<string, Entry>, e: Entry, steps: nat)
    ensures var r := Reopened(fold, AfterSteps(fold, d, entries, e, steps));
            && (steps < 3 ==> r.manifest == d.manifest)
            && (steps >= 3 ==>
                  && r.manifest == entries[fold(e.desktop) := e]
                  && (r.journal == None <==> ObjectUsable(d, e))
                  && r.active == (if ObjectUsable(d, e) then d.active[e.target := e.object_] else d.active))
  {
    if steps < 3 {
      EarlySteps(fold, d, entries, e, steps);
    } else {
      WrittenIsPending(fold, d, entries, e);
      ActivationIsCompleted(fold, Written(fold, d, entries, e), e, steps - 3);
    }
  }

  // Stopped after the journal, before the manifest: the journal is about nothing and is cleared, unless
  // the old entry is for the same object; if that is usable, it is shown again under the old target.
  lemma StoppedAtJournal(fold: string -> string, d: Disk, entries: map<string, Entry>, e: Entry)
    ensures var stopped := AfterSteps(fold, d, entries, e, 2);
            var r, key := Reopened(fold, stopped), fold(e.desktop);
            if !(key in d.manifest && d.manifest[key].object_ == e.object_) then r == WithObject(d, e).(journal := None)
            else if ObjectUsable(d, e) then r == WithActive(WithObject(d, e), d.manifest[key]).(journal := None)
            else r == stopped
  {
  }

  // An approval that stops after the manifest leaves the entries in memory as they were: the next one
  // in the same process writes the manifest without it, and puts its own journal in the place of its.
  lemma NextApprovalForgets(fold: string -> string, d: Disk, entries: map<string, Entry>, e: Entry, steps: nat,
                            next: Entry, more: nat)
    requires more >= 3
    ensures var r := Reopened(fold, AfterSteps(fold, AfterSteps(fold, d, entries, e, steps), entries, next, more));
            && r.manifest == entries[fold(next.desktop) := next]
            && (fold(e.desktop) != fold(next.desktop) ==>
                  if fold(e.desktop) in entries then r.manifest[fold(e.desktop)] == entries[fold(e.desktop)]
                  else fold(e.desktop) !in r.manifest)
  {
    StoppedApprovalIsRepaired(fold, AfterSteps(fold, d, entries, e, steps), entries, next, more);
  }

  // ----- the store ------------------------------------------------------------------------------------

  datatype Approval = Approved | Stopped | Damaged

  class GeneratedIconStore {
    const fold: string -> string
    var disk: Disk
    var entries: map<string, Entry>

    // Loads the manifest.
    constructor (fold: string -> string, disk: Disk)
      ensures this.fold == fold && this.disk == disk && entries == disk.manifest
    {
      this.fold, this.disk, entries := fold, disk, disk.manifest;
    }

    // Repairs, as far as the program gets; a journal that is no object raises an error nobody expects.
    method Reconcile(steps: nat) returns (raised: bool)
      requires entries == disk.manifest
      modifies this`disk
      ensures raised <==> old(disk).journal == Some(NoObject)
      ensures disk == ReopenedPartly(fold, old(disk), steps) && entries == disk.manifest
    {
      raised := disk.journal == Some(NoObject);
      if disk.journal.None? || !disk.journal.value.Pending? {
        return;
      }
      var Pending(desktop, object_, _) := disk.journal.value;
      var key, left := fold(desktop), steps;
      if key in entries && entries[key].object_ == object_ {
        var ok := Activate(entries[key], steps);
        if !ok {
          return;
        }
        left := steps - 2;
      }
      if left > 0 {
        disk := disk.(journal := None);
      }
    }

    // A missing or damaged object is an error; otherwise the overlay and the icon are written, as far
    // as the program gets.
    method Activate(e: Entry, steps: nat) returns (ok: bool)
      modifies this`disk
      ensures ok == (Intact(old(disk), e.object_) && steps >= 2)
      ensures !Intact(old(disk), e.object_) || steps == 0 ==> disk == old(disk)
      ensures Intact(old(disk), e.object_) && steps == 1 ==> disk == old(disk).(overlay := true)
      ensures ok ==> disk == WithActive(old(disk), e)
    {
      if !Intact(disk, e.object_) || steps == 0 {
        return false;
      }
      disk := disk.(overlay := true);
      if steps == 1 {
        return false;
      }
      disk := disk.(active := disk.active[e.target := disk.objects[e.object_]]);
      ok := true;
    }

    // Approves an icon, stopping after so many steps if it has not finished by then.  The entries are
    // the manifest again as soon as an approval finishes.
    method Approve(e: Entry, steps: nat) returns (r: Approval)
      modifies this
      ensures disk == AfterSteps(fold, old(disk), old(entries), e, steps)
      ensures r == Approved ==> entries == disk.manifest == old(entries)[fold(e.desktop) := e] && disk.journal == None
      ensures r != Approved ==> entries == old(entries)
      ensures r == Damaged <==> steps >= 3 && !Intact(disk, e.object_)
      ensures r == Approved <==> steps >= 6 && Intact(disk, e.object_)
    {
      r := Stopped;
      if steps == 0 {
        return;
      }
      if e.object_ !in disk.objects {
        disk := disk.(objects := disk.objects[e.object_ := e.object_]);
      }
      if steps == 1 {
        return;
      }
      disk := disk.(journal := Some(Pending(e.desktop, e.object_, e.target)));
      if steps == 2 {
        return;
      }
      var updated := entries[fold(e.desktop) := e];
      disk := disk.(manifest := updated);
      if !Intact(disk, e.object_) {
        return Damaged;
      }
      var ok := Activate(e, steps - 3);
      if !ok || steps == 5 {
        return;
      }
      entries := updated;
      disk := disk.(journal := None);
      r := Approved;
    }
  }

  // Opening the store loads and repairs it.  It fails exactly on a journal that is no object, and then
  // changes nothing: it will fail again.
  method OpenStore(fold: string -> string, disk: Disk) returns (r: Option<GeneratedIconStore>)
    ensures r.None? <==> disk.journal == Some(NoObject)
    ensures r.None? ==> Reopened(fold, disk) == disk
    ensures r.Some? ==>
      fresh(r.value) && r.value.fold == fold && r.value.disk == Reopened(fold, disk) && r.value.entries == disk.manifest
  {
    var store := new GeneratedIconStore(fold, disk);
    ReopeningAgain(fold, disk, 3);
    var raised := store.Reconcile(3);
    r := if raised then None else Some(store);
  }
}
