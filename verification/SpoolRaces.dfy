/** Any number of releases and reconciliations running at the same time.

    Ledger transactions hold the volume lock; tree removals, unlinks and the directory scan do not.
    A process may crash between any two steps, which frees its lock.  The merge of reconciliation
    reads the journal and the snapshot of each publication in two separate steps while it holds the
    lock, so releases can remove either in between.
*/
module SpoolRaces {
  import opened Spool

  type Pid = nat

  datatype Process =
    | ReleaseStart(slot: Slot)
    | ReleaseMarked(slot: Slot)
    | ReleaseNoSnapshot(slot: Slot)
    | ReleaseNoJournal(slot: Slot)
    | SweepStart
    | SweepRemove(todo: seq<Slot>, half: bool, done: seq<Slot>)
    | SweepScan
    | SweepMerge(found: seq<Slot>, seen: seq<Manifest>, records: Ledger)
    | Finished

  datatype World = World(disk: Disk, lock: set<Pid>, processes: map<Pid, Process>)

  ghost predicate Moves(w: World, v: World, pid: Pid, d: Disk, lock: set<Pid>, p: Process) {
    v == World(d, lock, w.processes[pid := p])
  }

  /** One step of process `pid`. */
  ghost predicate Steps(w: World, v: World, pid: Pid)
    requires pid in w.processes
  {
    var d := w.disk;
    var free := w.lock == {};
    match w.processes[pid]
    case ReleaseStart(slot) =>
      free && if MayRelease(d.ledger, slot)
              then exists now :: Moves(w, v, pid, d.(ledger := MarkReleasing(d.ledger, slot.id, now)), {}, ReleaseMarked(slot))
              else Moves(w, v, pid, d, {}, Finished)
    case ReleaseMarked(slot) => Moves(w, v, pid, d.DropSnapshot(slot), w.lock, ReleaseNoSnapshot(slot))
    case ReleaseNoSnapshot(slot) => Moves(w, v, pid, d.DropJournal(slot), w.lock, ReleaseNoJournal(slot))
    case ReleaseNoJournal(slot) => free && Moves(w, v, pid, d.DropRecord(slot.id), {}, Finished)
    case SweepStart =>
      free && exists listing, limit ::
        Moves(w, v, pid, d, {}, SweepRemove(FirstReleasing(d.ledger, listing, limit), false, []))
    case SweepRemove(todo, half, done) =>
      if todo == [] then free && Moves(w, v, pid, d.(ledger := DropReleased(d.ledger, done)), {}, SweepScan)
      else if !half then Moves(w, v, pid, d.DropSnapshot(todo[0]), w.lock, SweepRemove(todo, true, done))
      else Moves(w, v, pid, d.DropJournal(todo[0]), w.lock, SweepRemove(todo[1..], false, done + [todo[0]]))
    case SweepScan =>
      // The unlocked scan reads a moving directory: it may have found anything.
      free && exists found: seq<Slot> :: Moves(w, v, pid, d, {pid}, SweepMerge(found, [], d.ledger))
    case SweepMerge(found, seen, records) =>
      if found == [] then Moves(w, v, pid, d.(ledger := records), w.lock - {pid}, Finished)
      else if seen == [] && found[0] in d.journals then
        Moves(w, v, pid, d, w.lock, SweepMerge(found, [d.journals[found[0]]], records))
      else if seen != [] && found[0] in d.snapshots && d.snapshots[found[0]] == seen[0].sizes then
        exists now :: Moves(w, v, pid, d, w.lock, SweepMerge(found[1..], [], MergeOne(records, found[0], Sum(seen[0].sizes), now)))
      else Moves(w, v, pid, d, w.lock, SweepMerge(found[1..], [], records))
    case Finished => false
  }

  ghost predicate Starts(w: World, v: World, pid: Pid, p: Process) {
    pid !in w.processes && (p.ReleaseStart? || p.SweepStart?) && v == w.(processes := w.processes[pid := p])
  }

  ghost predicate Crashes(w: World, v: World, pid: Pid) {
    v == World(w.disk, w.lock - {pid}, w.processes - {pid})
  }

  ghost predicate Next(w: World, v: World) {
    (exists pid :: pid in w.processes && Steps(w, v, pid))
    || (exists pid, p :: Starts(w, v, pid, p))
    || (exists pid :: Crashes(w, v, pid))
  }

  // ---------------------------------------------------------------- the invariant

  /** A record under release is still releasing, for the same profile, or already gone. */
  ghost predicate UnderRelease(l: Ledger, slot: Slot) {
    slot.id in l ==> l[slot.id].profile == slot.profile && l[slot.id].state == Releasing
  }

  /** The merged copy has the records of the ledger, and exactly its releasing ones. */
  ghost predicate Copies(records: Ledger, l: Ledger) {
    records.Keys == l.Keys && forall id | id in l ::
      records[id].profile == l[id].profile && (l[id].state == Releasing ==> records[id] == l[id])
  }

  ghost predicate ProcessOk(d: Disk, p: Process) {
    match p
    case ReleaseMarked(slot) => UnderRelease(d.ledger, slot)
    case ReleaseNoSnapshot(slot) => UnderRelease(d.ledger, slot) && slot !in d.snapshots
    case ReleaseNoJournal(slot) => UnderRelease(d.ledger, slot) && slot !in d.snapshots
    case SweepRemove(todo, half, done) =>
      (half ==> todo != [] && todo[0] !in d.snapshots) && (forall s | s in done :: s !in d.snapshots)
    case SweepMerge(_, _, records) => Copies(records, d.ledger)
    case _ => true
  }

  ghost predicate Inv(w: World) {
    && Covered(w.disk)
    && (forall pid | pid in w.processes :: ProcessOk(w.disk, w.processes[pid]))
    && (forall pid | pid in w.processes && w.processes[pid].SweepMerge? :: w.lock == {pid})
  }

  /** What no step may do: put a releasing record back, change its profile, or add a record. */
  ghost predicate NoResurrection(a: Ledger, b: Ledger) {
    b.Keys <= a.Keys && forall id | id in b ::
      b[id].profile == a[id].profile && (a[id].state == Releasing ==> b[id].state == Releasing)
  }

  /** A process keeps its invariant while another one changes the disk as a release or sweep may. */
  lemma OthersKeep(d: Disk, e: Disk, p: Process)
    requires ProcessOk(d, p) && NoResurrection(d.ledger, e.ledger) && e.snapshots.Keys <= d.snapshots.Keys
    requires p.SweepMerge? ==> e.ledger == d.ledger
    ensures ProcessOk(e, p)
  {
  }

  lemma StepKeeps(w: World, v: World, pid: Pid)
    requires Inv(w) && pid in w.processes && Steps(w, v, pid)
    ensures NoResurrection(w.disk.ledger, v.disk.ledger) && v.disk.snapshots.Keys <= w.disk.snapshots.Keys
    ensures Covered(v.disk) && ProcessOk(v.disk, v.processes[pid])
    ensures w.lock != {} && w.lock != {pid} ==> v.disk.ledger == w.disk.ledger
  {
    var d := w.disk;
    match w.processes[pid]
    case SweepRemove(todo, half, done) =>
      if todo == [] { DropReleasedDrops(d.ledger, done); }
    case SweepMerge(found, seen, records) =>
      if found != [] && seen != [] && found[0] in d.snapshots {
        // The snapshot is there now, so its record exists, and the lock has kept it in the copy.
        assert found[0].id in records && records[found[0].id].profile == found[0].profile;
      }
    case _ =>
  }

  lemma LockedStep(w: World, v: World, pid: Pid)
    requires pid in w.processes && Steps(w, v, pid)
    ensures v.processes.Keys == w.processes.Keys && forall q | q in w.processes && q != pid :: v.processes[q] == w.processes[q]
    ensures v.processes[pid].SweepMerge? ==> v.lock == {pid} || (w.processes[pid].SweepMerge? && v.lock == w.lock)
    ensures v.lock != w.lock ==> w.lock == {} || w.processes[pid].SweepMerge?
  {
  }

  lemma StepInv(w: World, v: World, pid: Pid)
    requires Inv(w) && pid in w.processes && Steps(w, v, pid)
    ensures Inv(v) && NoResurrection(w.disk.ledger, v.disk.ledger)
  {
    StepKeeps(w, v, pid);
    LockedStep(w, v, pid);
    forall q | q in v.processes
      ensures ProcessOk(v.disk, v.processes[q])
      ensures v.processes[q].SweepMerge? ==> v.lock == {q}
    {
      if q != pid {
        assert v.processes[q] == w.processes[q];
        OthersKeep(w.disk, v.disk, w.processes[q]);
      }
    }
  }

  lemma NextKeeps(w: World, v: World)
    requires Inv(w) && Next(w, v)
    ensures Inv(v) && NoResurrection(w.disk.ledger, v.disk.ledger)
  {
    if pid :| pid in w.processes && Steps(w, v, pid) {
      StepInv(w, v, pid);
    } else if pid, p :| Starts(w, v, pid, p) {
    } else {
      var pid :| Crashes(w, v, pid);
    }
  }

  ghost predicate Behaviour(t: seq<World>) {
    |t| > 0 && (forall i :: 0 <= i < |t| - 1 ==> Next(t[i], t[i + 1]))
  }

  /** In every behaviour that starts on a covered disk, snapshots stay covered, and between any two
      moments no deleted record comes back and no releasing publication is put back to frozen. */
  lemma {:induction false} ReleasesAreNeverUndone(t: seq<World>, i: nat, j: nat)
    requires Behaviour(t) && i <= j < |t|
    requires Covered(t[0].disk) && t[0].processes == map[] && t[0].lock == {}
    ensures Inv(t[j]) && NoResurrection(t[i].disk.ledger, t[j].disk.ledger)
  {
    if j > 0 {
      if i < j {
        ReleasesAreNeverUndone(t, i, j - 1);
      } else {
        ReleasesAreNeverUndone(t, i - 1, j - 1);
      }
      NextKeeps(t[j - 1], t[j]);
    }
  }

  /** A publication whose record is gone never has a snapshot again that a sweep could charge. */
  lemma GoneStaysGone(t: seq<World>, i: nat, j: nat, id: PublicationId)
    requires Behaviour(t) && i <= j < |t|
    requires Covered(t[0].disk) && t[0].processes == map[] && t[0].lock == {}
    requires id !in t[i].disk.ledger
    ensures id !in t[j].disk.ledger && forall s | s in t[j].disk.snapshots :: s.id != id
  {
    ReleasesAreNeverUndone(t, i, j);
  }
}
