/** The publication spool of one volume: a quota ledger, snapshot directories and journals.

    The truth is split over three places that are never updated together, so each operation is
    specified by its _trail_: the disk after every rename, unlink, tree removal and ledger
    replacement.  A crash leaves the disk in some state of the trail.
*/
module Spool {

  const MAX_FILES := 10
  const MAX_PUBLICATION_MANIFESTS := 20
  const MAX_PUBLICATION_INCOMPLETE := 2
  const MAX_PUBLICATION_FILE_BYTES := 25_000_000
  const MAX_PUBLICATION_BYTES := 50_000_000
  const MAX_PROFILE_PUBLICATION_BYTES := 100_000_000
  const MAX_VOLUME_PUBLICATION_BYTES := 250_000_000
  const MIN_VOLUME_FREE_BYTES := 250_000_000
  const PARTIAL_PUBLICATION_STALE_SECONDS := 24 * 60 * 60
  const RECONCILE_LIMIT := 100

  /** A canonical publication UUID, as the 128-bit number it denotes. */
  type PublicationId = nat

  datatype RecordState = Copying | Frozen | Releasing
  datatype Record = Record(profile: string, size: nat, state: RecordState, updatedAt: int)
  type Ledger = map<PublicationId, Record>

  /** The place `<spool root>/<profile>/<publication>`. */
  datatype Slot = Slot(profile: string, id: PublicationId)
  /** A `.copy` directory; `nonce` is its random infix. */
  datatype Copy = Copy(slot: Slot, nonce: nat)
  /** A journal: the source paths and the byte size of each frozen file. */
  datatype Manifest = Manifest(paths: seq<string>, sizes: seq<nat>)

  datatype Disk = Disk(
    ledger: Ledger,
    snapshots: map<Slot, seq<nat>>,
    journals: map<Slot, Manifest>,
    copies: set<Copy>)
  {
    function DropSnapshot(slot: Slot): Disk { this.(snapshots := snapshots - {slot}) }
    function DropJournal(slot: Slot): Disk { this.(journals := journals - {slot}) }
    function DropRecord(id: PublicationId): Disk { this.(ledger := ledger - {id}) }
    function DropCopies(slot: Slot): Disk { this.(copies := set c | c in copies && c.slot != slot) }

    /** The journal is there and every file it lists is in the snapshot with its recorded size. */
    predicate SnapshotExists(slot: Slot) {
      slot in journals && slot in snapshots && snapshots[slot] == journals[slot].sizes
    }
  }

  function Sum(sizes: seq<nat>): nat {
    if sizes == [] then 0 else Sum(sizes[..|sizes| - 1]) + sizes[|sizes| - 1]
  }

  /** The disk an operation with trail `t` ends in. */
  function End(d: Disk, t: seq<Disk>): Disk { if t == [] then d else t[|t| - 1] }

  // ---------------------------------------------------------------- quotas

  /** The four limits, each a bound on a sum of weights over the ledger. */
  datatype Quota = Manifests(profile: string) | Incomplete(profile: string) | ProfileBytes(profile: string) | VolumeBytes

  function Weight(q: Quota, r: Record): nat {
    match q
    case Manifests(p) => if r.profile == p then 1 else 0
    case Incomplete(p) => if r.profile == p && r.state == Copying then 1 else 0
    case ProfileBytes(p) => if r.profile == p then r.size else 0
    case VolumeBytes => r.size
  }

  function Limit(q: Quota): nat {
    match q
    case Manifests(_) => MAX_PUBLICATION_MANIFESTS
    case Incomplete(_) => MAX_PUBLICATION_INCOMPLETE
    case ProfileBytes(_) => MAX_PROFILE_PUBLICATION_BYTES
    case VolumeBytes => MAX_VOLUME_PUBLICATION_BYTES
  }

  ghost function Total(l: Ledger, q: Quota): nat
    decreases |l|
  {
    if l == map[] then 0 else
      var k :| k in l;
      Weight(q, l[k]) + Total(l - {k}, q)
  }

  lemma {:induction false} TotalWithout(l: Ledger, k: PublicationId, q: Quota)
    requires k in l
    ensures Total(l, q) == Weight(q, l[k]) + Total(l - {k}, q)
    decreases |l|
  {
    var j :| j in l && Total(l, q) == Weight(q, l[j]) + Total(l - {j}, q);
    if j != k {
      TotalWithout(l - {j}, k, q);
      TotalWithout(l - {k}, j, q);
      assert l - {j} - {k} == l - {k} - {j};
    }
  }

  lemma TotalUpdate(l: Ledger, k: PublicationId, r: Record, q: Quota)
    ensures Total(l[k := r], q) == Total(l - {k}, q) + Weight(q, r)
  {
    TotalWithout(l[k := r], k, q);
    assert l[k := r] - {k} == l - {k};
  }

  lemma TotalDrop(l: Ledger, k: PublicationId, q: Quota)
    ensures Total(l - {k}, q) <= Total(l, q)
  {
    if k in l { TotalWithout(l, k, q); } else { assert l - {k} == l; }
  }

  lemma {:induction false} TotalDropMany(l: Ledger, ks: set<PublicationId>, q: Quota)
    ensures Total(l - ks, q) <= Total(l, q)
    decreases |ks|
  {
    if ks == {} {
      assert l - ks == l;
    } else {
      var k :| k in ks;
      TotalDropMany(l, ks - {k}, q);
      TotalDrop(l - (ks - {k}), k, q);
      assert l - (ks - {k}) - {k} == l - ks;
    }
  }

  /** How much is claimed of a disk: that snapshots are charged, that the counts hold as well, or that
      the bytes do too. */
  datatype Level = Coverage | Counts | Bytes

  predicate Claims(level: Level, q: Quota) {
    level == Bytes || (level == Counts && (q.Manifests? || q.Incomplete?))
  }

  ghost predicate Within(l: Ledger, level: Level) { forall q | Claims(level, q) :: Total(l, q) <= Limit(q) }

  ghost predicate WithinQuota(l: Ledger) { Within(l, Bytes) }

  // ---------------------------------------------------------------- ledger transactions

  function MarkFrozen(l: Ledger, id: PublicationId, now: int): Ledger {
    if id in l then l[id := l[id].(state := Frozen, updatedAt := now)] else l
  }

  function MarkReleasing(l: Ledger, id: PublicationId, now: int): Ledger
    requires id in l
  {
    if l[id].state == Releasing then l else l[id := l[id].(state := Releasing, updatedAt := now)]
  }

  predicate MayRelease(l: Ledger, slot: Slot) {
    slot.id in l && l[slot.id].profile == slot.profile && l[slot.id].state != Copying
  }

  /** What the merge of reconciliation does with one journal whose snapshot is on disk. */
  function MergeOne(l: Ledger, slot: Slot, size: nat, now: int): Ledger {
    if slot.id !in l then l[slot.id := Record(slot.profile, size, Frozen, now)]
    else if l[slot.id].state == Releasing then l
    else if l[slot.id].profile != slot.profile || l[slot.id].size != size || l[slot.id].state != Frozen then
      l[slot.id := Record(slot.profile, size, Frozen, now)]
    else l
  }

  function Merge(d: Disk, found: seq<Slot>, now: int): Ledger {
    if found == [] then d.ledger else
      var l := Merge(d, found[..|found| - 1], now);
      var slot := found[|found| - 1];
      if d.SnapshotExists(slot) then MergeOne(l, slot, Sum(d.journals[slot].sizes), now) else l
  }

  /** The first `limit` releasing publications in ledger order. */
  function FirstReleasing(l: Ledger, listing: seq<PublicationId>, limit: nat): seq<Slot> {
    if listing == [] then [] else
      var f := FirstReleasing(l, listing[..|listing| - 1], limit);
      var id := listing[|listing| - 1];
      if |f| < limit && id in l && l[id].state == Releasing then f + [Slot(l[id].profile, id)] else f
  }

  /** The first `limit` journals of the directory scan whose snapshot is on disk. */
  function Discover(d: Disk, scan: seq<Slot>, limit: nat): seq<Slot> {
    if scan == [] then [] else
      var f := Discover(d, scan[..|scan| - 1], limit);
      var slot := scan[|scan| - 1];
      if |f| < limit && d.SnapshotExists(slot) then f + [slot] else f
  }

  /** The records a completed release may delete: still releasing, still for that profile. */
  function DropReleased(l: Ledger, slots: seq<Slot>): Ledger {
    if slots == [] then l else
      var r := DropReleased(l, slots[..|slots| - 1]);
      var slot := slots[|slots| - 1];
      if slot.id in r && r[slot.id].state == Releasing && r[slot.id].profile == slot.profile
      then r - {slot.id} else r
  }

  // ---------------------------------------------------------------- trails

  function RemovalTrail(d: Disk, slots: seq<Slot>): seq<Disk> {
    if slots == [] then [] else
      var t := RemovalTrail(d, slots[..|slots| - 1]);
      var slot := slots[|slots| - 1];
      var e := End(d, t).DropSnapshot(slot);
      t + [e, e.DropJournal(slot)]
  }

  function ReleaseTrail(d: Disk, slot: Slot, now: int): seq<Disk> {
    if !MayRelease(d.ledger, slot) then [] else
      var marked := d.(ledger := MarkReleasing(d.ledger, slot.id, now));
      var bare := marked.DropSnapshot(slot).DropJournal(slot);
      [marked, marked.DropSnapshot(slot), bare, bare.DropRecord(slot.id)]
  }

  /** What the environment decides during one reconciliation: listing orders and the clock. */
  datatype Sweep = Sweep(listing: seq<PublicationId>, scan: seq<Slot>, now: int)

  function CompletionTrail(d: Disk, listing: seq<PublicationId>, limit: nat): seq<Disk> {
    var slots := FirstReleasing(d.ledger, listing, limit);
    var t := RemovalTrail(d, slots);
    t + [End(d, t).(ledger := DropReleased(d.ledger, slots))]
  }

  function ReconcileTrail(d: Disk, s: Sweep, limit: nat): seq<Disk> {
    var t := CompletionTrail(d, s.listing, limit);
    var e := End(d, t);
    t + [e.(ledger := Merge(e, Discover(e, s.scan, limit), s.now))]
  }

  /** A record of a snapshot that was never journalled and has not moved for a day. */
  predicate Stale(d: Disk, id: PublicationId, now: int) {
    id in d.ledger && d.ledger[id].state == Copying
    && now - d.ledger[id].updatedAt >= PARTIAL_PUBLICATION_STALE_SECONDS
    && Slot(d.ledger[id].profile, id) !in d.journals
  }

  function FirstStale(d: Disk, listing: seq<PublicationId>, now: int, limit: nat): seq<PublicationId> {
    if listing == [] then [] else
      var f := FirstStale(d, listing[..|listing| - 1], now, limit);
      var id := listing[|listing| - 1];
      if |f| < limit && Stale(d, id, now) && id !in f then f + [id] else f
  }

  function StaleRemovalTrail(d: Disk, ids: seq<PublicationId>): seq<Disk>
    requires forall id | id in ids :: id in d.ledger
  {
    if ids == [] then [] else
      var t := StaleRemovalTrail(d, ids[..|ids| - 1]);
      var id := ids[|ids| - 1];
      var slot := Slot(d.ledger[id].profile, id);
      var e := End(d, t).DropSnapshot(slot);
      t + [e, e.DropCopies(slot)]
  }

  lemma {:induction false} FirstStaleListed(d: Disk, listing: seq<PublicationId>, now: int, limit: nat)
    ensures forall id | id in FirstStale(d, listing, now, limit) :: Stale(d, id, now)
  {
    if listing != [] { FirstStaleListed(d, listing[..|listing| - 1], now, limit); }
  }

  function StaleTrail(d: Disk, listing: seq<PublicationId>, now: int, limit: nat): seq<Disk> {
    FirstStaleListed(d, listing, now, limit);
    var ids := FirstStale(d, listing, now, limit);
    var t := StaleRemovalTrail(d, ids);
    t + [End(d, t).(ledger := d.ledger - (set id | id in ids))]
  }

  function WithoutProfile(d: Disk, profile: string): Disk {
    d.(snapshots := map s | s in d.snapshots && s.profile != profile :: d.snapshots[s],
       journals := map s | s in d.journals && s.profile != profile :: d.journals[s],
       copies := set c | c in d.copies && c.slot.profile != profile)
  }

  function ProfileCleanupTrail(d: Disk, profile: string): seq<Disk> {
    var bare := WithoutProfile(d, profile);
    [bare, bare.(ledger := map id | id in d.ledger && d.ledger[id].profile != profile :: d.ledger[id])]
  }

  /** One `freeze_publication` call: the sizes `prepare` read, the sizes the copy then read
      (none when a copy failed), and what the environment decides on the way. */
  datatype FreezeCall = FreezeCall(
    slot: Slot, paths: seq<string>, prepared: seq<nat>, copied: seq<nat>, copyFails: bool,
    nonce: nat, free: int, sweep: Sweep, now: int)

  /** `prepare_publication_files` accepts the sizes. */
  predicate Prepared(sizes: seq<nat>) {
    1 <= |sizes| <= MAX_FILES
    && (forall i :: 0 <= i < |sizes| ==> 1 <= sizes[i] <= MAX_PUBLICATION_FILE_BYTES)
    && Sum(sizes) <= MAX_PUBLICATION_BYTES
  }

  /** Each copy is refused when empty and cut off above 25 MB; nothing bounds the sum of the copies. */
  predicate Copyable(f: FreezeCall) {
    !f.copyFails && |f.copied| == |f.prepared|
    && forall i :: 0 <= i < |f.copied| ==> 1 <= f.copied[i] <= MAX_PUBLICATION_FILE_BYTES
  }

  datatype Reservation = Reserved(ledger: Ledger) | Refused

  /** The four checks of a new reservation. */
  ghost predicate HasCapacity(l: Ledger, profile: string, size: nat) {
    && Total(l, Manifests(profile)) < MAX_PUBLICATION_MANIFESTS
    && Total(l, Incomplete(profile)) < MAX_PUBLICATION_INCOMPLETE
    && Total(l, ProfileBytes(profile)) + size <= MAX_PROFILE_PUBLICATION_BYTES
    && Total(l, VolumeBytes) + size <= MAX_VOLUME_PUBLICATION_BYTES
  }

  ghost function Reserve(l: Ledger, slot: Slot, size: nat, free: int, now: int): Reservation {
    if slot.id in l then
      if l[slot.id].profile == slot.profile && l[slot.id].size == size then Reserved(l) else Refused
    else if HasCapacity(l, slot.profile, size) && free - size >= MIN_VOLUME_FREE_BYTES then
      Reserved(l[slot.id := Record(slot.profile, size, Copying, now)])
    else Refused
  }

  /** The clean-up after a failed snapshot: the copy, the snapshot, then the charge. */
  function AbortTrail(d: Disk, f: FreezeCall): seq<Disk> {
    var a := d.(copies := d.copies - {Copy(f.slot, f.nonce)});
    [a, a.DropSnapshot(f.slot), a.DropSnapshot(f.slot).DropRecord(f.slot.id)]
  }

  function CommitTrail(d: Disk, f: FreezeCall): seq<Disk> {
    var renamed := d.(copies := d.copies - {Copy(f.slot, f.nonce)}, snapshots := d.snapshots[f.slot := f.copied]);
    var journalled := renamed.(journals := renamed.journals[f.slot := Manifest(f.paths, f.copied)]);
    [renamed, journalled, journalled.(ledger := MarkFrozen(journalled.ledger, f.slot.id, f.now))]
  }

  function SnapshotTrail(d: Disk, f: FreezeCall): seq<Disk> {
    if f.slot in d.snapshots || Copy(f.slot, f.nonce) in d.copies then AbortTrail(d, f) else
      var copying := d.(copies := d.copies + {Copy(f.slot, f.nonce)});
      [copying] + if Copyable(f) then CommitTrail(copying, f) else AbortTrail(copying, f)
  }

  ghost function FreezeTrail(d: Disk, f: FreezeCall): seq<Disk> {
    if !Prepared(f.prepared) || f.slot in d.journals then [] else
      var t := ReconcileTrail(d, f.sweep, RECONCILE_LIMIT);
      var e := End(d, t);
      match Reserve(e.ledger, f.slot, Sum(f.prepared), f.free, f.now)
      case Refused => t
      case Reserved(l) => t + [e.(ledger := l)] + SnapshotTrail(e.(ledger := l), f)
  }

  // ---------------------------------------------------------------- runs with crashes

  datatype Op =
    | Freeze(call: FreezeCall)
    | Release(slot: Slot, now: int)
    | Reconcile(sweep: Sweep, limit: nat)
    | CleanStale(listing: seq<PublicationId>, now: int, limit: nat)
    | CleanProfile(profile: string)

  ghost function Trail(d: Disk, op: Op): seq<Disk> {
    match op
    case Freeze(f) => FreezeTrail(d, f)
    case Release(slot, now) => ReleaseTrail(d, slot, now)
    case Reconcile(s, limit) => ReconcileTrail(d, s, limit)
    case CleanStale(listing, now, limit) => StaleTrail(d, listing, now, limit)
    case CleanProfile(p) => ProfileCleanupTrail(d, p)
  }

  /** An operation cut off after `writes` disk writes; a large number lets it finish. */
  datatype Attempt = Attempt(op: Op, writes: nat)

  ghost function After(d: Disk, a: Attempt): Disk {
    var t := Trail(d, a.op);
    End(d, if a.writes < |t| then t[..a.writes] else t)
  }

  ghost function AfterAll(d: Disk, run: seq<Attempt>): Disk {
    if run == [] then d else After(AfterAll(d, run[..|run| - 1]), run[|run| - 1])
  }

  /** No file is longer when it is copied than when it was reserved, all together. */
  predicate DoesNotGrow(a: Attempt) {
    a.op.Freeze? ==> Copyable(a.op.call) ==> Sum(a.op.call.copied) <= Sum(a.op.call.prepared)
  }

  // ---------------------------------------------------------------- the invariant

  /** Every snapshot directory is charged, to the profile it lies under. */
  ghost predicate Covered(d: Disk) {
    forall s | s in d.snapshots :: s.id in d.ledger && d.ledger[s.id].profile == s.profile
  }

  /** ... and at its full size at least. */
  ghost predicate Sized(d: Disk) {
    forall s | s in d.snapshots && s.id in d.ledger :: Sum(d.snapshots[s]) <= d.ledger[s.id].size
  }

  ghost predicate Safe(d: Disk, level: Level) {
    Covered(d) && (level == Bytes ==> Sized(d)) && Within(d.ledger, level)
  }

  ghost predicate AllSafe(t: seq<Disk>, level: Level) { forall i :: 0 <= i < |t| ==> Safe(t[i], level) }

  lemma QuotaAfterUpdate(l: Ledger, id: PublicationId, r: Record, level: Level)
    requires Within(l, level) && id in l
    requires r.profile == l[id].profile && (level == Bytes ==> r.size <= l[id].size) && (r.state == Copying ==> l[id].state == Copying)
    ensures Within(l[id := r], level)
  {
    forall q | Claims(level, q) ensures Total(l[id := r], q) <= Limit(q) {
      TotalUpdate(l, id, r, q);
      TotalWithout(l, id, q);
      assert Weight(q, r) <= Weight(q, l[id]);
    }
  }

  lemma QuotaAfterDrop(l: Ledger, ids: set<PublicationId>, level: Level)
    requires Within(l, level)
    ensures Within(l - ids, level)
  {
    forall q | Claims(level, q) ensures Total(l - ids, q) <= Limit(q) { TotalDropMany(l, ids, q); }
  }

  lemma CapacityKeepsWithin(l: Ledger, id: PublicationId, r: Record, level: Level)
    requires Within(l, level) && id !in l && r.state == Copying && HasCapacity(l, r.profile, r.size)
    ensures Within(l[id := r], level)
  {
    assert l - {id} == l;
    forall q | Claims(level, q) ensures Total(l[id := r], q) <= Limit(q) { TotalUpdate(l, id, r, q); }
  }

  /** The four checks are exactly what keeps every quota of a lawful ledger. */
  lemma CapacityIsRoom(l: Ledger, id: PublicationId, r: Record)
    requires WithinQuota(l) && id !in l && r.state == Copying
    ensures HasCapacity(l, r.profile, r.size) <==> WithinQuota(l[id := r])
  {
    assert l - {id} == l;
    forall q ensures Total(l[id := r], q) == Total(l, q) + Weight(q, r) { TotalUpdate(l, id, r, q); }
    if WithinQuota(l[id := r]) {
      assert Total(l[id := r], Manifests(r.profile)) <= Limit(Manifests(r.profile));
      assert Total(l[id := r], Incomplete(r.profile)) <= Limit(Incomplete(r.profile));
      assert Total(l[id := r], ProfileBytes(r.profile)) <= Limit(ProfileBytes(r.profile));
      assert Total(l[id := r], VolumeBytes) <= Limit(VolumeBytes);
    }
  }

  lemma {:induction false} RemovalKeepsSafe(d: Disk, slots: seq<Slot>, level: Level)
    requires Safe(d, level)
    ensures AllSafe(RemovalTrail(d, slots), level)
    ensures var e := End(d, RemovalTrail(d, slots));
            Safe(e, level) && e.ledger == d.ledger && e.copies == d.copies
            && e.snapshots == d.snapshots - (set s | s in slots)
            && e.journals == d.journals - (set s | s in slots)
  {
    if slots == [] {
      assert d.snapshots - {} == d.snapshots && d.journals - {} == d.journals;
    } else {
      hide *;
      var init, last := slots[..|slots| - 1], slots[|slots| - 1];
      RemovalKeepsSafe(d, init, level);
      var t := RemovalTrail(d, init);
      var e := End(d, t);
      DroppingIsSafe(e, last, level);
      assert slots == init + [last];
      RemovalOne(d, init, last);
      AllSafeMore(t, e.DropSnapshot(last), e.DropSnapshot(last).DropJournal(last), level);
      DropsOne(d, e, init, last);
    }
  }

  lemma AllSafeMore(t: seq<Disk>, d: Disk, e: Disk, level: Level)
    requires AllSafe(t, level) && Safe(d, level) && Safe(e, level)
    ensures AllSafe(t + [d, e], level)
  {
    hide Safe;
  }

  lemma DropsOne(d: Disk, e: Disk, init: seq<Slot>, last: Slot)
    requires e.snapshots == d.snapshots - (set s | s in init) && e.journals == d.journals - (set s | s in init)
    ensures var f := e.DropSnapshot(last).DropJournal(last);
      && f.ledger == e.ledger && f.copies == e.copies
      && f.snapshots == d.snapshots - (set s | s in init + [last]) && f.journals == d.journals - (set s | s in init + [last])
  {
    assert (set s | s in init + [last]) == (set s | s in init) + {last};
  }

  lemma DroppingIsSafe(d: Disk, slot: Slot, level: Level)
    requires Safe(d, level)
    ensures Safe(d.DropSnapshot(slot), level) && Safe(d.DropSnapshot(slot).DropJournal(slot), level)
  {
  }

  lemma RemovalOne(d: Disk, init: seq<Slot>, last: Slot)
    ensures var t := RemovalTrail(d, init); var e := End(d, t).DropSnapshot(last);
      RemovalTrail(d, init + [last]) == t + [e, e.DropJournal(last)]
      && End(d, RemovalTrail(d, init + [last])) == e.DropJournal(last)
  {
    assert (init + [last])[..|init|] == init;
  }

  lemma {:induction false} DropReleasedDrops(l: Ledger, slots: seq<Slot>)
    ensures var r := DropReleased(l, slots);
            && r.Keys <= l.Keys
            && (forall id | id in r :: r[id] == l[id])
            && (forall id | id in l :: id !in r <==> l[id].state == Releasing && Slot(l[id].profile, id) in slots)
  {
    if slots != [] {
      var init, last := slots[..|slots| - 1], slots[|slots| - 1];
      DropReleasedDrops(l, init);
      assert slots == init + [last];
    }
  }

  lemma CompletionKeepsSafe(d: Disk, listing: seq<PublicationId>, limit: nat, level: Level)
    requires Safe(d, level)
    ensures AllSafe(CompletionTrail(d, listing, limit), level)
  {
    var slots := FirstReleasing(d.ledger, listing, limit);
    RemovalKeepsSafe(d, slots, level);
    DropReleasedDrops(d.ledger, slots);
    var r := DropReleased(d.ledger, slots);
    QuotaAfterDrop(d.ledger, d.ledger.Keys - r.Keys, level);
    assert d.ledger - (d.ledger.Keys - r.Keys) == r;
  }

  /** On a safe disk the merge adds no record: it only turns `Copying` into `Frozen` and corrects sizes. */
  lemma {:induction false} MergeKeepsSafe(d: Disk, found: seq<Slot>, now: int, level: Level)
    requires Safe(d, level)
    ensures var l := Merge(d, found, now);
            && Safe(d.(ledger := l), level) && l.Keys == d.ledger.Keys
            && (forall id | id in l :: l[id].profile == d.ledger[id].profile && (level == Bytes ==> l[id].size <= d.ledger[id].size))
            && (forall id | id in l && d.ledger[id].state == Releasing :: l[id] == d.ledger[id])
  {
    if found != [] {
      var init, slot := found[..|found| - 1], found[|found| - 1];
      MergeKeepsSafe(d, init, now, level);
      var l := Merge(d, init, now);
      if d.SnapshotExists(slot) && l[slot.id].state != Releasing {
        QuotaAfterUpdate(l, slot.id, Record(slot.profile, Sum(d.journals[slot].sizes), Frozen, now), level);
      }
    }
  }

  lemma ReconcileKeepsSafe(d: Disk, s: Sweep, limit: nat, level: Level)
    requires Safe(d, level)
    ensures AllSafe(ReconcileTrail(d, s, limit), level)
  {
    CompletionKeepsSafe(d, s.listing, limit, level);
    var e := End(d, CompletionTrail(d, s.listing, limit));
    MergeKeepsSafe(e, Discover(e, s.scan, limit), s.now, level);
  }

  lemma ReleaseKeepsSafe(d: Disk, slot: Slot, now: int, level: Level)
    requires Safe(d, level)
    ensures AllSafe(ReleaseTrail(d, slot, now), level)
  {
    if MayRelease(d.ledger, slot) {
      var l := MarkReleasing(d.ledger, slot.id, now);
      QuotaAfterUpdate(d.ledger, slot.id, l[slot.id], level);
      assert d.ledger[slot.id := l[slot.id]] == l;
      QuotaAfterDrop(l, {slot.id}, level);
    }
  }

  lemma {:induction false} StaleRemovalKeepsSafe(d: Disk, ids: seq<PublicationId>, level: Level)
    requires Safe(d, level) && forall id | id in ids :: id in d.ledger
    ensures AllSafe(StaleRemovalTrail(d, ids), level)
    ensures var e := End(d, StaleRemovalTrail(d, ids));
            Safe(e, level) && e.ledger == d.ledger && forall id | id in ids :: Slot(d.ledger[id].profile, id) !in e.snapshots
    ensures End(d, StaleRemovalTrail(d, ids)).snapshots.Keys <= d.snapshots.Keys
  {
    hide *;
    if ids == [] {
      NoStaleRemoval(d);
    } else {
      var init, last := ids[..|ids| - 1], ids[|ids| - 1];
      StaleRemovalKeepsSafe(d, init, level);
      var t := StaleRemovalTrail(d, init);
      var e, slot := End(d, t), Slot(d.ledger[last].profile, last);
      DroppingCopiesIsSafe(e, slot, level);
      assert ids == init + [last];
      StaleRemovalOne(d, init, last);
      AllSafeMore(t, e.DropSnapshot(slot), e.DropSnapshot(slot).DropCopies(slot), level);
      StaleDropsOne(e, slot);
    }
  }

  lemma NoStaleRemoval(d: Disk)
    ensures StaleRemovalTrail(d, []) == [] && End(d, []) == d && forall level :: AllSafe([], level)
  {
  }

  lemma DroppingCopiesIsSafe(d: Disk, slot: Slot, level: Level)
    requires Safe(d, level)
    ensures Safe(d.DropSnapshot(slot), level) && Safe(d.DropSnapshot(slot).DropCopies(slot), level)
  {
  }

  lemma StaleDropsOne(d: Disk, slot: Slot)
    ensures var f := d.DropSnapshot(slot).DropCopies(slot);
      f.ledger == d.ledger && f.snapshots == d.snapshots - {slot} && f.snapshots.Keys == d.snapshots.Keys - {slot}
  {
  }

  lemma StaleRemovalOne(d: Disk, init: seq<PublicationId>, last: PublicationId)
    requires forall id | id in init + [last] :: id in d.ledger
    ensures (forall id | id in init :: id in d.ledger) && last in d.ledger
    ensures var t, slot := StaleRemovalTrail(d, init), Slot(d.ledger[last].profile, last); var e := End(d, t).DropSnapshot(slot);
      StaleRemovalTrail(d, init + [last]) == t + [e, e.DropCopies(slot)]
      && End(d, StaleRemovalTrail(d, init + [last])) == e.DropCopies(slot)
  {
    assert forall id | id in init :: id in init + [last];
    assert last in init + [last];
    assert (init + [last])[..|init|] == init;
  }

  lemma StaleKeepsSafe(d: Disk, listing: seq<PublicationId>, now: int, limit: nat, level: Level)
    requires Safe(d, level)
    ensures AllSafe(StaleTrail(d, listing, now, limit), level)
  {
    FirstStaleListed(d, listing, now, limit);
    var ids := FirstStale(d, listing, now, limit);
    StaleRemovalKeepsSafe(d, ids, level);
    QuotaAfterDrop(d.ledger, (set id | id in ids), level);
  }

  lemma ProfileCleanupKeepsSafe(d: Disk, profile: string, level: Level)
    requires Safe(d, level)
    ensures AllSafe(ProfileCleanupTrail(d, profile), level)
  {
    var kept := map id | id in d.ledger && d.ledger[id].profile != profile :: d.ledger[id];
    QuotaAfterDrop(d.ledger, d.ledger.Keys - kept.Keys, level);
    assert d.ledger - (d.ledger.Keys - kept.Keys) == kept;
  }

  lemma AbortKeepsSafe(d: Disk, f: FreezeCall, level: Level)
    requires Safe(d, level) && f.slot.id in d.ledger && d.ledger[f.slot.id].profile == f.slot.profile
    ensures AllSafe(AbortTrail(d, f), level)
  {
    QuotaAfterDrop(d.ledger, {f.slot.id}, level);
  }

  lemma SnapshotKeepsSafe(d: Disk, f: FreezeCall, level: Level)
    requires Safe(d, level) && f.slot.id in d.ledger
    requires d.ledger[f.slot.id].profile == f.slot.profile
    requires level == Bytes && Copyable(f) ==> Sum(f.copied) <= d.ledger[f.slot.id].size
    ensures AllSafe(SnapshotTrail(d, f), level)
  {
    var c := Copy(f.slot, f.nonce);
    if f.slot in d.snapshots || c in d.copies {
      AbortKeepsSafe(d, f, level);
    } else {
      hide Within, Total, Sum, CommitTrail, AbortTrail, Copyable;
      var copying := d.(copies := d.copies + {c});
      if Copyable(f) {
        CommitKeepsSafe(copying, f, level);
      } else {
        AbortKeepsSafe(copying, f, level);
      }
    }
  }

  lemma CommitKeepsSafe(d: Disk, f: FreezeCall, level: Level)
    requires Safe(d, level) && f.slot.id in d.ledger && d.ledger[f.slot.id].profile == f.slot.profile
    requires level == Bytes ==> Sum(f.copied) <= d.ledger[f.slot.id].size
    ensures AllSafe(CommitTrail(d, f), level)
  {
    hide Within, Total, Sum;
    QuotaAfterUpdate(d.ledger, f.slot.id, d.ledger[f.slot.id].(state := Frozen, updatedAt := f.now), level);
  }

  lemma FreezeKeepsSafe(d: Disk, f: FreezeCall, level: Level)
    requires Safe(d, level)
    requires level == Bytes && Copyable(f) ==> Sum(f.copied) <= Sum(f.prepared)
    ensures AllSafe(FreezeTrail(d, f), level)
  {
    hide Prepared, Copyable, Sum, Total, Within, HasCapacity, ReconcileTrail, SnapshotTrail;
    if Prepared(f.prepared) && f.slot !in d.journals {
      ReconcileKeepsSafe(d, f.sweep, RECONCILE_LIMIT, level);
      var e := End(d, ReconcileTrail(d, f.sweep, RECONCILE_LIMIT));
      match Reserve(e.ledger, f.slot, Sum(f.prepared), f.free, f.now)
      case Refused =>
      case Reserved(l) =>
        if f.slot.id !in e.ledger {
          CapacityKeepsWithin(e.ledger, f.slot.id, l[f.slot.id], level);
        }
        SnapshotKeepsSafe(e.(ledger := l), f, level);
    }
  }

  /** Every state an operation can leave behind, finished or crashed, is safe.  Only the bytes need
      sources that do not grow. */
  lemma StepKeepsSafe(d: Disk, a: Attempt, level: Level)
    requires Safe(d, level) && (level == Bytes ==> DoesNotGrow(a))
    ensures Safe(After(d, a), level)
  {
    match a.op
    case Freeze(f) => FreezeKeepsSafe(d, f, level);
    case Release(slot, now) => ReleaseKeepsSafe(d, slot, now, level);
    case Reconcile(s, limit) => ReconcileKeepsSafe(d, s, limit, level);
    case CleanStale(listing, now, limit) => StaleKeepsSafe(d, listing, now, limit, level);
    case CleanProfile(p) => ProfileCleanupKeepsSafe(d, p, level);
  }

  lemma {:induction false} EveryRunIsSafe(d: Disk, run: seq<Attempt>, level: Level)
    requires Safe(d, level) && (level == Bytes ==> forall a | a in run :: DoesNotGrow(a))
    ensures Safe(AfterAll(d, run), level)
  {
    if run != [] {
      EveryRunIsSafe(d, run[..|run| - 1], level);
      StepKeepsSafe(AfterAll(d, run[..|run| - 1]), run[|run| - 1], level);
    }
  }

  /** Over every run with a crash allowed before, between and after any two disk writes, and whatever
      becomes of the sources, every snapshot directory stays charged to its profile. */
  lemma EveryRunIsCovered(d: Disk, run: seq<Attempt>)
    requires Covered(d)
    ensures Covered(AfterAll(d, run))
  {
    EveryRunIsSafe(d, run, Coverage);
  }

  /** So no reconciliation along a run ever adds a record: what it discovers is charged already. */
  lemma ReconcileAddsNoCharge(d: Disk, run: seq<Attempt>, s: Sweep, limit: nat)
    requires Covered(d)
    ensures var e := AfterAll(d, run); End(e, ReconcileTrail(e, s, limit)).ledger.Keys <= e.ledger.Keys
  {
    var e := AfterAll(d, run);
    EveryRunIsCovered(d, run);
    assert Safe(e, Coverage);
    CompletionKeepsSafe(e, s.listing, limit, Coverage);
    DropReleasedDrops(e.ledger, FirstReleasing(e.ledger, s.listing, limit));
    var c := End(e, CompletionTrail(e, s.listing, limit));
    MergeKeepsSafe(c, Discover(c, s.scan, limit), s.now, Coverage);
  }

  /** The limits, spelled out for a run that starts on an empty volume: the counts whatever happens,
      the bytes if no source grows between its reservation and its copy. */
  lemma QuotasHoldForever(run: seq<Attempt>, profile: string)
    ensures var l := AfterAll(Disk(map[], map[], map[], {}), run).ledger;
            Total(l, Manifests(profile)) <= 20 && Total(l, Incomplete(profile)) <= 2
    ensures (forall a | a in run :: DoesNotGrow(a)) ==>
            var l := AfterAll(Disk(map[], map[], map[], {}), run).ledger;
            Total(l, ProfileBytes(profile)) <= 100_000_000 && Total(l, VolumeBytes) <= 250_000_000
  {
    var empty := Disk(map[], map[], map[], {});
    var l := AfterAll(empty, run).ledger;
    EveryRunIsSafe(empty, run, Counts);
    assert Total(l, Manifests(profile)) <= Limit(Manifests(profile));
    assert Total(l, Incomplete(profile)) <= Limit(Incomplete(profile));
    if forall a | a in run :: DoesNotGrow(a) {
      EveryRunIsSafe(empty, run, Bytes);
      assert Total(l, ProfileBytes(profile)) <= Limit(ProfileBytes(profile));
      assert Total(l, VolumeBytes) <= Limit(VolumeBytes);
    }
  }

  // ---------------------------------------------------------------- growing sources

  lemma DiscoverOne(d: Disk, slot: Slot, limit: nat)
    requires d.SnapshotExists(slot) && limit > 0
    ensures Discover(d, [slot], limit) == [slot]
  {
    assert [slot][..0] == [];
  }

  lemma MergeSingle(d: Disk, slot: Slot, now: int)
    requires d.SnapshotExists(slot)
    ensures Merge(d, [slot], now) == MergeOne(d.ledger, slot, Sum(d.journals[slot].sizes), now)
  {
    assert [slot][..0] == [];
    assert Merge(d, [], now) == d.ledger;
  }

  lemma NothingReleasing(d: Disk, limit: nat)
    ensures CompletionTrail(d, [], limit) == [d]
  {
    assert FirstReleasing(d.ledger, [], limit) == [] && RemovalTrail(d, []) == [];
  }

  /** Reconciling a single journal with nothing to release is one `MergeOne`. */
  lemma RechargeOne(d: Disk, slot: Slot, later: int, limit: nat)
    requires d.SnapshotExists(slot) && limit > 0
    ensures ReconcileTrail(d, Sweep([], [slot], later), limit)
         == [d, d.(ledger := MergeOne(d.ledger, slot, Sum(d.journals[slot].sizes), later))]
  {
    NothingReleasing(d, limit);
    DiscoverOne(d, slot, limit);
    MergeSingle(d, slot, later);
  }

  lemma {:induction false} TotalPointwise(a: Ledger, b: Ledger, q: Quota)
    requires a.Keys <= b.Keys && forall id | id in a :: Weight(q, a[id]) <= Weight(q, b[id])
    ensures Total(a, q) <= Total(b, q)
    decreases |a|
  {
    if a != map[] {
      var k :| k in a;
      TotalWithout(a, k, q);
      TotalWithout(b, k, q);
      TotalPointwise(a - {k}, b - {k}, q);
    }
  }

  /** The disk after a reservation at the prepared size and an undisturbed snapshot. */
  function FrozenAt(e: Disk, f: FreezeCall): Disk {
    e.(ledger := e.ledger[f.slot.id := Record(f.slot.profile, Sum(f.prepared), Frozen, f.now)],
       snapshots := e.snapshots[f.slot := f.copied],
       journals := e.journals[f.slot := Manifest(f.paths, f.copied)])
  }

  lemma SnapshotEnds(e: Disk, f: FreezeCall)
    requires f.slot !in e.snapshots && Copy(f.slot, f.nonce) !in e.copies && Copyable(f)
    ensures var l := e.ledger[f.slot.id := Record(f.slot.profile, Sum(f.prepared), Copying, f.now)];
            End(e, SnapshotTrail(e.(ledger := l), f)) == FrozenAt(e, f)
  {
    assert e.copies + {Copy(f.slot, f.nonce)} - {Copy(f.slot, f.nonce)} == e.copies;
  }

  /** A record that charges no more than another, and is no more incomplete. */
  predicate NoHeavier(r: Record, s: Record) {
    r.profile == s.profile && r.size <= s.size && (r.state == Copying ==> s.state == Copying)
  }

  /** Merging on a disk where one snapshot only may exceed its charge: that charge is corrected if the
      slot is found, and no other grows. */
  lemma {:induction false} MergeGrown(d: Disk, found: seq<Slot>, now: int, slot: Slot)
    requires Covered(d) && d.SnapshotExists(slot) && d.ledger[slot.id].state == Frozen
    requires forall s | s in d.snapshots && s != slot :: s.id != slot.id && Sum(d.snapshots[s]) <= d.ledger[s.id].size
    ensures var l := Merge(d, found, now);
      && l.Keys == d.ledger.Keys
      && (forall id | id in l && id != slot.id :: NoHeavier(l[id], d.ledger[id]))
      && l[slot.id].profile == slot.profile && l[slot.id].state == Frozen
      && l[slot.id].size == if slot in found then Sum(d.snapshots[slot]) else d.ledger[slot.id].size
  {
    hide Sum;
    if found != [] {
      var init, last := found[..|found| - 1], found[|found| - 1];
      assert found == init + [last];
      MergeGrown(d, init, now, slot);
    }
  }

  /** A reservation taken at one size and a snapshot of another. */
  ghost predicate GrownFreeze(e: Disk, f: FreezeCall) {
    && Safe(e, Bytes) && f.slot.id !in e.ledger && Copy(f.slot, f.nonce) !in e.copies && Copyable(f)
    && HasCapacity(e.ledger, f.slot.profile, Sum(f.prepared))
  }

  /** The disk after that snapshot, and the one after a sweep. */
  function Grown(e: Disk, f: FreezeCall): Disk {
    End(e, SnapshotTrail(e.(ledger := e.ledger[f.slot.id := Record(f.slot.profile, Sum(f.prepared), Copying, f.now)]), f))
  }

  ghost predicate Finds(d: Disk, s: Sweep, limit: nat, slot: Slot) {
    slot in Discover(End(d, CompletionTrail(d, s.listing, limit)), s.scan, limit)
  }

  /** What any sweep that finds the slot makes of the ledger: the publication is charged at the size of
      its copy, and every other record is one of before, no heavier. */
  lemma SweepAfterGrowth(e: Disk, f: FreezeCall, s: Sweep, limit: nat)
    requires GrownFreeze(e, f) && Finds(Grown(e, f), s, limit, f.slot)
    ensures Charged(e.ledger, SweptAfter(e, f, s, limit), f.slot, Sum(f.copied))
  {
    BeforeMerge(e, f, s, limit);
    var d := Grown(e, f);
    var c := End(d, CompletionTrail(d, s.listing, limit));
    hide Grown, CompletionTrail, Discover, Sum, GrownFreeze;
    MergeGrown(c, Discover(c, s.scan, limit), s.now, f.slot);
  }

  /** The ledger after a sweep over the disk that the freeze has left. */
  function SweptAfter(e: Disk, f: FreezeCall, s: Sweep, limit: nat): Ledger {
    End(Grown(e, f), ReconcileTrail(Grown(e, f), s, limit)).ledger
  }

  ghost predicate Charged(before: Ledger, l: Ledger, slot: Slot, size: nat) {
    && slot.id in l && l[slot.id].profile == slot.profile && l[slot.id].size == size && l[slot.id].state == Frozen
    && slot.id !in before && l.Keys - {slot.id} <= before.Keys
    && forall k | k in l && k != slot.id :: NoHeavier(l[k], before[k])
  }

  lemma FrozenFacts(e: Disk, f: FreezeCall)
    requires GrownFreeze(e, f)
    ensures Grown(e, f) == FrozenAt(e, f) && f.slot.id !in e.ledger && Covered(e) && Sized(e) && Covered(FrozenAt(e, f))
    ensures forall t | t in FrozenAt(e, f).snapshots && t != f.slot :: t.id != f.slot.id && t in e.snapshots
  {
    assert f.slot !in e.snapshots;
    SnapshotEnds(e, f);
  }

  /** The disk between the two halves of the sweep. */
  lemma BeforeMerge(e: Disk, f: FreezeCall, s: Sweep, limit: nat)
    requires GrownFreeze(e, f)
    ensures var d := Grown(e, f); var c := End(d, CompletionTrail(d, s.listing, limit));
      && Covered(c) && f.slot.id in c.ledger && c.ledger[f.slot.id].state == Frozen
      && c.SnapshotExists(f.slot) && c.snapshots[f.slot] == f.copied && f.slot.id !in e.ledger
      && c.ledger.Keys - {f.slot.id} <= e.ledger.Keys && (forall id | id in c.ledger && id != f.slot.id :: c.ledger[id] == e.ledger[id])
      && (forall t | t in c.snapshots && t != f.slot :: t.id != f.slot.id && Sum(c.snapshots[t]) <= c.ledger[t.id].size)
  {
    hide Grown, Sum, Total, Within, GrownFreeze, Safe, CompletionTrail;
    FrozenFacts(e, f);
    var d := Grown(e, f);
    CompletionLeaves(d, s.listing, limit);
  }

  /** Completing releases drops only what is being released. */
  lemma CompletionLeaves(d: Disk, listing: seq<PublicationId>, limit: nat)
    requires Covered(d)
    ensures var c := End(d, CompletionTrail(d, listing, limit));
      && Covered(c) && c.ledger.Keys <= d.ledger.Keys && (forall id | id in c.ledger :: c.ledger[id] == d.ledger[id])
      && (forall id | id in d.ledger && d.ledger[id].state != Releasing :: id in c.ledger)
      && c.snapshots.Keys <= d.snapshots.Keys && (forall s | s in c.snapshots :: c.snapshots[s] == d.snapshots[s])
      && (forall s | s in d.snapshots && d.ledger[s.id].state != Releasing :: s in c.snapshots)
      && (forall s | s in d.journals && s.id in d.ledger && d.ledger[s.id].state != Releasing :: s in c.journals && c.journals[s] == d.journals[s])
  {
    var slots := FirstReleasing(d.ledger, listing, limit);
    CompletionKeepsCovered(d, listing, limit);
    RemovalEnd(d, slots);
    FirstReleasingAreReleasing(d.ledger, listing, limit);
    DropReleasedDrops(d.ledger, slots);
    hide RemovalTrail, FirstReleasing, DropReleased;
  }

  lemma {:induction false} FirstReleasingAreReleasing(l: Ledger, listing: seq<PublicationId>, limit: nat)
    ensures forall s | s in FirstReleasing(l, listing, limit) :: s.id in l && l[s.id].state == Releasing && l[s.id].profile == s.profile
  {
    if listing != [] { FirstReleasingAreReleasing(l, listing[..|listing| - 1], limit); }
  }

  lemma CompletionKeepsCovered(d: Disk, listing: seq<PublicationId>, limit: nat)
    requires Covered(d)
    ensures Covered(End(d, CompletionTrail(d, listing, limit)))
  {
    assert Safe(d, Coverage);
    CompletionKeepsSafe(d, listing, limit, Coverage);
  }

  /** When a source grows the byte quotas can fail, because reconciliation charges the copies without
      any check: after any sweep that finds the publication the quotas hold exactly when the copies,
      not the reservation, fit beside what the sweep has left. */
  lemma GrownSourceCharge(e: Disk, f: FreezeCall, s: Sweep, limit: nat)
    requires GrownFreeze(e, f) && Finds(Grown(e, f), s, limit, f.slot)
    ensures var l := SweptAfter(e, f, s, limit);
      var others := l - {f.slot.id};
      && (WithinQuota(l) <==>
            Total(others, ProfileBytes(f.slot.profile)) + Sum(f.copied) <= MAX_PROFILE_PUBLICATION_BYTES
            && Total(others, VolumeBytes) + Sum(f.copied) <= MAX_VOLUME_PUBLICATION_BYTES)
      && forall q :: Total(others, q) <= Total(e.ledger, q)
  {
    SweepAfterGrowth(e, f, s, limit);
    hide Finds, SweptAfter, Grown, Sum;
    ChargeDecides(e.ledger, SweptAfter(e, f, s, limit), f.slot, Sum(f.prepared), Sum(f.copied));
  }

  lemma ChargeDecides(before: Ledger, l: Ledger, slot: Slot, reserved: nat, size: nat)
    requires Charged(before, l, slot, size) && WithinQuota(before) && HasCapacity(before, slot.profile, reserved)
    ensures var others := l - {slot.id};
      && (WithinQuota(l) <==>
            Total(others, ProfileBytes(slot.profile)) + size <= MAX_PROFILE_PUBLICATION_BYTES
            && Total(others, VolumeBytes) + size <= MAX_VOLUME_PUBLICATION_BYTES)
      && forall q :: Total(others, q) <= Total(before, q)
  {
    var id, p := slot.id, slot.profile;
    var others := l - {id};
    forall q ensures Total(others, q) <= Total(before, q) { TotalPointwise(others, before, q); }
    forall q ensures Total(l, q) == Weight(q, l[id]) + Total(others, q) { TotalWithout(l, id, q); }
    if WithinQuota(l) {
      assert Total(l, ProfileBytes(p)) <= Limit(ProfileBytes(p)) && Total(l, VolumeBytes) <= Limit(VolumeBytes);
    } else {
      var q :| Claims(Bytes, q) && Total(l, q) > Limit(q);
      assert Total(before, q) <= Limit(q);
    }
  }

  /** Nothing is being released, and every complete snapshot is charged at its exact size. */
  ghost predicate Quiet(e: Disk) {
    && (forall id | id in e.ledger :: e.ledger[id].state != Releasing)
    && (forall s | s in e.snapshots :: s.id in e.ledger && e.ledger[s.id].size == Sum(e.snapshots[s]))
  }

  /** On a quiet volume that is a condition on the ledger before the call: the copies must fit in the
      room that was left. */
  lemma GrownSourceFits(e: Disk, f: FreezeCall, s: Sweep, limit: nat)
    requires GrownFreeze(e, f) && Finds(Grown(e, f), s, limit, f.slot) && Quiet(e)
    ensures WithinQuota(SweptAfter(e, f, s, limit)) <==>
      Total(e.ledger, ProfileBytes(f.slot.profile)) + Sum(f.copied) <= MAX_PROFILE_PUBLICATION_BYTES
      && Total(e.ledger, VolumeBytes) + Sum(f.copied) <= MAX_VOLUME_PUBLICATION_BYTES
  {
    hide *;
    GrownSourceCharge(e, f, s, limit);
    QuietSweep(e, f, s, limit);
    SameBytes(e.ledger, SweptAfter(e, f, s, limit) - {f.slot.id}, f.slot.profile);
  }

  lemma SameBytes(a: Ledger, b: Ledger, p: string)
    requires a.Keys == b.Keys && forall id | id in a :: a[id].profile == b[id].profile && a[id].size == b[id].size
    ensures Total(a, ProfileBytes(p)) == Total(b, ProfileBytes(p)) && Total(a, VolumeBytes) == Total(b, VolumeBytes)
  {
    TotalPointwise(a, b, ProfileBytes(p));
    TotalPointwise(b, a, ProfileBytes(p));
    TotalPointwise(a, b, VolumeBytes);
    TotalPointwise(b, a, VolumeBytes);
  }

  lemma QuietSweep(e: Disk, f: FreezeCall, s: Sweep, limit: nat)
    requires GrownFreeze(e, f) && Finds(Grown(e, f), s, limit, f.slot) && Quiet(e)
    ensures var l := SweptAfter(e, f, s, limit);
      e.ledger.Keys == l.Keys - {f.slot.id}
      && forall id | id in e.ledger :: id in l && l[id].profile == e.ledger[id].profile && l[id].size == e.ledger[id].size
  {
    QuietFrozen(e, f);
    var d := Grown(e, f);
    hide *;
    NoneReleasing(d.ledger, s.listing, limit);
    NothingPicked(d, s.listing, limit);
    SweptIsMerge(d, s, limit);
    SweptUnfolds(e, f, s, limit);
    MergeQuiet(d, Discover(d, s.scan, limit), s.now, f.slot);
  }

  lemma SweptUnfolds(e: Disk, f: FreezeCall, s: Sweep, limit: nat)
    ensures SweptAfter(e, f, s, limit) == End(Grown(e, f), ReconcileTrail(Grown(e, f), s, limit)).ledger
  {
  }

  lemma SweptIsMerge(d: Disk, s: Sweep, limit: nat)
    requires CompletionTrail(d, s.listing, limit) == [d]
    ensures End(d, ReconcileTrail(d, s, limit)).ledger == Merge(d, Discover(d, s.scan, limit), s.now)
  {
  }

  lemma QuietFrozen(e: Disk, f: FreezeCall)
    requires GrownFreeze(e, f) && Quiet(e)
    ensures var d := Grown(e, f);
      && Covered(d) && f.slot.id in d.ledger && (forall id | id in d.ledger :: d.ledger[id].state != Releasing)
      && (forall s | s in d.snapshots && s.id != f.slot.id :: d.ledger[s.id].size == Sum(d.snapshots[s]))
      && e.ledger.Keys == d.ledger.Keys - {f.slot.id} && (forall id | id in e.ledger :: d.ledger[id] == e.ledger[id])
  {
    hide Sum, Total, Within;
    assert f.slot !in e.snapshots;
    SnapshotEnds(e, f);
  }

  lemma {:induction false} NoneReleasing(l: Ledger, listing: seq<PublicationId>, limit: nat)
    requires forall id | id in l :: l[id].state != Releasing
    ensures FirstReleasing(l, listing, limit) == []
  {
    if listing != [] { NoneReleasing(l, listing[..|listing| - 1], limit); }
  }

  lemma NothingPicked(d: Disk, listing: seq<PublicationId>, limit: nat)
    requires FirstReleasing(d.ledger, listing, limit) == []
    ensures CompletionTrail(d, listing, limit) == [d]
  {
  }

  lemma {:induction false} MergeQuiet(d: Disk, found: seq<Slot>, now: int, slot: Slot)
    requires Covered(d) && slot.id in d.ledger
    requires forall s | s in d.snapshots && s.id != slot.id :: d.ledger[s.id].size == Sum(d.snapshots[s])
    ensures var l := Merge(d, found, now);
      l.Keys == d.ledger.Keys
      && forall id | id in l && id != slot.id :: l[id].profile == d.ledger[id].profile && l[id].size == d.ledger[id].size
  {
    hide Sum;
    if found != [] { MergeQuiet(d, found[..|found| - 1], now, slot); }
  }

  /** Ten one-byte files that are 25 MB each when copied: the profile ends at 2.5 times its quota. */
  lemma GrownSourceExceedsQuota(f: FreezeCall, d: Disk)
    requires d == Disk(map[], map[], map[], {})
    requires f.slot == Slot("ally", 0) && f.free == 1_000_000_000 && f.sweep == Sweep([], [], 0) && !f.copyFails
    requires f.prepared == seq(10, _ => 1) && f.copied == seq(10, _ => MAX_PUBLICATION_FILE_BYTES)
    ensures Prepared(f.prepared)
    ensures !WithinQuota(AfterAll(d, [Attempt(Freeze(f), 100), Attempt(Reconcile(Sweep([], [f.slot], 1), 1), 100)]).ledger)
  {
    GrownInput(f);
    var s := Sweep([], [f.slot], 1);
    var frozen := FrozenAt(d, f);
    GrownSourceFreezes(f, d);
    RunOfTwo(d, Attempt(Freeze(f), 100), Attempt(Reconcile(s, 1), 100));
    hide Sum, Prepared, Copyable, FreezeTrail, Total, Within, AfterAll;
    RechargeOne(frozen, f.slot, 1, 1);
    OverQuota(After(frozen, Attempt(Reconcile(s, 1), 100)).ledger, 0);
  }

  lemma GrownInput(f: FreezeCall)
    requires f.prepared == seq(10, _ => 1) && f.copied == seq(10, _ => MAX_PUBLICATION_FILE_BYTES) && !f.copyFails
    ensures Prepared(f.prepared) && Copyable(f) && Sum(f.copied) == 250_000_000
  {
    SumOfEqual(10, 1);
    SumOfEqual(10, MAX_PUBLICATION_FILE_BYTES);
  }

  lemma RunOfTwo(d: Disk, a: Attempt, b: Attempt)
    ensures AfterAll(d, [a, b]) == After(After(d, a), b)
  {
    assert [a, b][..1] == [a] && [a][..0] == [];
    assert AfterAll(d, []) == d && AfterAll(d, [a]) == After(d, a);
  }

  lemma OverQuota(l: Ledger, id: PublicationId)
    requires id in l && l[id].size > MAX_PROFILE_PUBLICATION_BYTES
    ensures !WithinQuota(l)
  {
    var q := ProfileBytes(l[id].profile);
    TotalWithout(l, id, q);
    assert Claims(Bytes, q) && Total(l, q) > Limit(q);
  }

  lemma GrownSourceFreezes(f: FreezeCall, d: Disk)
    requires d == Disk(map[], map[], map[], {})
    requires f.slot == Slot("ally", 0) && f.free == 1_000_000_000 && f.sweep == Sweep([], [], 0)
    requires Prepared(f.prepared) && Copyable(f)
    ensures After(d, Attempt(Freeze(f), 100)) == FrozenAt(d, f)
  {
    var t := ReconcileTrail(d, f.sweep, RECONCILE_LIMIT);
    assert t == [d, d];
    var r := Record("ally", Sum(f.prepared), Copying, f.now);
    var l := d.ledger[0 := r];
    assert Reserve(d.ledger, f.slot, Sum(f.prepared), f.free, f.now) == Reserved(l);
    SnapshotEnds(d, f);
    assert Trail(d, Freeze(f)) == t + [d.(ledger := l)] + SnapshotTrail(d.(ledger := l), f);
  }

  lemma {:induction false} SumOfEqual(n: nat, x: nat)
    ensures Sum(seq(n, _ => x)) == n * x
  {
    if n > 0 {
      SumOfEqual(n - 1, x);
      assert seq(n, _ => x)[..n - 1] == seq(n - 1, _ => x);
    }
  }

  // ---------------------------------------------------------------- recovery of releases

  ghost predicate Enumerates(listing: seq<PublicationId>, l: Ledger) {
    (forall i, j :: 0 <= i < j < |listing| ==> listing[i] != listing[j])
    && (forall id :: id in listing <==> id in l)
  }

  function ReleasingIds(l: Ledger): set<PublicationId> { set id | id in l && l[id].state == Releasing }

  /** The collected slots are distinct releasing records, and only a full list leaves one out. */
  lemma {:induction false} FirstReleasingPicks(l: Ledger, listing: seq<PublicationId>, limit: nat)
    requires forall i, j :: 0 <= i < j < |listing| ==> listing[i] != listing[j]
    ensures var f := FirstReleasing(l, listing, limit); var ids := set s | s in f :: s.id;
            && (forall s | s in f :: s.id in listing && s.id in ReleasingIds(l) && s.profile == l[s.id].profile)
            && |ids| == |f| <= limit
            && (|f| < limit ==> forall id | id in listing && id in ReleasingIds(l) :: Slot(l[id].profile, id) in f)
  {
    if listing != [] {
      var init, id := listing[..|listing| - 1], listing[|listing| - 1];
      FirstReleasingPicks(l, init, limit);
      var f := FirstReleasing(l, init, limit);
      assert listing == init + [id];
      assert id !in init;
      var g := FirstReleasing(l, listing, limit);
      if g != f {
        assert (set s | s in g :: s.id) == (set s | s in f :: s.id) + {id};
      }
    }
  }

  lemma AllReleasingPicked(l: Ledger, listing: seq<PublicationId>, limit: nat, id: PublicationId)
    requires Enumerates(listing, l) && |ReleasingIds(l)| <= limit && id in ReleasingIds(l)
    ensures Slot(l[id].profile, id) in FirstReleasing(l, listing, limit)
  {
    FirstReleasingPicks(l, listing, limit);
    var f := FirstReleasing(l, listing, limit);
    var ids := set s | s in f :: s.id;
    if |f| == limit {
      SubsetOfSameSize(ids, ReleasingIds(l));
      var s :| s in f && s.id == id;
      assert s == Slot(l[id].profile, id);
    }
  }

  lemma SubsetOfSameSize(a: set<PublicationId>, b: set<PublicationId>)
    requires a <= b && |b| <= |a|
    ensures a == b
  {
    assert |b - a| == |b| - |a|;
  }

  /** One reconciliation completes every release it picks up: record, directory and journal go. */
  lemma ReconcileCompletes(d: Disk, s: Sweep, limit: nat, id: PublicationId)
    requires Covered(d) && id in d.ledger
    requires Slot(d.ledger[id].profile, id) in FirstReleasing(d.ledger, s.listing, limit)
    requires forall i, j :: 0 <= i < j < |s.listing| ==> s.listing[i] != s.listing[j]
    ensures var r := End(d, ReconcileTrail(d, s, limit)); var slot := Slot(d.ledger[id].profile, id);
            id !in r.ledger && slot !in r.snapshots && slot !in r.journals
  {
    var slots := FirstReleasing(d.ledger, s.listing, limit);
    FirstReleasingPicks(d.ledger, s.listing, limit);
    RemovalEnd(d, slots);
    DropReleasedDrops(d.ledger, slots);
    var e := End(d, CompletionTrail(d, s.listing, limit));
    MergeAddsOnlySnapshots(e, Discover(e, s.scan, limit), s.now);
  }

  lemma {:induction false} RemovalEnd(d: Disk, slots: seq<Slot>)
    ensures var e := End(d, RemovalTrail(d, slots));
            && e.ledger == d.ledger
            && e.snapshots == d.snapshots - (set s | s in slots)
            && e.journals == d.journals - (set s | s in slots)
  {
    if slots == [] {
      assert d.snapshots - {} == d.snapshots && d.journals - {} == d.journals;
    } else {
      var init, last := slots[..|slots| - 1], slots[|slots| - 1];
      RemovalEnd(d, init);
      assert (set s | s in slots) == (set s | s in init) + {last} by {
        assert slots == init + [last];
      }
    }
  }

  lemma {:induction false} MergeAddsOnlySnapshots(d: Disk, found: seq<Slot>, now: int)
    ensures forall id | id in Merge(d, found, now) && id !in d.ledger :: exists s :: s in d.snapshots && s.id == id
  {
    if found != [] { MergeAddsOnlySnapshots(d, found[..|found| - 1], now); }
  }

  /** A release that crashed anywhere after its mark is finished by one reconciliation, provided no
      more than `limit` publications are being released. */
  lemma CrashedReleaseIsFinished(d: Disk, slot: Slot, now: int, writes: nat, s: Sweep, limit: nat)
    requires Covered(d) && MayRelease(d.ledger, slot) && 1 <= writes <= 4
    requires var c := After(d, Attempt(Release(slot, now), writes));
             Enumerates(s.listing, c.ledger) && |ReleasingIds(c.ledger)| <= limit
    ensures var r := After(After(d, Attempt(Release(slot, now), writes)), Attempt(Reconcile(s, limit), |ReconcileTrail(After(d, Attempt(Release(slot, now), writes)), s, limit)|));
            slot.id !in r.ledger && slot !in r.snapshots && slot !in r.journals
  {
    hide Merge, Discover, Sum, RemovalTrail, FirstReleasing, DropReleased;
    var c := After(d, Attempt(Release(slot, now), writes));
    assert c == ReleaseTrail(d, slot, now)[writes - 1];
    var r := End(c, ReconcileTrail(c, s, limit));
    if writes < 4 {
      assert c.ledger[slot.id].profile == slot.profile && c.ledger[slot.id].state == Releasing;
      AllReleasingPicked(c.ledger, s.listing, limit, slot.id);
      ReconcileCompletes(c, s, limit, slot.id);
    } else {
      var slots := FirstReleasing(c.ledger, s.listing, limit);
      RemovalEnd(c, slots);
      DropReleasedDrops(c.ledger, slots);
      var e := End(c, CompletionTrail(c, s.listing, limit));
      MergeAddsOnlySnapshots(e, Discover(e, s.scan, limit), s.now);
    }
  }
}
