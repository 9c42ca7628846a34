/** What the finished operations of the spool leave on disk, said without their trails. */
module SpoolOutcomes {
  import opened Spool

  // ---------------------------------------------------------------- release, stale removal, profile removal

  /** A release removes record, snapshot and journal of a publication that is not being copied, and
      nothing else; any other release changes nothing. */
  lemma ReleaseEnds(d: Disk, slot: Slot, now: int)
    ensures End(d, ReleaseTrail(d, slot, now)) ==
      if slot.id in d.ledger && d.ledger[slot.id].profile == slot.profile && (d.ledger[slot.id].state == Frozen || d.ledger[slot.id].state == Releasing)
      then d.(ledger := d.ledger - {slot.id}, snapshots := d.snapshots - {slot}, journals := d.journals - {slot}) else d
  {
    if MayRelease(d.ledger, slot) {
      assert MarkReleasing(d.ledger, slot.id, now) - {slot.id} == d.ledger - {slot.id};
    }
  }

  /** The records that have been copying for a day and never reached their journal. */
  function StaleIds(d: Disk, now: int): set<PublicationId> {
    set id | id in d.ledger && d.ledger[id].state == Copying && now - d.ledger[id].updatedAt >= 86400 && Slot(d.ledger[id].profile, id) !in d.journals
  }

  function SlotsOf(l: Ledger, ids: set<PublicationId>): set<Slot>
    requires ids <= l.Keys
  {
    set id | id in ids :: Slot(l[id].profile, id)
  }

  function IdsIn(ids: seq<PublicationId>): set<PublicationId> { set id | id in ids }

  lemma {:induction false} FirstStalePicks(d: Disk, listing: seq<PublicationId>, now: int, limit: nat)
    ensures var f := FirstStale(d, listing, now, limit);
      IdsIn(f) <= StaleIds(d, now) && |IdsIn(f)| == |f| <= limit
      && (|f| < limit ==> forall id | id in listing && id in StaleIds(d, now) :: id in f)
  {
    if listing != [] {
      var init, id := listing[..|listing| - 1], listing[|listing| - 1];
      FirstStalePicks(d, init, now, limit);
      var f, g := FirstStale(d, init, now, limit), FirstStale(d, listing, now, limit);
      assert listing == init + [id];
      if g != f {
        assert IdsIn(g) == IdsIn(f) + {id} && id !in IdsIn(f);
      }
    }
  }

  /** With at most `limit` of them, one call removes exactly the stale records, with their snapshots and
      all their copies. */
  lemma StaleEnds(d: Disk, listing: seq<PublicationId>, now: int, limit: nat)
    requires Enumerates(listing, d.ledger) && |StaleIds(d, now)| <= limit
    ensures var ids := StaleIds(d, now); var slots := SlotsOf(d.ledger, ids);
      End(d, StaleTrail(d, listing, now, limit)) ==
        Disk(d.ledger - ids, d.snapshots - slots, d.journals, set c | c in d.copies && c.slot !in slots)
  {
    var f := FirstStale(d, listing, now, limit);
    FirstStaleListed(d, listing, now, limit);
    FirstStalePicks(d, listing, now, limit);
    var ids := IdsIn(f);
    if |f| == limit { SubsetOfSameSize(ids, StaleIds(d, now)); }
    assert ids == StaleIds(d, now);
    StaleRemovalEnds(d, f);
    hide FirstStale, StaleRemovalTrail;
  }

  lemma {:induction false} StaleRemovalEnds(d: Disk, ids: seq<PublicationId>)
    requires forall id | id in ids :: id in d.ledger
    ensures var slots := SlotsOf(d.ledger, IdsIn(ids));
      End(d, StaleRemovalTrail(d, ids)) == d.(snapshots := d.snapshots - slots, copies := set c | c in d.copies && c.slot !in slots)
  {
    hide StaleRemovalTrail, SlotsOf, End;
    if ids == [] {
      NoStaleRemoval(d);
      NothingDropped(d);
    } else {
      var init, last := ids[..|ids| - 1], ids[|ids| - 1];
      assert ids == init + [last];
      StaleRemovalEnds(d, init);
      StaleRemovalOne(d, init, last);
      StaleDropsMore(d, IdsIn(init), last);
      assert IdsIn(ids) == IdsIn(init) + {last};
    }
  }

  lemma NothingDropped(d: Disk)
    ensures var slots := SlotsOf(d.ledger, IdsIn([]));
      d == d.(snapshots := d.snapshots - slots, copies := set c | c in d.copies && c.slot !in slots)
  {
    var slots := SlotsOf(d.ledger, IdsIn([]));
    assert slots == {};
    assert d.snapshots - slots == d.snapshots && (set c | c in d.copies && c.slot !in slots) == d.copies;
  }

  lemma StaleDropsMore(d: Disk, ids: set<PublicationId>, last: PublicationId)
    requires ids <= d.ledger.Keys && last in d.ledger
    ensures var slots, slot := SlotsOf(d.ledger, ids), Slot(d.ledger[last].profile, last);
      SlotsOf(d.ledger, ids + {last}) == slots + {slot}
      && d.(snapshots := d.snapshots - slots, copies := set c | c in d.copies && c.slot !in slots).DropSnapshot(slot).DropCopies(slot)
         == d.(snapshots := d.snapshots - (slots + {slot}), copies := set c | c in d.copies && c.slot !in slots + {slot})
  {
  }

  /** Removing a profile leaves nothing under it, in the spool or in the ledger, and all other profiles alone. */
  lemma ProfileCleanupEnds(d: Disk, profile: string)
    ensures var e := End(d, ProfileCleanupTrail(d, profile));
      && (forall id :: id in e.ledger <==> id in d.ledger && d.ledger[id].profile != profile)
      && (forall s :: s in e.snapshots <==> s in d.snapshots && s.profile != profile)
      && (forall s :: s in e.journals <==> s in d.journals && s.profile != profile)
      && (forall c :: c in e.copies <==> c in d.copies && c.slot.profile != profile)
      && (forall id | id in e.ledger :: e.ledger[id] == d.ledger[id])
      && (forall s | s in e.snapshots :: e.snapshots[s] == d.snapshots[s]) && (forall s | s in e.journals :: e.journals[s] == d.journals[s])
  {
  }

  // ---------------------------------------------------------------- reconciliation

  /** The publications whose journal and snapshot are both complete. */
  function Complete(d: Disk): set<Slot> { set s | s in d.journals && d.SnapshotExists(s) }

  ghost predicate Distinct(scan: seq<Slot>) { forall i, j :: 0 <= i < j < |scan| ==> scan[i] != scan[j] }

  lemma {:induction false} DiscoverPicks(d: Disk, scan: seq<Slot>, limit: nat)
    requires Distinct(scan)
    ensures var f := Discover(d, scan, limit); var found := set s | s in f;
      && found <= Complete(d) && |found| == |f| <= limit && (forall s | s in f :: s in scan)
      && (|f| < limit ==> forall s | s in scan && s in Complete(d) :: s in f)
  {
    if scan != [] {
      var init, s := scan[..|scan| - 1], scan[|scan| - 1];
      DiscoverPicks(d, init, limit);
      var f, g := Discover(d, init, limit), Discover(d, scan, limit);
      assert scan == init + [s] && s !in init;
      if g != f { assert (set k | k in g) == (set k | k in f) + {s}; }
    }
  }

  /** With at most `limit` complete publications a sweep finds every one that it scans. */
  lemma AllCompleteFound(d: Disk, scan: seq<Slot>, limit: nat, slot: Slot)
    requires Distinct(scan) && slot in scan && slot in Complete(d) && |Complete(d)| <= limit
    ensures slot in Discover(d, scan, limit)
  {
    DiscoverPicks(d, scan, limit);
    var f := Discover(d, scan, limit);
    var found := set s | s in f;
    if |f| == limit { SlotSubsetOfSameSize(found, Complete(d)); }
    assert slot in found;
  }

  lemma SlotSubsetOfSameSize(a: set<Slot>, b: set<Slot>)
    requires a <= b && |b| <= |a|
    ensures a == b
  {
    assert |b - a| == |b| - |a|;
  }

  /** No other complete publication has this id. */
  ghost predicate Only(d: Disk, slot: Slot) { forall t | t in Complete(d) && t.id == slot.id :: t == slot }

  /** The record that a found publication ends with: frozen, under its profile, at the size of its journal. */
  ghost predicate Settled(l: Ledger, slot: Slot, size: nat) {
    slot.id in l && l[slot.id].profile == slot.profile && l[slot.id].state == Frozen && l[slot.id].size == size
  }

  predicate Releases(l: Ledger, id: PublicationId) { id in l && l[id].state == Releasing }

  lemma {:induction false} MergeSettles(d: Disk, found: seq<Slot>, now: int, slot: Slot)
    requires slot in Complete(d) && Only(d, slot) && !Releases(d.ledger, slot.id)
    ensures var l := Merge(d, found, now);
      if slot in found then Settled(l, slot, Sum(d.journals[slot].sizes))
      else (slot.id in l <==> slot.id in d.ledger) && (slot.id in l ==> l[slot.id] == d.ledger[slot.id])
  {
    hide Sum;
    if found != [] {
      var init, last := found[..|found| - 1], found[|found| - 1];
      assert found == init + [last];
      MergeSettles(d, init, now, slot);
    }
  }

  /** A record without a complete publication is left as it is. */
  lemma {:induction false} MergeLeaves(d: Disk, found: seq<Slot>, now: int, id: PublicationId)
    requires forall t | t in Complete(d) :: t.id != id
    ensures var l := Merge(d, found, now); (id in l <==> id in d.ledger) && (id in l ==> l[id] == d.ledger[id])
  {
    hide Sum;
    if found != [] {
      var last := found[|found| - 1];
      MergeLeaves(d, found[..|found| - 1], now, id);
      if d.SnapshotExists(last) { assert last in Complete(d); }
    }
  }

  /** Completing releases touches nothing of a publication that is not being released. */
  lemma CompletionSpares(d: Disk, listing: seq<PublicationId>, limit: nat)
    ensures var e := End(d, CompletionTrail(d, listing, limit));
      && e.ledger.Keys <= d.ledger.Keys && (forall id | id in e.ledger :: e.ledger[id] == d.ledger[id])
      && (forall id | id in d.ledger && d.ledger[id].state != Releasing :: id in e.ledger)
      && e.snapshots.Keys <= d.snapshots.Keys && e.journals.Keys <= d.journals.Keys && e.copies == d.copies
      && (forall s | s in e.snapshots :: e.snapshots[s] == d.snapshots[s]) && (forall s | s in e.journals :: e.journals[s] == d.journals[s])
      && (forall s | s in d.snapshots && !Releases(d.ledger, s.id) :: s in e.snapshots)
      && (forall s | s in d.journals && !Releases(d.ledger, s.id) :: s in e.journals)
  {
    var slots := FirstReleasing(d.ledger, listing, limit);
    RemovalEnd(d, slots);
    RemovalKeepsCopies(d, slots);
    FirstReleasingAreReleasing(d.ledger, listing, limit);
    DropReleasedDrops(d.ledger, slots);
    hide RemovalTrail, FirstReleasing, DropReleased;
  }

  lemma {:induction false} RemovalKeepsCopies(d: Disk, slots: seq<Slot>)
    ensures End(d, RemovalTrail(d, slots)).copies == d.copies
  {
    if slots != [] { RemovalKeepsCopies(d, slots[..|slots| - 1]); }
  }

  /** After a sweep that finds it, every complete publication that is not being released has a frozen
      record under its profile, charged at the size of its journal - also when its record was lost, or
      still said "copying". */
  lemma ReconcileSettles(d: Disk, s: Sweep, limit: nat, slot: Slot)
    requires slot in Complete(d) && Only(d, slot) && !Releases(d.ledger, slot.id)
    requires Distinct(s.scan) && slot in s.scan && |Complete(d)| <= limit
    ensures var r := End(d, ReconcileTrail(d, s, limit));
      && Settled(r.ledger, slot, Sum(d.journals[slot].sizes))
      && slot in r.snapshots && slot in r.journals && r.snapshots[slot] == d.snapshots[slot] && r.journals[slot] == d.journals[slot]
  {
    var e := End(d, CompletionTrail(d, s.listing, limit));
    CompletionSpares(d, s.listing, limit);
    hide CompletionTrail, Sum, Merge;
    FewerComplete(d, e);
    AllCompleteFound(e, s.scan, limit, slot);
    MergeSettles(e, Discover(e, s.scan, limit), s.now, slot);
  }

  lemma FewerComplete(d: Disk, e: Disk)
    requires e.snapshots.Keys <= d.snapshots.Keys && e.journals.Keys <= d.journals.Keys
    requires (forall s | s in e.snapshots :: e.snapshots[s] == d.snapshots[s]) && (forall s | s in e.journals :: e.journals[s] == d.journals[s])
    ensures Complete(e) <= Complete(d) && |Complete(e)| <= |Complete(d)|
    ensures forall s | s in Complete(d) && s in e.snapshots && s in e.journals :: s in Complete(e)
  {
    assert Complete(e) <= Complete(d);
    assert |Complete(d) - Complete(e)| == |Complete(d)| - |Complete(e)|;
  }

  /** ... and a record that has no complete publication and is not being released stays as it was. */
  lemma ReconcileLeavesRest(d: Disk, s: Sweep, limit: nat, id: PublicationId)
    requires id in d.ledger && d.ledger[id].state != Releasing && forall t | t in Complete(d) :: t.id != id
    ensures var r := End(d, ReconcileTrail(d, s, limit)); id in r.ledger && r.ledger[id] == d.ledger[id]
  {
    var e := End(d, CompletionTrail(d, s.listing, limit));
    CompletionSpares(d, s.listing, limit);
    hide CompletionTrail, Merge;
    FewerComplete(d, e);
    MergeLeaves(e, Discover(e, s.scan, limit), s.now, id);
  }

  // ---------------------------------------------------------------- freezing

  /** The disk a freeze works on, after its own sweep. */
  function Swept(d: Disk, f: FreezeCall): Disk { End(d, ReconcileTrail(d, f.sweep, RECONCILE_LIMIT)) }

  /** There is room for the prepared size in every quota and on the volume. */
  ghost predicate Fits(l: Ledger, f: FreezeCall) {
    WithinQuota(l[f.slot.id := Record(f.slot.profile, Sum(f.prepared), Copying, f.now)]) && f.free - Sum(f.prepared) >= 250_000_000
  }

  /** A freeze of a new publication ends with record, snapshot and journal in place, exactly when it fits
      and its files can be copied; otherwise nothing of it is left. */
  lemma FreezeEnds(d: Disk, f: FreezeCall)
    requires Safe(d, Bytes) && Prepared(f.prepared) && f.slot !in d.journals
    requires var e := Swept(d, f); f.slot.id !in e.ledger && Copy(f.slot, f.nonce) !in e.copies
    ensures var e := Swept(d, f);
      End(d, FreezeTrail(d, f)) == if Fits(e.ledger, f) && Copyable(f) then FrozenAt(e, f) else e
  {
    var e := Swept(d, f);
    SweptIsSafe(d, f);
    hide Prepared, Copyable, ReconcileTrail, Sum, Total, Within;
    var r := Record(f.slot.profile, Sum(f.prepared), Copying, f.now);
    CapacityIsRoom(e.ledger, f.slot.id, r);
    if Fits(e.ledger, f) {
      assert Reserve(e.ledger, f.slot, Sum(f.prepared), f.free, f.now) == Reserved(e.ledger[f.slot.id := r]);
      assert f.slot !in e.snapshots;
      if Copyable(f) { SnapshotEnds(e, f); } else { SnapshotFails(e, f, r); }
    }
  }

  lemma SweptIsSafe(d: Disk, f: FreezeCall)
    requires Safe(d, Bytes)
    ensures Safe(Swept(d, f), Bytes) && WithinQuota(Swept(d, f).ledger)
  {
    hide CompletionTrail, Merge, Discover, Sum, Total, Covered, Sized;
    ReconcileKeepsSafe(d, f.sweep, RECONCILE_LIMIT, Bytes);
  }

  lemma SnapshotFails(e: Disk, f: FreezeCall, r: Record)
    requires f.slot !in e.snapshots && f.slot.id !in e.ledger && Copy(f.slot, f.nonce) !in e.copies && !Copyable(f)
    ensures End(e, SnapshotTrail(e.(ledger := e.ledger[f.slot.id := r]), f)) == e
  {
    assert e.copies + {Copy(f.slot, f.nonce)} - {Copy(f.slot, f.nonce)} == e.copies;
    assert e.ledger[f.slot.id := r] - {f.slot.id} == e.ledger;
    assert e.snapshots - {f.slot} == e.snapshots;
  }

  /** A freeze that is refused before it looks at the ledger writes nothing. */
  lemma FreezeRefused(d: Disk, f: FreezeCall)
    ensures FreezeTrail(d, f) == [] <==>
      f.slot in d.journals || |f.prepared| == 0 || |f.prepared| > 10 || Sum(f.prepared) > 50_000_000
      || exists i :: 0 <= i < |f.prepared| && !(1 <= f.prepared[i] <= 25_000_000)
  {
  }

  // ---------------------------------------------------------------- a freeze cut short

  /** The same but for what the record of `id` says about its progress. */
  ghost predicate Alike(a: Disk, b: Disk, id: PublicationId) {
    && a.snapshots == b.snapshots && a.journals == b.journals && a.copies == b.copies && AlikeLedgers(a.ledger, b.ledger, id)
  }

  ghost predicate AlikeLedgers(a: Ledger, b: Ledger, id: PublicationId) {
    && a.Keys == b.Keys && (forall k | k in a && k != id :: a[k] == b[k])
    && id in a && a[id].profile == b[id].profile && a[id].state != Releasing && b[id].state != Releasing
  }

  lemma {:induction false} AlikeReleasing(a: Ledger, b: Ledger, id: PublicationId, listing: seq<PublicationId>, limit: nat)
    requires AlikeLedgers(a, b, id)
    ensures FirstReleasing(a, listing, limit) == FirstReleasing(b, listing, limit)
  {
    if listing != [] { AlikeReleasing(a, b, id, listing[..|listing| - 1], limit); }
  }

  lemma {:induction false} AlikeDropped(a: Ledger, b: Ledger, id: PublicationId, slots: seq<Slot>)
    requires AlikeLedgers(a, b, id)
    ensures AlikeLedgers(DropReleased(a, slots), DropReleased(b, slots), id)
  {
    if slots != [] { AlikeDropped(a, b, id, slots[..|slots| - 1]); }
  }

  lemma AlikeCompletion(a: Disk, b: Disk, id: PublicationId, listing: seq<PublicationId>, limit: nat)
    requires Alike(a, b, id)
    ensures Alike(End(a, CompletionTrail(a, listing, limit)), End(b, CompletionTrail(b, listing, limit)), id)
  {
    AlikeReleasing(a.ledger, b.ledger, id, listing, limit);
    var slots := FirstReleasing(a.ledger, listing, limit);
    AlikeDropped(a.ledger, b.ledger, id, slots);
    RemovalEnd(a, slots);
    RemovalEnd(b, slots);
    RemovalKeepsCopies(a, slots);
    RemovalKeepsCopies(b, slots);
    hide FirstReleasing, DropReleased, RemovalTrail;
  }

  lemma {:induction false} AlikeDiscover(a: Disk, b: Disk, scan: seq<Slot>, limit: nat)
    requires a.snapshots == b.snapshots && a.journals == b.journals
    ensures Discover(a, scan, limit) == Discover(b, scan, limit)
  {
    if scan != [] { AlikeDiscover(a, b, scan[..|scan| - 1], limit); }
  }

  lemma {:induction false} AlikeMerge(a: Disk, b: Disk, id: PublicationId, found: seq<Slot>, now: int)
    requires Alike(a, b, id) && forall t | t in Complete(a) && t.id == id :: t.profile == a.ledger[id].profile
    ensures AlikeLedgers(Merge(a, found, now), Merge(b, found, now), id)
    ensures Merge(a, found, now)[id].profile == a.ledger[id].profile
  {
    hide Sum;
    if found != [] {
      var last := found[|found| - 1];
      AlikeMerge(a, b, id, found[..|found| - 1], now);
      if a.SnapshotExists(last) { assert last in Complete(a); }
    }
  }

  /** A freeze cut off between its journal and its mark in the ledger is finished by one sweep that finds
      it: what is on disk then is what the same sweep leaves of the undisturbed freeze, up to the time in
      its record. */
  lemma CrashedFreezeIsFinished(d: Disk, f: FreezeCall, n: nat, s: Sweep, limit: nat)
    requires Safe(d, Bytes) && Prepared(f.prepared) && f.slot !in d.journals
    requires var e := Swept(d, f); f.slot.id !in e.ledger && Copy(f.slot, f.nonce) !in e.copies && Fits(e.ledger, f) && Copyable(f)
    requires |FreezeTrail(d, f)| == n + 1 && Distinct(s.scan) && f.slot in s.scan && |Complete(After(d, Attempt(Freeze(f), n)))| <= limit
    ensures var cut, done := After(d, Attempt(Freeze(f), n)), After(d, Attempt(Freeze(f), n + 1));
      var r, q := End(cut, ReconcileTrail(cut, s, limit)), End(done, ReconcileTrail(done, s, limit));
      && r == q.(ledger := r.ledger) && r.ledger.Keys == q.ledger.Keys && (forall k | k in r.ledger && k != f.slot.id :: r.ledger[k] == q.ledger[k])
      && Settled(r.ledger, f.slot, Sum(f.copied)) && Settled(q.ledger, f.slot, Sum(f.copied))
      && f.slot in r.snapshots && r.snapshots[f.slot] == f.copied && f.slot in r.journals && r.journals[f.slot] == Manifest(f.paths, f.copied)
  {
    CutFacts(d, f, n);
    var cut, done := After(d, Attempt(Freeze(f), n)), After(d, Attempt(Freeze(f), n + 1));
    hide FreezeTrail, After, Prepared, Copyable, Fits, Swept, Safe, Sum;
    assert Complete(cut) == Complete(done);
    ReconcileSettles(cut, s, limit, f.slot);
    ReconcileSettles(done, s, limit, f.slot);
    AlikeSweep(cut, done, f.slot.id, s, limit);
  }

  lemma AlikeSweep(a: Disk, b: Disk, id: PublicationId, s: Sweep, limit: nat)
    requires Alike(a, b, id) && forall t | t in Complete(a) && t.id == id :: t.profile == a.ledger[id].profile
    ensures Alike(End(a, ReconcileTrail(a, s, limit)), End(b, ReconcileTrail(b, s, limit)), id)
  {
    AlikeCompletion(a, b, id, s.listing, limit);
    CompletionSpares(a, s.listing, limit);
    var e, g := End(a, CompletionTrail(a, s.listing, limit)), End(b, CompletionTrail(b, s.listing, limit));
    hide CompletionTrail, Merge, Discover;
    FewerComplete(a, e);
    AlikeDiscover(e, g, s.scan, limit);
    AlikeMerge(e, g, id, Discover(e, s.scan, limit), s.now);
  }

  /** The disk right before the mark, and after it. */
  lemma CutFacts(d: Disk, f: FreezeCall, n: nat)
    requires Safe(d, Bytes) && Prepared(f.prepared) && f.slot !in d.journals
    requires var e := Swept(d, f); f.slot.id !in e.ledger && Copy(f.slot, f.nonce) !in e.copies && Fits(e.ledger, f) && Copyable(f)
    requires |FreezeTrail(d, f)| == n + 1
    ensures var cut, done := After(d, Attempt(Freeze(f), n)), After(d, Attempt(Freeze(f), n + 1));
      && Alike(cut, done, f.slot.id) && cut.ledger[f.slot.id].profile == f.slot.profile
      && cut.ledger.Keys == Swept(d, f).ledger.Keys + {f.slot.id} && f.slot in Complete(cut) && Only(cut, f.slot) && Only(done, f.slot)
      && cut.snapshots[f.slot] == f.copied && cut.journals[f.slot] == Manifest(f.paths, f.copied)
  {
    hide *;
    var e := Swept(d, f);
    SweptIsSafe(d, f);
    CutDisks(d, f, n, e);
    CutShape(e, f);
  }

  /** The disk right before the mark. */
  function Journalled(e: Disk, f: FreezeCall): Disk {
    e.(ledger := e.ledger[f.slot.id := Record(f.slot.profile, Sum(f.prepared), Copying, f.now)],
       snapshots := e.snapshots[f.slot := f.copied],
       journals := e.journals[f.slot := Manifest(f.paths, f.copied)])
  }

  lemma CutDisks(d: Disk, f: FreezeCall, n: nat, e: Disk)
    requires e == Swept(d, f) && Safe(e, Bytes) && Prepared(f.prepared) && f.slot !in d.journals
    requires f.slot.id !in e.ledger && Copy(f.slot, f.nonce) !in e.copies && Fits(e.ledger, f) && Copyable(f)
    requires |FreezeTrail(d, f)| == n + 1
    ensures After(d, Attempt(Freeze(f), n)) == Journalled(e, f) && After(d, Attempt(Freeze(f), n + 1)) == FrozenAt(e, f)
  {
    hide Prepared, Copyable, ReconcileTrail, Sum, Total, Within, FreezeTrail, HasCapacity, SnapshotTrail, Swept, Sized;
    var r := Record(f.slot.profile, Sum(f.prepared), Copying, f.now);
    RoomForAll(e, f, r);
    TrailOfFreeze(d, f, e, r);
    assert f.slot !in e.snapshots;
    CommitSteps(e, f, r);
  }

  lemma RoomForAll(e: Disk, f: FreezeCall, r: Record)
    requires Safe(e, Bytes) && f.slot.id !in e.ledger && Fits(e.ledger, f) && r == Record(f.slot.profile, Sum(f.prepared), Copying, f.now)
    ensures HasCapacity(e.ledger, f.slot.profile, Sum(f.prepared)) && f.free - Sum(f.prepared) >= MIN_VOLUME_FREE_BYTES
  {
    hide Sum, Total, HasCapacity, Covered, Sized;
    CapacityIsRoom(e.ledger, f.slot.id, r);
  }

  lemma CutShape(e: Disk, f: FreezeCall)
    requires Safe(e, Bytes) && f.slot.id !in e.ledger && Copyable(f)
    ensures var cut, done := Journalled(e, f), FrozenAt(e, f);
      && Alike(cut, done, f.slot.id) && cut.ledger[f.slot.id].profile == f.slot.profile && cut.ledger.Keys == e.ledger.Keys + {f.slot.id}
      && f.slot in Complete(cut) && Only(cut, f.slot) && Only(done, f.slot)
      && cut.snapshots[f.slot] == f.copied && cut.journals[f.slot] == Manifest(f.paths, f.copied)
  {
    hide Sum, Within, Sized, Copyable;
  }

  lemma TrailOfFreeze(d: Disk, f: FreezeCall, e: Disk, r: Record)
    requires Prepared(f.prepared) && f.slot !in d.journals && e == Swept(d, f) && f.slot.id !in e.ledger
    requires r == Record(f.slot.profile, Sum(f.prepared), Copying, f.now) && HasCapacity(e.ledger, f.slot.profile, Sum(f.prepared))
    requires f.free - Sum(f.prepared) >= MIN_VOLUME_FREE_BYTES
    ensures var l := e.ledger[f.slot.id := r];
      FreezeTrail(d, f) == ReconcileTrail(d, f.sweep, RECONCILE_LIMIT) + [e.(ledger := l)] + SnapshotTrail(e.(ledger := l), f)
  {
    hide ReconcileTrail, SnapshotTrail, Sum, Prepared, HasCapacity;
  }

  lemma CommitSteps(e: Disk, f: FreezeCall, r: Record)
    requires f.slot !in e.snapshots && Copy(f.slot, f.nonce) !in e.copies && Copyable(f) && r.state == Copying && r.profile == f.slot.profile
    ensures var l := e.ledger[f.slot.id := r]; var t := SnapshotTrail(e.(ledger := l), f);
      |t| == 4
      && t[2] == e.(ledger := l, snapshots := e.snapshots[f.slot := f.copied], journals := e.journals[f.slot := Manifest(f.paths, f.copied)])
      && t[3] == t[2].(ledger := l[f.slot.id := r.(state := Frozen, updatedAt := f.now)])
  {
    assert e.copies + {Copy(f.slot, f.nonce)} - {Copy(f.slot, f.nonce)} == e.copies;
  }
}
