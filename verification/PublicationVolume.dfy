/** The publication operations as the runtime performs them: maps updated in place, in loops, one
    disk write at a time.  `trail` records the disk after every write; each operation is proved to
    write exactly the trail that module `Spool` gives for it. */
module PublicationVolume {
  import opened Spool

  /** The part of the ledger that a listing has visited. */
  function Visited(l: Ledger, ids: seq<PublicationId>): Ledger { map id | id in ids && id in l :: l[id] }

  lemma VisitOne(l: Ledger, ids: seq<PublicationId>, i: nat, q: Quota)
    requires i < |ids| && ids[i] in l && ids[i] !in ids[..i]
    ensures Total(Visited(l, ids[..i + 1]), q) == Total(Visited(l, ids[..i]), q) + Weight(q, l[ids[i]])
  {
    var before, after := Visited(l, ids[..i]), Visited(l, ids[..i + 1]);
    assert ids[..i + 1] == ids[..i] + [ids[i]];
    TotalWithout(after, ids[i], q);
    assert after - {ids[i]} == before;
  }

  method PickReleasing(l: Ledger, listing: seq<PublicationId>, limit: nat) returns (slots: seq<Slot>)
    ensures slots == FirstReleasing(l, listing, limit)
  {
    slots := [];
    for i := 0 to |listing|
      invariant slots == FirstReleasing(l, listing[..i], limit)
    {
      assert listing[..i + 1][..i] == listing[..i];
      if |slots| < limit && listing[i] in l && l[listing[i]].state == Releasing {
        slots := slots + [Slot(l[listing[i]].profile, listing[i])];
      }
    }
    assert listing[..|listing|] == listing;
  }

  method DropCompleted(l: Ledger, slots: seq<Slot>) returns (records: Ledger)
    ensures records == DropReleased(l, slots)
  {
    records := l;
    for i := 0 to |slots|
      invariant records == DropReleased(l, slots[..i])
    {
      assert slots[..i + 1][..i] == slots[..i];
      var slot := slots[i];
      if slot.id in records && records[slot.id].state == Releasing && records[slot.id].profile == slot.profile {
        records := records - {slot.id};
      }
    }
    assert slots[..|slots|] == slots;
  }

  method ScanJournals(d: Disk, scan: seq<Slot>, limit: nat) returns (found: seq<Slot>)
    ensures found == Discover(d, scan, limit) && |found| <= limit
  {
    found := [];
    for i := 0 to |scan|
      invariant found == Discover(d, scan[..i], limit) && |found| <= limit
    {
      assert scan[..i + 1][..i] == scan[..i];
      if |found| < limit && d.SnapshotExists(scan[i]) {
        found := found + [scan[i]];
      }
    }
    assert scan[..|scan|] == scan;
  }

  method MergeFound(d: Disk, found: seq<Slot>, now: int) returns (records: Ledger)
    ensures records == Merge(d, found, now)
  {
    records := d.ledger;
    for i := 0 to |found|
      invariant records == Merge(d, found[..i], now)
    {
      assert found[..i + 1][..i] == found[..i];
      var slot := found[i];
      if d.SnapshotExists(slot) {
        var size := Sum(d.journals[slot].sizes);
        if slot.id !in records {
          records := records[slot.id := Record(slot.profile, size, Frozen, now)];
        } else if records[slot.id].state != Releasing {
          var current := records[slot.id];
          if current.profile != slot.profile || current.size != size || current.state != Frozen {
            records := records[slot.id := Record(slot.profile, size, Frozen, now)];
          }
        }
      }
    }
    assert found[..|found|] == found;
  }

  method PickStale(d: Disk, listing: seq<PublicationId>, now: int, limit: nat) returns (ids: seq<PublicationId>)
    ensures ids == FirstStale(d, listing, now, limit) && |ids| <= limit
  {
    ids := [];
    for i := 0 to |listing|
      invariant ids == FirstStale(d, listing[..i], now, limit) && |ids| <= limit
    {
      assert listing[..i + 1][..i] == listing[..i];
      if |ids| < limit && Stale(d, listing[i], now) && listing[i] !in ids {
        ids := ids + [listing[i]];
      }
    }
    assert listing[..|listing|] == listing;
  }

  /** The capacity decision: one pass over the ledger records, in the order of its listing. */
  method CheckCapacity(l: Ledger, p: string, size: nat, listing: seq<PublicationId>) returns (ok: bool)
    requires Enumerates(listing, l)
    ensures ok <==> HasCapacity(l, p, size)
  {
    var manifests, incomplete, bytes, volume := 0, 0, 0, 0;
    for i := 0 to |listing|
      invariant manifests == Total(Visited(l, listing[..i]), Manifests(p))
      invariant incomplete == Total(Visited(l, listing[..i]), Incomplete(p))
      invariant bytes == Total(Visited(l, listing[..i]), ProfileBytes(p))
      invariant volume == Total(Visited(l, listing[..i]), VolumeBytes)
    {
      VisitOne(l, listing, i, Manifests(p));
      VisitOne(l, listing, i, Incomplete(p));
      VisitOne(l, listing, i, ProfileBytes(p));
      VisitOne(l, listing, i, VolumeBytes);
      var record := l[listing[i]];
      if record.profile == p {
        manifests := manifests + 1;
        if record.state == Copying { incomplete := incomplete + 1; }
        bytes := bytes + record.size;
      }
      volume := volume + record.size;
    }
    assert listing[..|listing|] == listing;
    assert Visited(l, listing) == l;
    ok := manifests < MAX_PUBLICATION_MANIFESTS && incomplete < MAX_PUBLICATION_INCOMPLETE
      && bytes + size <= MAX_PROFILE_PUBLICATION_BYTES && volume + size <= MAX_VOLUME_PUBLICATION_BYTES;
  }

  class Volume {
    var ledger: Ledger
    var snapshots: map<Slot, seq<nat>>
    var journals: map<Slot, Manifest>
    var copies: set<Copy>
    ghost var trail: seq<Disk>

    function View(): Disk
      reads this
    {
      Disk(ledger, snapshots, journals, copies)
    }

    constructor ()
      ensures View() == Disk(map[], map[], map[], {}) && trail == []
    {
      ledger, snapshots, journals, copies := map[], map[], map[], {};
      trail := [];
    }

    /** Remove the snapshot, then the journal (`_complete_publication_release`). */
    method CompleteRelease(slot: Slot)
      modifies this
      ensures View() == old(View()).DropSnapshot(slot).DropJournal(slot)
      ensures trail == old(trail) + [old(View()).DropSnapshot(slot), old(View()).DropSnapshot(slot).DropJournal(slot)]
    {
      snapshots := snapshots - {slot};
      trail := trail + [View()];
      journals := journals - {slot};
      trail := trail + [View()];
    }

    method Release(slot: Slot, now: int)
      modifies this
      ensures trail == old(trail) + ReleaseTrail(old(View()), slot, now)
      ensures View() == End(old(View()), ReleaseTrail(old(View()), slot, now))
    {
      if slot.id !in ledger { return; }
      var record := ledger[slot.id];
      if record.profile != slot.profile || record.state == Copying { return; }
      if record.state != Releasing {
        ledger := ledger[slot.id := record.(state := Releasing, updatedAt := now)];
      }
      trail := trail + [View()];
      CompleteRelease(slot);
      ledger := ledger - {slot.id};
      trail := trail + [View()];
    }

    method CompleteReleasing(listing: seq<PublicationId>, limit: nat)
      modifies this
      ensures trail == old(trail) + CompletionTrail(old(View()), listing, limit)
      ensures View() == End(old(View()), CompletionTrail(old(View()), listing, limit))
    {
      hide Merge, Discover, DropReleased, FirstReleasing, Sum;
      ghost var d := View();
      var releasing := PickReleasing(ledger, listing, limit);
      for i := 0 to |releasing|
        invariant trail == old(trail) + RemovalTrail(d, releasing[..i])
        invariant View() == End(d, RemovalTrail(d, releasing[..i])) && ledger == d.ledger
      {
        assert releasing[..i + 1][..i] == releasing[..i];
        CompleteRelease(releasing[i]);
      }
      assert releasing[..|releasing|] == releasing;
      var records := DropCompleted(ledger, releasing);
      ledger := records;
      trail := trail + [View()];
    }

    method Reconcile(s: Sweep, limit: nat) returns (discovered: nat)
      modifies this
      ensures trail == old(trail) + ReconcileTrail(old(View()), s, limit)
      ensures View() == End(old(View()), ReconcileTrail(old(View()), s, limit))
      ensures discovered <= limit
    {
      CompleteReleasing(s.listing, limit);
      var found := ScanJournals(View(), s.scan, limit);
      var records := MergeFound(View(), found, s.now);
      ledger := records;
      trail := trail + [View()];
      return |found|;
    }

    method RemoveStale(slot: Slot)
      modifies this
      ensures View() == old(View()).DropSnapshot(slot).DropCopies(slot)
      ensures trail == old(trail) + [old(View()).DropSnapshot(slot), old(View()).DropSnapshot(slot).DropCopies(slot)]
    {
      snapshots := snapshots - {slot};
      trail := trail + [View()];
      copies := set c | c in copies && c.slot != slot;
      trail := trail + [View()];
    }

    method CleanStale(listing: seq<PublicationId>, now: int, limit: nat) returns (removed: nat)
      modifies this
      ensures trail == old(trail) + StaleTrail(old(View()), listing, now, limit)
      ensures View() == End(old(View()), StaleTrail(old(View()), listing, now, limit))
      ensures removed <= limit
    {
      hide StaleRemovalTrail, FirstStale;
      ghost var d := View();
      var ids := PickStale(View(), listing, now, limit);
      FirstStaleListed(d, listing, now, limit);
      NoStaleRemoval(d);
      for i := 0 to |ids|
        invariant forall id | id in ids :: id in d.ledger
        invariant trail == old(trail) + StaleRemovalTrail(d, ids[..i])
        invariant View() == End(d, StaleRemovalTrail(d, ids[..i])) && ledger == d.ledger
      {
        assert ids[..i + 1] == ids[..i] + [ids[i]];
        StaleRemovalOne(d, ids[..i], ids[i]);
        RemoveStale(Slot(ledger[ids[i]].profile, ids[i]));
      }
      assert ids[..|ids|] == ids;
      ledger := ledger - (set id | id in ids);
      trail := trail + [View()];
      return |ids|;
    }

    method CleanProfile(profile: string)
      modifies this
      ensures trail == old(trail) + ProfileCleanupTrail(old(View()), profile)
      ensures View() == End(old(View()), ProfileCleanupTrail(old(View()), profile))
    {
      snapshots := map s | s in snapshots && s.profile != profile :: snapshots[s];
      journals := map s | s in journals && s.profile != profile :: journals[s];
      copies := set c | c in copies && c.slot.profile != profile;
      trail := trail + [View()];
      ledger := map id | id in ledger && ledger[id].profile != profile :: ledger[id];
      trail := trail + [View()];
    }

    method ReservePublication(slot: Slot, size: nat, free: int, now: int, listing: seq<PublicationId>) returns (ok: bool)
      requires Enumerates(listing, ledger)
      modifies this
      ensures var r := Reserve(old(ledger), slot, size, free, now);
              && ok == r.Reserved?
              && View() == old(View()).(ledger := if ok then r.ledger else old(ledger))
      ensures trail == old(trail) + if ok then [View()] else []
    {
      if slot.id in ledger {
        ok := ledger[slot.id].profile == slot.profile && ledger[slot.id].size == size;
      } else {
        ok := CheckCapacity(ledger, slot.profile, size, listing);
        ok := ok && free - size >= MIN_VOLUME_FREE_BYTES;
        if ok { ledger := ledger[slot.id := Record(slot.profile, size, Copying, now)]; }
      }
      if ok { trail := trail + [View()]; }
    }

    method Abort(f: FreezeCall)
      modifies this
      ensures trail == old(trail) + AbortTrail(old(View()), f)
      ensures View() == End(old(View()), AbortTrail(old(View()), f))
    {
      copies := copies - {Copy(f.slot, f.nonce)};
      trail := trail + [View()];
      snapshots := snapshots - {f.slot};
      trail := trail + [View()];
      ledger := ledger - {f.slot.id};
      trail := trail + [View()];
    }

    /** Copy, rename, journal, mark; or clean up after a failure. */
    method Snapshot(f: FreezeCall) returns (ok: bool)
      requires f.slot.id in ledger
      modifies this
      ensures trail == old(trail) + SnapshotTrail(old(View()), f)
      ensures View() == End(old(View()), SnapshotTrail(old(View()), f))
      ensures ok ==> View().SnapshotExists(f.slot) && ledger[f.slot.id].state == Frozen
    {
      if f.slot in snapshots || Copy(f.slot, f.nonce) in copies {
        Abort(f);
        return false;
      }
      copies := copies + {Copy(f.slot, f.nonce)};
      trail := trail + [View()];
      if !Copyable(f) {
        Abort(f);
        return false;
      }
      copies, snapshots := copies - {Copy(f.slot, f.nonce)}, snapshots[f.slot := f.copied];
      trail := trail + [View()];
      journals := journals[f.slot := Manifest(f.paths, f.copied)];
      trail := trail + [View()];
      ledger := ledger[f.slot.id := ledger[f.slot.id].(state := Frozen, updatedAt := f.now)];
      trail := trail + [View()];
      return true;
    }

    /** `listing` is the ledger order the reservation sees, after the sweep. */
    method Freeze(f: FreezeCall, listing: seq<PublicationId>) returns (ok: bool)
      requires Enumerates(listing, End(View(), ReconcileTrail(View(), f.sweep, RECONCILE_LIMIT)).ledger)
      modifies this
      ensures trail == old(trail) + FreezeTrail(old(View()), f)
      ensures View() == End(old(View()), FreezeTrail(old(View()), f))
      ensures ok ==> f.slot in View().journals
    {
      hide RemovalTrail, Merge, Discover, DropReleased, FirstReleasing, CompletionTrail, ReconcileTrail, SnapshotTrail, Sum, HasCapacity;
      if !Prepared(f.prepared) { return false; }
      if f.slot in journals {
        // The journalled publication is returned when its paths agree; a different set is refused.
        return journals[f.slot].paths == f.paths;
      }
      var _ := Reconcile(f.sweep, RECONCILE_LIMIT);
      var reserved := ReservePublication(f.slot, Sum(f.prepared), f.free, f.now, listing);
      if !reserved { return false; }
      ok := Snapshot(f);
    }
  }
}
