/** The profile store at work: the same calls, write by write. */
module ProfileStore {
  import opened Events
  import opened ProfileSeeds
  import opened LegacyUpgrades
  import opened ProfileLifecycle

  function Wrap(d: Disk, files: seq<Files>): seq<Disk>
    requires d.profile.Directory?
  {
    seq(|files|, i requires 0 <= i < |files| => d.(profile := d.profile.(files := files[i])))
  }

  lemma WrapOne(d: Disk, files: seq<Files>, f: Files)
    requires d.profile.Directory?
    ensures Wrap(d, files + [f]) == Wrap(d, files) + [d.(profile := d.profile.(files := f))]
  {
  }

  class Store {
    var tomb: Option<Tombstone>
    var profile: Node
    var temps: Temps
    var spooled: bool

    /** The states on disk after each write. */
    ghost var trail: seq<Disk>

    ghost function View(): Disk
      reads this
    {
      Disk(tomb, profile, temps, spooled)
    }

    constructor (d: Disk)
      ensures View() == d && trail == []
    {
      tomb, profile, temps, spooled := d.tomb, d.profile, d.temps, d.spooled;
      trail := [];
    }

    // -------------------------------------------------------------- cleanup

    ghost predicate Passed(was: Disk, before: nat, r: Request, now: real, x: Trouble)
      reads this
    {
      before <= |trail| && forall i :: before <= i < |trail| ==> During(was, r, now, x, trail[i])
    }

    method WriteTombstone(t: Tombstone)
      modifies `tomb, `trail
      ensures View() == old(View()).(tomb := Some(t)) && trail == old(trail) + [View()]
    {
      tomb := Some(t);
      trail := trail + [View()];
    }

    /** `cleanup`; `path` is what the removal of the directory leaves from step to step. */
    method CleanUp(r: Request, now: real, x: Trouble, path: seq<Node>) returns (receipt: Option<CleanupReceipt>)
      requires Possible(View(), x)
      requires forall i :: 0 <= i < |path| ==> Remainder(profile, path[i])
      modifies this
      ensures receipt.None? <==> r.who.Some? && r.expires > now + MAX_DELETION_EXPIRY
      ensures receipt.None? ==> View() == old(View()) && trail == old(trail)
      ensures receipt.Some? ==> (receipt.value, View()) == Cleanup(old(View()), r, now, x)
      ensures receipt.Some? ==> Passed(old(View()), |old(trail)|, r, now, x)
      ensures old(trail) <= trail
    {
      if r.who.Some? && r.expires > now + MAX_DELETION_EXPIRY { return None; }
      var verdict := CleanupGate(Disk(tomb, profile, temps, spooled), r);
      if verdict.Answer? { return Some(verdict.receipt); }
      if r.expires <= now {
        WriteTombstone(RepairFor(r));
        return Some(Reply(r, RepairNeeded, r.epoch, TooLate));
      }
      WriteTombstone(PendingFor(r));
      if !Removable(profile) {
        WriteTombstone(RepairFor(r));
        return Some(Reply(r, RepairNeeded, r.epoch, BadProfile));
      }
      var done := RemoveAll(old(View()), |old(trail)|, r, now, x, path);
      if !done {
        WriteTombstone(RepairFor(r));
        return Some(Reply(r, RepairNeeded, r.epoch, RemovalFailed));
      }
      WriteTombstone(DoneFor(r));
      return Some(Reply(r, Deprovisioned, r.epoch, Fine));
    }

    /** Remove the spools, then the directory, then the temporary siblings. */
    method RemoveAll(ghost was: Disk, ghost before: nat, r: Request, now: real, x: Trouble, path: seq<Node>) returns (done: bool)
      requires Possible(was, x) && CleanupGate(was, r).GoOn? && r.expires > now && Removable(was.profile)
      requires View() == was.(tomb := Some(PendingFor(r))) && Passed(was, before, r, now, x)
      requires forall i :: 0 <= i < |path| ==> Remainder(profile, path[i])
      modifies `profile, `temps, `spooled, `trail
      ensures (View(), done) == (Removed(was, x).0.(tomb := Some(PendingFor(r))), Removed(was, x).1)
      ensures Passed(was, before, r, now, x) && old(trail) <= trail
    {
      hide CleanupGate, Cleanup;
      if x.spools { return false; }
      spooled := false;
      trail := trail + [View()];
      for i := 0 to |path|
        invariant Passed(was, before, r, now, x) && old(trail) <= trail
        invariant tomb == Some(PendingFor(r)) && temps == was.temps && !spooled
      {
        profile := path[i];
        trail := trail + [View()];
      }
      if x.profile.Some? {
        profile := x.profile.value;
        trail := trail + [View()];
        return false;
      }
      profile := Absent;
      trail := trail + [View()];
      RemoveTemps(was, before, r, now, x);
      return x.siblings.None?;
    }

    method RemoveTemps(ghost was: Disk, ghost before: nat, r: Request, now: real, x: Trouble)
      requires Possible(was, x) && CleanupGate(was, r).GoOn? && r.expires > now && Removable(was.profile)
      requires View() == Disk(Some(PendingFor(r)), Absent, was.temps, false) && Passed(was, before, r, now, x)
      modifies `temps, `trail
      ensures temps == if x.siblings.Some? then x.siblings.value else map[]
      ensures Passed(was, before, r, now, x) && old(trail) <= trail
    {
      hide CleanupGate, Cleanup;
      var left: Temps := if x.siblings.Some? then x.siblings.value else map[];
      while temps.Keys != left.Keys
        invariant Passed(was, before, r, now, x) && old(trail) <= trail
        invariant Part(left, temps) && Part(temps, was.temps)
        decreases |temps|
      {
        assert left.Keys <= temps.Keys;
        var k :| k in temps && k !in left;
        ghost var had := temps;
        temps := temps - {k};
        assert temps.Keys == had.Keys - {k};
        trail := trail + [View()];
      }
      assert temps == left;
    }

    /** `fence_deletion`. */
    method FenceDeletion(r: Request, now: real) returns (receipt: Option<CleanupReceipt>)
      requires r.who.Some?
      modifies `tomb, `trail
      ensures receipt.None? <==> r.expires > now + MAX_DELETION_EXPIRY
      ensures receipt.None? ==> View() == old(View()) && trail == old(trail)
      ensures receipt.Some? ==> (receipt.value, View()) == Fence(old(View()), r, now)
      ensures trail == old(trail) || trail == old(trail) + [View()]
    {
      if r.expires > now + MAX_DELETION_EXPIRY { return None; }
      var verdict := FenceGate(Disk(tomb, profile, temps, spooled), r, now);
      if verdict.Answer? { return Some(verdict.receipt); }
      if r.expires <= now {
        WriteTombstone(RepairFor(r));
        return Some(Reply(r, RepairNeeded, r.epoch, TooLate));
      }
      WriteTombstone(PendingFor(r));
      return Some(Reply(r, Fenced, r.epoch, Fine));
    }

    // -------------------------------------------------------------- materialisation

    /** The files of the profile went through these states, and are now in the last of them. */
    ghost predicate Wrote(d: Disk, was: seq<Disk>, files: seq<Files>)
      reads this
    {
      && d.profile.Directory? && profile.Directory? && trail == was + Wrap(d, files)
      && View() == d.(profile := d.profile.(files := Run(Receipt(Existing, NoCode), files).Final(d.profile.files)))
    }

    /** Write one file of the profile. */
    method WriteFiles(f: Files, ghost d: Disk, ghost was: seq<Disk>, ghost files: seq<Files>)
      requires Wrote(d, was, files)
      modifies `profile, `trail
      ensures Wrote(d, was, files + [f]) && profile.files == f
    {
      WrapOne(d, files, f);
      profile := profile.(files := f);
      trail := trail + [View()];
    }

    /** `_inspect_existing`. */
    method InspectExisting(w: World, s: Seed) returns (receipt: Receipt)
      requires profile.Directory?
      modifies `profile, `trail
      ensures var run := Inspect(w, s, old(profile).files);
        receipt == run.receipt && Wrote(old(View()), old(trail), run.trail)
    {
      hide InspectSecond, FirstOk, FirstUpgraded, Written;
      ghost var d, was := View(), trail;
      var f := profile.files;
      if f.manifest.None? { return Receipt(RepairRequired, IncompleteManifest); }
      var m := f.manifest.value;
      if !m.known { return Receipt(RepairRequired, UnsupportedManifest); }
      if m.version != 1 {
        receipt := InspectSecondVersion(w, s, m, f, d, was, []);
      } else if !FirstOk(s, m, f) {
        receipt := Receipt(RepairRequired, LegacyManifestRequiresRepair);
      } else {
        var a := f.(config := Parsed(Written(s)));
        WriteFiles(a, d, was, []);
        var b := a.(manifest := Some(FirstUpgraded(s, m)));
        WriteFiles(b, d, was, [a]);
        receipt := InspectSecondVersion(w, s, FirstUpgraded(s, m), b, d, was, [a, b]);
      }
    }

    method InspectSecondVersion(w: World, s: Seed, m: Manifest, f: Files, ghost d: Disk, ghost was: seq<Disk>, ghost files: seq<Files>)
      returns (receipt: Receipt)
      requires Wrote(d, was, files) && profile.files == f && f.manifest == Some(m)
      modifies `profile, `trail
      ensures var run := InspectSecond(w, s, m, f);
        receipt == run.receipt && Wrote(d, was, files + run.trail)
    {
      hide Choose, Gate, Rewrite, Stamp, Wrote;
      var refused := Gate(w, s, m, f);
      assert files + [] == files;
      if refused.Some? { return refused.value; }
      receipt := RewriteFiles(w, s, Choose(w.souls, s, m), Stamp(s, m), f, d, was, files);
    }

    /** Try the replacements that the choice asks for, one after the other. */
    method UpgradeConfig(c: Config, choice: Choice, s: Seed) returns (d: Option<Config>)
      ensures d.Some? <==> Upgradable(c, choice, s)
      ensures d.Some? ==>
        && d.value.skills == Catalog
        && d.value.memory == (if choice.flags.memory then Some(ManagedMemory(choice.base.mode, choice.base.tools)) else c.memory)
        && d.value.compression == (if Touches(choice) then Some(Threshold) else c.compression)
        && d.value.model == (if choice.provider then Some(Desired(s)) else if choice.flags.model then Some(Desired(choice.base)) else c.model)
      ensures d == Upgraded(c, choice, s)
    {
      d := WithCatalog(c);
      if d.Some? && choice.flags.memory { d := ReplaceMemory(d.value, choice.base); }
      if d.Some? && (choice.flags.memory || choice.flags.compression || choice.flags.model) { d := ReplaceCompression(d.value); }
      if d.Some? && choice.flags.model { d := ReplaceModel(d.value, choice.base); }
      if d.Some? && choice.provider { d := ReplaceProvider(d.value, s); }
    }

    method RewriteFiles(w: World, s: Seed, choice: Choice, m: Manifest, f: Files, ghost d: Disk, ghost was: seq<Disk>, ghost files: seq<Files>)
      returns (receipt: Receipt)
      requires Wrote(d, was, files) && profile.files == f
      modifies `profile, `trail
      ensures var run := Rewrite(w, s, choice, m, f);
        receipt == run.receipt && Wrote(d, was, files + run.trail)
    {
      hide Upgraded, Refresh, Unbootstrap, Remember, Wrote, Rewrites;
      var stamped := f.(manifest := Some(m));
      WriteFiles(stamped, d, was, files);
      var config := None;
      if f.config.Parsed? { config := UpgradeConfig(f.config.config, choice, s); }
      if config.None? { return Receipt(RepairRequired, SkillsConfigRequiresRepair); }
      var configured := stamped.(config := Parsed(config.value));
      WriteFiles(configured, d, was, files + [stamped]);
      var souled := if choice.flags.soul then configured.(soul := Some(s.personality)) else configured;
      WriteFiles(souled, d, was, files + [stamped] + [configured]);
      var marked := if choice.flags.soul then souled.(manifest := Some(m.(fingerprint := s.Print()))) else souled;
      WriteFiles(marked, d, was, files + [stamped] + [configured] + [souled]);
      var remembered := if Rewrites(choice) then marked.(manifest := Some(Remember(s, m))) else marked;
      WriteFiles(remembered, d, was, files + [stamped] + [configured] + [souled] + [marked]);
      ghost var states := [stamped, configured, souled, marked, remembered];
      assert files + [stamped] + [configured] + [souled] + [marked] + [remembered] == files + states;
      var refreshed := Refresh(w, s, remembered);
      if refreshed.None? { return Receipt(RepairRequired, CredentialRefreshFailed); }
      var done := Unbootstrap(w, s, refreshed.value);
      WriteFiles(refreshed.value, d, was, files + states);
      WriteFiles(done, d, was, files + states + [refreshed.value]);
      assert files + states + [refreshed.value] + [done] == files + (states + [refreshed.value, done]);
      return Receipt(Existing, NoCode);
    }

    /** `materialize`. */
    method MaterializeProfile(w: World, s: Seed, now: real, ownFirst: bool) returns (receipt: Receipt)
      modifies `profile, `temps, `trail
      ensures var steps := Materialize(w, old(View()), s, now, ownFirst);
        && receipt == steps.receipt && trail == old(trail) + steps.trail
        && View() == (if steps.trail == [] then old(View()) else steps.trail[|steps.trail| - 1])
    {
      hide Inspect, FreshFiles, Resolved;
      if tomb.Some? { return FenceReceipt(tomb.value, now); }
      if profile.Symlink? { return Receipt(RepairRequired, SymlinkedProfile); }
      if profile.NotADirectory? { return Receipt(RepairRequired, ProfileIsNotDirectory); }
      if profile.Directory? {
        receipt := InspectExisting(w, s);
        return;
      }
      var others := temps - {s.operation} != map[];
      if s.operation in temps && (!others || ownFirst) {
        if temps[s.operation] { return Receipt(RepairRequired, SymlinkedTemporaryState); }
        temps := temps - {s.operation};
        trail := trail + [View()];
      }
      if others { return Receipt(RepairRequired, UnknownTemporaryState); }
      receipt := BuildProfile(w, s);
    }

    method BuildProfile(w: World, s: Seed) returns (receipt: Receipt)
      modifies `profile, `temps, `trail
      ensures var steps := Build(w, old(View()), s, []);
        && receipt == steps.receipt && trail == old(trail) + steps.trail
        && View() == steps.trail[|steps.trail| - 1]
    {
      hide FreshFiles, Resolved;
      var before := temps;
      temps := temps[s.operation := false];
      trail := trail + [View()];
      var env := Resolved(w, s);
      if env.None? { return Receipt(RepairRequired, MaterializationFailed); }
      temps, profile := before, Directory(FreshFiles(s, env.value), {}, true);
      trail := trail + [View()];
      return Receipt(Created, NoCode);
    }
  }
}
