/** What the finished calls on a profile leave on disk, and when they are carried out, said without the
    steps they are made of. */
module ProfileOutcomes {
  import opened Events
  import opened ProfileSeeds
  import opened LegacyUpgrades
  import opened ProfileLifecycle

  // ---------------------------------------------------------------- materialising an existing profile

  /** Every credential of the seed is there with the value it resolves to now, and all others are as before. */
  ghost predicate Rotated(w: World, s: Seed, before: map<Credential, string>, after: map<Credential, string>) {
    && (forall k | k in s.credentials :: k in after && w.resolve(s.credentials[k]) == Some(after[k]))
    && (forall k | k !in s.credentials :: (k in after <==> k in before) && (k in after ==> after[k] == before[k]))
  }

  /** After EXISTING rotated credentials have reached the profile, unless a model binding owns the file. */
  lemma ExistingHasCredentials(w: World, s: Seed, f: Files)
    requires Inspect(w, s, f).receipt.status == Existing
    ensures var g := Inspect(w, s, f).Final(f);
      && f.env.Some? && g.env.Some? && g.sidecar == f.sidecar
      && if f.sidecar then g.env == f.env else Rotated(w, s, f.env.value, g.env.value)
  {
    InspectFromStart(w, s, f);
    var start := Start(s, f);
    var m := start.manifest.value;
    var c := Choose(w.souls, s, m);
    ExistingIsRewrite(w, s, start, m, c);
    GateOfExisting(w, s, m, start);
    var r := Rewrite(w, s, c, Stamp(s, m), start);
    RewriteEnds(w, s, c, Stamp(s, m), start);
    RefreshRotates(w, s, r.trail[4]);
    UnbootstrapKeeps(w, s, r.trail[5]);
    hide Choose, Upgraded, Refresh, Unbootstrap, Rewrite, Inspect, Stamp, InspectSecond, Rotated;
  }

  lemma GateOfExisting(w: World, s: Seed, m: Manifest, f: Files)
    requires InspectSecond(w, s, m, f).receipt.status == Existing
    ensures Gate(w, s, m, f).None? && Complete(f) && f.layout && f.secret
  {
    hide Choose, Rewrite, Stamp;
  }

  lemma RefreshRotates(w: World, s: Seed, f: Files)
    requires Refresh(w, s, f).Some? && f.env.Some?
    ensures var g := Refresh(w, s, f).value;
      && g == f.(env := g.env) && g.env.Some? && if f.sidecar then g.env == f.env else Rotated(w, s, f.env.value, g.env.value)
  {
  }

  /** After EXISTING the soul is the seed's wherever the manifest recorded another one, or the file was
      still the one the first runtime wrote; a soul edited since is kept.  Layout, binding and file
      modes are untouched. */
  lemma ExistingHasSoul(w: World, s: Seed, f: Files)
    requires w.souls.Valid() && Inspect(w, s, f).receipt.status == Existing
    ensures f.manifest.Some?
    ensures var g := Inspect(w, s, f).Final(f);
      && g.soul == (if f.manifest.value.fingerprint.personality != s.personality || f.soul == Some(w.souls.bootstrap(s))
                    then Some(s.personality) else f.soul)
      && g.layout == f.layout && g.sidecar == f.sidecar && g.secret == f.secret
  {
    InspectFromStart(w, s, f);
    var start := Start(s, f);
    var m := start.manifest.value;
    var c := Choose(w.souls, s, m);
    ExistingIsRewrite(w, s, start, m, c);
    GateOfExisting(w, s, m, start);
    GatePassed(w, s, m, start);
    SoulIsRecorded(w.souls, s, m);
    StartSoul(s, f);
    var r := Rewrite(w, s, c, Stamp(s, m), start);
    RewriteEnds(w, s, c, Stamp(s, m), start);
    RefreshKeeps(w, s, r.trail[4]);
    hide Choose, Upgraded, Refresh, Rewrite, Inspect, Stamp, InspectSecond, Start, Remember, Gate, Seed.Print;
  }

  lemma StartSoul(s: Seed, f: Files)
    requires f.manifest.Some?
    ensures var g := Start(s, f);
      g.soul == f.soul && g.layout == f.layout && g.sidecar == f.sidecar && g.secret == f.secret && g.env == f.env
    ensures Start(s, f).manifest.Some?
  {
  }

  /** The soul is rewritten exactly when the recorded one is another. */
  lemma SoulIsRecorded(souls: Souls, s: Seed, m: Manifest)
    requires souls.Valid() && (m.fingerprint == s.Print() || Choose(souls, s, m).Any())
    ensures Choose(souls, s, m).flags.soul <==> m.fingerprint.personality != s.personality
  {
  }

  /** The seed's own profile, of a later epoch. */
  predicate Newer(s: Seed, m: Manifest) {
    && m.version == 2 && m.profileId == s.origin.profileId && m.key == s.origin.key && m.fingerprint == s.Print()
    && m.epoch.Some? && m.epoch.value > s.epoch
  }

  /** No materialisation changes whose profile it is or its epoch, nor touches one of another identity,
      key or epoch. */
  lemma MaterializeIsFenced(w: World, s: Seed, f: Files)
    requires f.manifest.Some?
    ensures var m, r := f.manifest.value, Inspect(w, s, f);
      && (forall g | g in r.trail && g.manifest.Some? ::
            g.manifest.value.profileId == m.profileId && g.manifest.value.key == m.key && g.manifest.value.epoch == m.epoch
            && g.manifest.value.known == m.known && g.manifest.value.complete == m.complete && g.manifest.value.chatVersion == m.chatVersion)
      && (forall g | g in r.trail :: g.manifest.Some?)
      && (m.profileId != s.origin.profileId || m.key != s.origin.key || m.epoch != Some(s.epoch) ==> r.trail == [] && r.receipt.status != Existing)
      && (m.known && Newer(s, m) ==> r.receipt == Receipt(FencedOut, StaleLifecycleEpoch))
  {
    var m := f.manifest.value;
    hide InspectSecond, FirstUpgraded, Written;
    if m.version != 1 {
      SecondIsFenced(w, s, m, f);
    } else {
      FirstKeepsIdentity(s, m);
      SecondIsFenced(w, s, FirstUpgraded(s, m), f.(config := Parsed(Written(s)), manifest := Some(FirstUpgraded(s, m))));
    }
  }

  lemma FirstKeepsIdentity(s: Seed, m: Manifest)
    ensures FirstUpgraded(s, m) == m.(version := FirstUpgraded(s, m).version, fingerprint := FirstUpgraded(s, m).fingerprint,
      operation := FirstUpgraded(s, m).operation, generation := FirstUpgraded(s, m).generation, receipt := FirstUpgraded(s, m).receipt, memory := FirstUpgraded(s, m).memory)
  {
  }

  predicate SameOwner(m: Manifest, n: Manifest) {
    && n.profileId == m.profileId && n.key == m.key && n.epoch == m.epoch
    && n.known == m.known && n.complete == m.complete && n.chatVersion == m.chatVersion
  }

  lemma SecondIsFenced(w: World, s: Seed, m: Manifest, f: Files)
    ensures var r := InspectSecond(w, s, m, f);
      && (forall g | g in r.trail :: g.manifest.Some? && SameOwner(m, g.manifest.value))
      && (m.profileId != s.origin.profileId || m.key != s.origin.key || m.epoch != Some(s.epoch) ==> r.trail == [] && r.receipt.status != Existing)
      && (Newer(s, m) ==> r.receipt == Receipt(FencedOut, StaleLifecycleEpoch))
  {
    hide Choose, Configure, Refresh, Unbootstrap, Complete;
    if Gate(w, s, m, f).None? { RewriteKeepsOwner(w, s, Choose(w.souls, s, m), Stamp(s, m), f); }
  }

  lemma RewriteKeepsOwner(w: World, s: Seed, c: Choice, m: Manifest, f: Files)
    ensures forall g | g in Rewrite(w, s, c, m, f).trail :: g.manifest.Some? && SameOwner(m, g.manifest.value)
  {
    hide *;
    if Rewrite(w, s, c, m, f).receipt.status == Existing {
      RewrittenKeepsOwner(w, s, c, m, f);
    } else {
      UnfinishedKeepsOwner(w, s, c, m, f);
    }
  }

  lemma RewrittenKeepsOwner(w: World, s: Seed, c: Choice, m: Manifest, f: Files)
    requires Rewrite(w, s, c, m, f).receipt.status == Existing
    ensures forall g | g in Rewrite(w, s, c, m, f).trail :: g.manifest.Some? && SameOwner(m, g.manifest.value)
  {
    hide *;
    OwnerOf(s, m);
    RewriteEnds(w, s, c, m, f);
    var t := Rewrite(w, s, c, m, f).trail;
    RefreshKeeps(w, s, t[4]);
    UnbootstrapKeeps(w, s, t[5]);
  }

  lemma UnfinishedKeepsOwner(w: World, s: Seed, c: Choice, m: Manifest, f: Files)
    requires Rewrite(w, s, c, m, f).receipt.status != Existing
    ensures forall g | g in Rewrite(w, s, c, m, f).trail :: g.manifest.Some? && SameOwner(m, g.manifest.value)
  {
    hide Configure, Rewrites, Seed.Print, Refresh, Unbootstrap, SameOwner, Remember;
    OwnerOf(s, m);
  }

  lemma OwnerOf(s: Seed, m: Manifest)
    ensures SameOwner(m, m) && SameOwner(m, m.(fingerprint := s.Print())) && SameOwner(m, Remember(s, m))
  {
  }

  // ---------------------------------------------------------------- older profiles are upgraded

  /** The profile is whole, the seed's own and of its epoch, whatever its fingerprint. */
  predicate Whole(s: Seed, m: Manifest, f: Files) {
    && f.manifest == Some(m) && m.known && m.version == 2 && m.profileId == s.origin.profileId && m.key == s.origin.key
    && m.epoch == Some(s.epoch) && m.complete && m.operation.Some? && m.generation.Some? && m.receipt.Some?
    && f.config.Parsed? && f.env.Some? && f.soul.Some? && f.layout && f.secret
  }

  /** The configuration that an older runtime wrote for a seed: perhaps without the catalog, and without
      the compression threshold if it had none. */
  predicate OlderConfig(s: Seed, c: Config, compressed: bool) {
    && c.model == Written(s).model && c.memory == Some(ManagedMemory(s.mode, s.tools))
    && c.compression == (if compressed then Some(Threshold) else None) && c.block && (c.skills == NoSkills || c.skills == Catalog)
  }

  /** The manifest and the configuration are those of this seed, from before or after the threshold. */
  predicate WrittenFor(s: Seed, m: Manifest, c: Config) {
    (m.fingerprint == s.Print() && OlderConfig(s, c, true)) || (m.fingerprint == s.UncompressedPrint() && OlderConfig(s, c, false))
  }

  /** How an older runtime left a profile of this seed: from before the compression threshold; on the old
      default model; with the old memory default; with the old soul; or on the old provider route. */
  datatype Older = NoThreshold | OldModel | OldMemory | OldSoul(soul: string) | OldProvider(seed: Seed)

  predicate LeftBy(w: World, s: Seed, m: Manifest, c: Config, older: Older) {
    match older
    case NoThreshold => m.fingerprint == s.UncompressedPrint() && WrittenFor(s, m, c)
    case OldModel => WrittenFor(s.OnLegacyModel(), m, c)
    case OldMemory =>
      && s.mode == NarrowTools && s.tools == DefaultTools && m.memory == ManifestMemory(true, Some(ContextOnly), Some(NoTools), true)
      && WrittenFor(s.Remembering(), m, c)
    case OldSoul(p) => w.souls.legacy(s.personality) == Some(p) && m.fingerprint == s.(personality := p).Print() && OlderConfig(s, c, true)
    case OldProvider(b) =>
      s.LegacyProviderSeed() == Some(b) && s.route.baseUrl.Some? && m.fingerprint == b.Print() && OlderConfig(b, c, true)
  }

  /** Every such profile is upgraded and then EXISTING, as long as the seed's credentials resolve. */
  lemma OlderIsUpgraded(w: World, s: Seed, m: Manifest, f: Files, older: Older)
    requires w.souls.Valid() && Whole(s, m, f) && LeftBy(w, s, m, f.config.config, older)
    requires s != s.OnLegacyModel() && (forall k | k in s.credentials :: w.resolve(s.credentials[k]).Some?)
    ensures Inspect(w, s, f).receipt == Receipt(Existing, NoCode)
    ensures var g := Inspect(w, s, f).Final(f);
      g.config.Parsed? && Agrees(s, g.config.config) && g.config.config.skills == Catalog && IsCurrent(s, g)
  {
    OlderIsChosen(w, s, m, f.config.config, older);
    OlderIsAccepted(w, s, m, f);
    hide *;
    ExistingAgrees(w, s, f);
    ExistingIsCurrent(w, s, f);
    SecondStartsHere(s, m, f);
    CurrentHasCatalog(s, Inspect(w, s, f).Final(f));
  }

  lemma SecondStartsHere(s: Seed, m: Manifest, f: Files)
    requires Whole(s, m, f)
    ensures f.manifest == Some(m) && Start(s, f) == f
  {
  }

  lemma CurrentHasCatalog(s: Seed, g: Files)
    requires IsCurrent(s, g)
    ensures g.config.Parsed? && g.config.config.skills == Catalog
  {
  }

  lemma OlderIsAccepted(w: World, s: Seed, m: Manifest, f: Files)
    requires Whole(s, m, f) && Choose(w.souls, s, m).Any() && Upgradable(f.config.config, Choose(w.souls, s, m), s)
    requires forall k | k in s.credentials :: w.resolve(s.credentials[k]).Some?
    ensures Inspect(w, s, f).receipt == Receipt(Existing, NoCode)
  {
    hide Choose, Upgradable;
    assert Resolved(w, s).Some?;
  }

  lemma OlderIsChosen(w: World, s: Seed, m: Manifest, c: Config, older: Older)
    requires w.souls.Valid() && LeftBy(w, s, m, c, older) && s != s.OnLegacyModel()
    ensures Choose(w.souls, s, m).Any() && Upgradable(c, Choose(w.souls, s, m), s) && WillAgree(Choose(w.souls, s, m), s, c)
  {
  }

  /** A profile of manifest version 1 is upgraded too, if it is whole and the seed keeps to what version 1
      could do; any other one is left for repair, untouched. */
  lemma FirstVersionIsUpgraded(w: World, s: Seed, f: Files)
    requires f.manifest.Some? && f.manifest.value.known && f.manifest.value.version == 1
    ensures var m := f.manifest.value; var r := Inspect(w, s, f);
      if m.profileId == s.origin.profileId && m.key == s.origin.key && m.fingerprint == s.FirstPrint() && m.epoch == Some(s.epoch) && m.complete
         && s.mode == ContextOnly && s.tools == NoTools && f.config != NoConfig && f.env.Some? && f.soul.Some? && f.layout
      then |r.trail| >= 2 && r.trail[1].config == Parsed(Written(s)) && r.trail[1].manifest == Some(FirstUpgraded(s, m))
           && (s != s.OnLegacyModel() && w.souls.Valid() && f.secret && (forall k | k in s.credentials :: w.resolve(s.credentials[k]).Some?) ==>
                 r.receipt == Receipt(Existing, NoCode))
      else r == Run(Receipt(RepairRequired, LegacyManifestRequiresRepair), [])
  {
    var m := f.manifest.value;
    if FirstOk(s, m, f) {
      var b := f.(config := Parsed(Written(s)), manifest := Some(FirstUpgraded(s, m)));
      if s != s.OnLegacyModel() && w.souls.Valid() && f.secret && (forall k | k in s.credentials :: w.resolve(s.credentials[k]).Some?) {
        UpToDate(w.souls, s, FirstUpgraded(s, m));
        FreshIsAccepted(w, s, FirstUpgraded(s, m), b);
      }
    }
    hide InspectSecond, Written, FirstUpgraded;
  }

  lemma FreshIsAccepted(w: World, s: Seed, m: Manifest, f: Files)
    requires Whole(s, m, f) && f.config == Parsed(Written(s)) && m.fingerprint == s.Print()
    requires Choose(w.souls, s, m) == Choice(Flags(false, false, false, false), false, s)
    requires forall k | k in s.credentials :: w.resolve(s.credentials[k]).Some?
    ensures InspectSecond(w, s, m, f).receipt == Receipt(Existing, NoCode)
  {
    hide Choose;
    assert Resolved(w, s).Some?;
  }

  // ---------------------------------------------------------------- materialising a new profile

  ghost predicate AllResolve(w: World, s: Seed) { forall k | k in s.credentials :: w.resolve(s.credentials[k]).Some? }

  /** A profile is created exactly when there is neither a tombstone nor anything in its place, no sibling
      but a leftover of this very operation, and every credential resolves. */
  lemma CreatedExactly(w: World, d: Disk, s: Seed, now: real, ownFirst: bool)
    ensures Materialize(w, d, s, now, ownFirst).receipt.status == Created <==>
      d.tomb.None? && d.profile.Absent? && (forall k | k in d.temps :: k == s.operation && !d.temps[k]) && AllResolve(w, s)
  {
    hide FreshFiles, Inspect;
    if d.profile.Directory? { InspectNeverCreates(w, s, d.profile.files); }
    if d.tomb.None? && d.profile.Absent? {
      OnlyOwn(d.temps, s.operation);
    }
  }

  lemma OnlyOwn(temps: Temps, operation: string)
    ensures temps - {operation} == map[] <==> forall k | k in temps :: k == operation
  {
    if temps - {operation} != map[] {
      var k :| k in temps - {operation};
    } else {
      forall k | k in temps ensures k == operation { assert k !in temps - {operation}; }
    }
  }

  /** What has been created is current, agrees with the seed in every section, and has the seed's soul and
      exactly its credentials; the siblings of this operation are gone, and nothing else has changed. */
  lemma CreatedHasEverything(w: World, d: Disk, s: Seed, now: real, ownFirst: bool)
    requires Materialize(w, d, s, now, ownFirst).receipt.status == Created
    ensures var t := Materialize(w, d, s, now, ownFirst).trail;
      t != [] && t[|t| - 1].profile.Directory?
      && t[|t| - 1] == Disk(None, t[|t| - 1].profile, d.temps - {s.operation}, d.spooled)
      && Furnished(w, s, t[|t| - 1].profile.files)
  {
    CreatedExactly(w, d, s, now, ownFirst);
    CreatedEnds(w, d, s, now, ownFirst);
    FreshIsFurnished(w, s, Resolved(w, s).value);
    hide FreshFiles, Inspect, Resolved, Furnished;
    assert d.temps - {s.operation} == map[];
    if d.temps == map[] { assert d.temps - {s.operation} == d.temps; }
  }

  ghost predicate Furnished(w: World, s: Seed, g: Files) {
    && IsCurrent(s, g) && Agrees(s, g.config.config) && g.config.config.model == Written(s).model && g.soul == Some(s.personality)
    && g.env.Some? && g.env.value.Keys == s.credentials.Keys && !g.sidecar
    && (forall k | k in s.credentials :: w.resolve(s.credentials[k]) == Some(g.env.value[k]))
    && g.manifest.value.memory == ManifestMemory(true, Some(s.mode), Some(s.tools), true) && g.manifest.value.receipt == Some(ReceiptOf(s))
    && g.manifest.value.chatVersion == s.origin.chatVersion
  }

  lemma FreshIsFurnished(w: World, s: Seed, env: map<Credential, string>)
    requires Resolved(w, s) == Some(env)
    ensures Furnished(w, s, FreshFiles(s, env))
  {
  }

  // ---------------------------------------------------------------- fences and cleanups

  /** A fence that answers FENCED without a complaint has left a pending tombstone of exactly that request,
      with time to go, and nothing else has changed; until it runs out every materialisation is turned
      away, and writes nothing. */
  lemma FenceHolds(d: Disk, r: Request, now: real, w: World, s: Seed, later: real, ownFirst: bool)
    requires r.who.Some? && Fence(d, r, now).0.status == Fenced && Fence(d, r, now).0.code == Fine
    ensures var e := Fence(d, r, now).1;
      && e == d.(tomb := e.tomb) && e.tomb.Some? && e.tomb.value.Pending? && e.tomb.value.sound && e.tomb.value.expires > now
      && e.tomb.value.operation == r.operation && e.tomb.value.epoch == r.epoch && e.tomb.value.who == r.who
      && (e != d ==> e.tomb.value.expires == r.expires)
      && (later < e.tomb.value.expires ==> Materialize(w, e, s, later, ownFirst) == Steps(Receipt(FencedOut, ProfileDeprovisioned), []))
  {
    hide Inspect;
  }

  /** The request is above what the tombstone, if there is one that counts epochs, and the manifest record. */
  predicate Outranks(d: Disk, r: Request) {
    && (d.tomb.None? || (d.tomb.value.Repair? && r.epoch > d.tomb.value.epoch) || (d.tomb.value.Gone? && r.epoch > d.tomb.value.epoch))
    && (d.profile.Directory? && d.profile.files.manifest.Some? && d.profile.files.manifest.value.epoch.Some? ==>
          d.profile.files.manifest.value.epoch.value <= r.epoch)
  }

  /** A fence above everything on record takes hold exactly when it has not run out. */
  lemma FenceTakesHold(d: Disk, r: Request, now: real)
    requires r.who.Some? && Outranks(d, r)
    ensures Fence(d, r, now) ==
      if r.expires > now then (CleanupReceipt(Fenced, r.operation, r.epoch, r.who, Fine), d.(tomb := Some(Pending(r.operation, r.epoch, r.who, r.expires, true))))
      else (CleanupReceipt(RepairNeeded, r.operation, r.epoch, r.who, TooLate), d.(tomb := Some(Repair(r.operation, r.epoch, r.who))))
  {
  }

  /** A cleanup above everything on record, met with no trouble, is carried out exactly when it has not run
      out and the path can be removed: profile, siblings and spools are gone, and the marker says so, a
      deletion's without content. */
  lemma CleanupCompletes(d: Disk, r: Request, now: real)
    requires Outranks(d, r)
    ensures var (receipt, e) := Cleanup(d, r, now, NO_TROUBLE);
      && (receipt.status == Deprovisioned <==> r.expires > now && (d.profile.Absent? || (d.profile.Directory? && d.profile.tame)))
      && (receipt.status == Deprovisioned ==>
            e == Disk(Some(if r.who.Some? then Deleted else Gone(r.operation, r.epoch, None)), Absent, map[], false))
      && (receipt.status != Deprovisioned ==>
            receipt.status == RepairNeeded && e == d.(tomb := Some(Repair(r.operation, r.epoch, r.who))))
  {
  }

  /** A removal that fails is reported, keeps a repair tombstone, and never claims that anything is gone
      that is not. */
  lemma TroubleIsReported(d: Disk, r: Request, now: real, x: Trouble)
    requires Outranks(d, r) && r.expires > now && (d.profile.Absent? || (d.profile.Directory? && d.profile.tame))
    requires x.spools || x.profile.Some? || x.siblings.Some?
    ensures var (receipt, e) := Cleanup(d, r, now, x);
      && receipt == CleanupReceipt(RepairNeeded, r.operation, r.epoch, r.who, RemovalFailed)
      && e.tomb == Some(Repair(r.operation, r.epoch, r.who))
      && (x.spools ==> e.profile == d.profile && e.temps == d.temps && e.spooled == d.spooled)
      && (!x.spools && x.profile.Some? ==> e.profile == x.profile.value && e.temps == d.temps && !e.spooled)
      && (!x.spools && x.profile.None? ==> e.profile.Absent? && Some(e.temps) == x.siblings && !e.spooled)
  {
  }
}
