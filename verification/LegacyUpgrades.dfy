/** How an existing profile is inspected and, when an older runtime made it, upgraded in place. */
module LegacyUpgrades {
  import opened Events
  import opened ProfileSeeds

  // ---------------------------------------------------------------- the configuration file

  /** The base URL of the model section: left out, written as null, or given. */
  datatype UrlField = NoField | NullField | Given(url: Url)
  datatype ModelSection = Section(provider: Provider, model: ModelName, baseUrl: UrlField) | CustomModel(text: string)
  datatype MemorySection = ManagedMemory(mode: Mode, tools: Tools) | CustomMemory(text: string)
  datatype CompressionSection = Threshold | CustomCompression(text: string)
  datatype Skills = NoSkills | Catalog | CustomSkills

  /** A parsed configuration; `block` says that it is written in block style. */
  datatype Config = Config(
    model: Option<ModelSection>, memory: Option<MemorySection>, compression: Option<CompressionSection>,
    skills: Skills, block: bool)

  datatype ConfigFile = NoConfig | Garbled | Parsed(config: Config)

  /** What a fresh profile gets: a seed without a base URL leaves the field out. */
  function Written(s: Seed): Config {
    Config(
      Some(Section(s.route.provider, s.route.model, if s.route.baseUrl.Some? then Given(s.route.baseUrl.value) else NoField)),
      Some(ManagedMemory(s.mode, s.tools)), Some(Threshold), Catalog, true)
  }

  /** The section an upgrade writes and compares with: a seed without a base URL asks for null. */
  function Desired(s: Seed): ModelSection {
    Section(s.route.provider, s.route.model, if s.route.baseUrl.Some? then Given(s.route.baseUrl.value) else NullField)
  }

  function WithCatalog(c: Config): Option<Config> {
    match c.skills
    case Catalog => Some(c)
    case CustomSkills => None
    case NoSkills => if c.block then Some(c.(skills := Catalog)) else None
  }

  function ReplaceMemory(c: Config, s: Seed): Option<Config> {
    if WithCatalog(c).None? then None
    else if c.memory == Some(ManagedMemory(s.mode, s.tools)) then WithCatalog(c)
    else if c.memory != Some(ManagedMemory(ContextOnly, NoTools)) then None
    else Some(c.(memory := Some(ManagedMemory(s.mode, s.tools)), skills := Catalog, block := true))
  }

  function ReplaceCompression(c: Config): Option<Config> {
    if WithCatalog(c).None? then None
    else if c.compression == Some(Threshold) then WithCatalog(c)
    else if c.compression.Some? then None
    else Some(c.(compression := Some(Threshold), skills := Catalog, block := true))
  }

  function ReplaceModel(c: Config, s: Seed): Option<Config> {
    if WithCatalog(c).None? then None
    else if c.model == Some(Desired(s)) then WithCatalog(c)
    else if c.model != Some(Section(s.route.provider, LegacyDefault, Given(LegacyUrl))) then None
    else Some(c.(model := Some(Desired(s)), skills := Catalog, block := true))
  }

  function ReplaceProvider(c: Config, s: Seed): Option<Config> {
    if WithCatalog(c).None? then None
    else if c.model == Some(Desired(s)) then WithCatalog(c)
    else if c.model != Some(Desired(s).(provider := OpenAiApi)) then None
    else Some(c.(model := Some(Desired(s)), skills := Catalog, block := true))
  }

  /** Memory, compression and model section are to be upgraded, each only if asked for. */
  predicate Touches(choice: Choice) { choice.flags.memory || choice.flags.compression || choice.flags.model }

  /** The model section that the provider upgrade finds. */
  function ModelBefore(c: Config, choice: Choice): Option<ModelSection> {
    if choice.flags.model then Some(Desired(choice.base)) else c.model
  }

  /** An upgrade applies when the catalog is there or can be added, and every section that is asked for
      is either as wanted already or exactly what an older runtime wrote. */
  predicate Upgradable(c: Config, choice: Choice, s: Seed) {
    && (c.skills == Catalog || (c.skills == NoSkills && c.block))
    && (choice.flags.memory ==>
          c.memory == Some(ManagedMemory(choice.base.mode, choice.base.tools)) || c.memory == Some(ManagedMemory(ContextOnly, NoTools)))
    && (Touches(choice) ==> c.compression == Some(Threshold) || c.compression == None)
    && (choice.flags.model ==>
          c.model == Some(Desired(choice.base)) || c.model == Some(Section(choice.base.route.provider, LegacyDefault, Given(LegacyUrl))))
    && (choice.provider ==>
          ModelBefore(c, choice) == Some(Desired(s)) || ModelBefore(c, choice) == Some(Desired(s).(provider := OpenAiApi)))
  }

  /** ... and then leaves the catalog, exactly the sections asked for, and every other one alone; a file
      that had a section replaced is in block style. */
  function Upgraded(c: Config, choice: Choice, s: Seed): Option<Config> {
    if !Upgradable(c, choice, s) then None else
      var memory := if choice.flags.memory then Some(ManagedMemory(choice.base.mode, choice.base.tools)) else c.memory;
      var compression := if Touches(choice) then Some(Threshold) else c.compression;
      var model := if choice.provider then Some(Desired(s)) else ModelBefore(c, choice);
      var replaced := memory != c.memory || compression != c.compression || ModelBefore(c, choice) != c.model || model != ModelBefore(c, choice);
      Some(Config(model, memory, compression, Catalog, c.block || replaced))
  }

  /** What an upgrade leaves behind: the catalog, and exactly the sections that it was asked for. */
  lemma UpgradeDoesItsWork(c: Config, choice: Choice, s: Seed)
    requires Upgraded(c, choice, s).Some?
    ensures var d := Upgraded(c, choice, s).value; var flags := choice.flags;
      && d.skills == Catalog
      && d.memory == (if flags.memory then Some(ManagedMemory(choice.base.mode, choice.base.tools)) else c.memory)
      && d.compression == (if flags.memory || flags.compression || flags.model then Some(Threshold) else c.compression)
      && d.model == (if choice.provider then Some(Desired(s)) else if flags.model then Some(Desired(choice.base)) else c.model)
  {
  }

  /** Upgrading an upgraded configuration changes nothing - except after a combined model and provider
      upgrade, which refuses the configuration it has produced itself. */
  lemma UpgradeTwice(c: Config, choice: Choice, s: Seed)
    requires Upgraded(c, choice, s).Some?
    requires choice.provider ==> s.route.provider == OpenRouter && choice.base.route == s.route.(provider := OpenAiApi)
    ensures var d := Upgraded(c, choice, s).value;
      Upgraded(d, choice, s) == if choice.flags.model && choice.provider then None else Some(d)
  {
    UpgradeDoesItsWork(c, choice, s);
  }

  /** The provider upgrade accepts the configuration this runtime wrote before it exactly when the seed
      has a base URL: without one, the comparison asks for a null that was never written. */
  lemma ProviderUpgradeNeedsBaseUrl(s: Seed)
    requires s.LegacyProviderSeed().Some?
    ensures ReplaceProvider(Written(s.LegacyProviderSeed().value), s).Some? <==> s.route.baseUrl.Some?
  {
  }

  // ---------------------------------------------------------------- the files of a profile

  datatype Files = Files(
    manifest: Option<Manifest>, config: ConfigFile, env: Option<map<Credential, string>>, soul: Option<string>,
    layout: bool, sidecar: bool, secret: bool)

  datatype Status = Created | Existing | RepairRequired | Conflict | FencedOut

  datatype Code =
    | NoCode | IncompleteManifest | UnsupportedManifest | LegacyManifestRequiresRepair | IdentityCollision
    | InstructionVersionConflict | SeedFingerprintConflict | StaleLifecycleEpoch | LifecycleEpochMismatch
    | IncompleteProfile | IncompleteLayout | SecretFilePermissions | InvalidManifestMetadata
    | SkillsConfigRequiresRepair | CredentialRefreshFailed
    | SymlinkedProfile | ProfileIsNotDirectory | CleanupExpired | ProfileDeprovisioned | InvalidCleanupTombstone
    | UnknownTemporaryState | SymlinkedTemporaryState | MaterializationFailed

  datatype Receipt = Receipt(status: Status, code: Code)

  /** What lies outside the profile: soul templates and the credential resolver. */
  datatype World = World(souls: Souls, resolve: string -> Option<string>)

  predicate Complete(f: Files) { f.config != NoConfig && f.env.Some? && f.soul.Some? }

  /** A manifest of version 1 that may be upgraded. */
  predicate FirstOk(s: Seed, m: Manifest, f: Files) {
    && m.profileId == s.origin.profileId && m.key == s.origin.key && m.fingerprint == s.FirstPrint()
    && s.mode == ContextOnly && s.tools == NoTools && m.epoch == Some(s.epoch) && m.complete && Complete(f) && f.layout
  }

  function FirstUpgraded(s: Seed, m: Manifest): (u: Manifest)
    ensures u.known == m.known
  {
    m.(version := 2, fingerprint := s.Print(), operation := Some(s.operation), generation := Some(s.generation),
       receipt := Some(ReceiptOf(s)), memory := ManifestMemory(true, Some(s.mode), Some(NoTools), true))
  }

  /** Why a profile of version 2 is turned away before anything is written. */
  function Gate(w: World, s: Seed, m: Manifest, f: Files): Option<Receipt> {
    if m.version != 2 then Some(Receipt(RepairRequired, UnsupportedManifest))
    else if m.profileId != s.origin.profileId || m.key != s.origin.key then Some(Receipt(Conflict, IdentityCollision))
    else if m.fingerprint != s.Print() && !Choose(w.souls, s, m).Any() then
      Some(Receipt(Conflict, if m.chatVersion != s.origin.chatVersion then InstructionVersionConflict else SeedFingerprintConflict))
    else if m.epoch != Some(s.epoch) then
      if m.epoch.Some? && m.epoch.value > s.epoch then Some(Receipt(FencedOut, StaleLifecycleEpoch))
      else Some(Receipt(RepairRequired, LifecycleEpochMismatch))
    else if !m.complete || !Complete(f) then Some(Receipt(RepairRequired, IncompleteProfile))
    else if !f.layout then Some(Receipt(RepairRequired, IncompleteLayout))
    else if !f.secret then Some(Receipt(RepairRequired, SecretFilePermissions))
    else if m.operation.None? || m.generation.None? || m.receipt.None? then Some(Receipt(RepairRequired, InvalidManifestMetadata))
    else None
  }

  /** The manifest under the present operation and generation. */
  function Stamp(s: Seed, m: Manifest): Manifest {
    if m.operation == Some(s.operation) && m.generation == Some(s.generation) then m
    else m.(operation := Some(s.operation), generation := Some(s.generation), receipt := Some(ReceiptOf(s)))
  }

  function Remember(s: Seed, m: Manifest): Manifest {
    m.(fingerprint := s.Print(), memory := ManifestMemory(true, Some(s.mode), Some(s.tools), m.memory.stored))
  }

  function Configure(choice: Choice, s: Seed, c: ConfigFile): Option<ConfigFile> {
    match c
    case Parsed(config) => (match Upgraded(config, choice, s) case None => None case Some(d) => Some(Parsed(d)))
    case _ => None
  }

  predicate Rewrites(choice: Choice) { choice.flags.memory || choice.flags.compression || choice.flags.model || choice.provider }

  function Resolved(w: World, s: Seed): Option<map<Credential, string>> {
    if forall k | k in s.credentials :: w.resolve(s.credentials[k]).Some?
    then Some(map k | k in s.credentials :: w.resolve(s.credentials[k]).value) else None
  }

  function Refresh(w: World, s: Seed, f: Files): Option<Files> {
    if f.sidecar then Some(f)
    else match Resolved(w, s)
      case None => None
      case Some(wanted) => Some(f.(env := if f.env.Some? then Some(f.env.value + wanted) else Some(wanted)))
  }

  function Unbootstrap(w: World, s: Seed, f: Files): Files {
    if f.soul == Some(w.souls.bootstrap(s)) then f.(soul := Some(s.personality)) else f
  }

  /** A receipt and the states the files went through, one per write that may happen. */
  datatype Run = Run(receipt: Receipt, trail: seq<Files>)
  {
    function Final(f: Files): Files { if trail == [] then f else trail[|trail| - 1] }
  }

  /** `_inspect_existing`, from the manifest on. */
  function Inspect(w: World, s: Seed, f: Files): Run {
    if f.manifest.None? then Run(Receipt(RepairRequired, IncompleteManifest), [])
    else var m := f.manifest.value;
      if !m.known then Run(Receipt(RepairRequired, UnsupportedManifest), [])
      else if m.version != 1 then InspectSecond(w, s, m, f)
      else if !FirstOk(s, m, f) then Run(Receipt(RepairRequired, LegacyManifestRequiresRepair), [])
      else
        var a := f.(config := Parsed(Written(s)));
        var b := a.(manifest := Some(FirstUpgraded(s, m)));
        var rest := InspectSecond(w, s, FirstUpgraded(s, m), b);
        Run(rest.receipt, [a, b] + rest.trail)
  }

  function InspectSecond(w: World, s: Seed, m: Manifest, f: Files): Run {
    match Gate(w, s, m, f)
    case Some(receipt) => Run(receipt, [])
    case None => Rewrite(w, s, Choose(w.souls, s, m), Stamp(s, m), f)
  }

  /** The writes, in order: manifest stamp, configuration, soul, soul fingerprint, memory record,
      credentials, leftover bootstrap soul. */
  function Rewrite(w: World, s: Seed, choice: Choice, m: Manifest, f: Files): Run {
    var stamped := f.(manifest := Some(m));
    match Configure(choice, s, f.config)
    case None => Run(Receipt(RepairRequired, SkillsConfigRequiresRepair), [stamped])
    case Some(config) =>
      var configured := stamped.(config := config);
      var souled := if choice.flags.soul then configured.(soul := Some(s.personality)) else configured;
      var marked := if choice.flags.soul then souled.(manifest := Some(m.(fingerprint := s.Print()))) else souled;
      var remembered := if Rewrites(choice) then marked.(manifest := Some(Remember(s, m))) else marked;
      var states := [stamped, configured, souled, marked, remembered];
      match Refresh(w, s, remembered)
      case None => Run(Receipt(RepairRequired, CredentialRefreshFailed), states)
      case Some(refreshed) => Run(Receipt(Existing, NoCode), states + [refreshed, Unbootstrap(w, s, refreshed)])
  }

  // ---------------------------------------------------------------- what EXISTING means

  predicate IsCurrent(s: Seed, g: Files) {
    g.manifest.Some? &&
    var m := g.manifest.value;
    && m.known && m.version == 2 && m.complete && m.profileId == s.origin.profileId && m.key == s.origin.key
    && m.fingerprint == s.Print() && m.epoch == Some(s.epoch)
    && m.operation == Some(s.operation) && m.generation == Some(s.generation) && m.receipt.Some?
    && Complete(g) && g.layout && g.secret && g.config.Parsed? && g.config.config.skills == Catalog
  }

  lemma RewriteIsCurrent(w: World, s: Seed, m: Manifest, f: Files)
    requires f.manifest == Some(m) && m.known && InspectSecond(w, s, m, f).receipt.status == Existing
    ensures IsCurrent(s, InspectSecond(w, s, m, f).Final(f))
    ensures w.souls.Valid() ==> InspectSecond(w, s, m, f).Final(f).soul != Some(w.souls.bootstrap(s))
  {
    hide Choose, Upgraded;
    UpgradeDoesItsWork(f.config.config, Choose(w.souls, s, m), s);
  }

  /** EXISTING is only answered for a profile that now carries the seed's identity, fingerprint, epoch,
      operation and generation, is complete, and no longer has the bootstrap soul. */
  lemma ExistingIsCurrent(w: World, s: Seed, f: Files)
    requires Inspect(w, s, f).receipt.status == Existing
    ensures var g := Inspect(w, s, f).Final(f);
      IsCurrent(s, g) && (w.souls.Valid() ==> g.soul != Some(w.souls.bootstrap(s)))
  {
    hide InspectSecond, FirstUpgraded;
    var m := f.manifest.value;
    if m.version != 1 {
      RewriteIsCurrent(w, s, m, f);
    } else {
      var b := f.(config := Parsed(Written(s)), manifest := Some(FirstUpgraded(s, m)));
      RewriteIsCurrent(w, s, FirstUpgraded(s, m), b);
    }
  }

  /** The model section is the seed's, with its missing base URL left out or written as null. */
  predicate NamesRoute(s: Seed, m: Option<ModelSection>) { m == Some(Desired(s)) || m == Written(s).model }

  /** The configuration holds the sections that the seed, and so the fingerprint, asks for. */
  predicate Agrees(s: Seed, c: Config) {
    c.memory == Some(ManagedMemory(s.mode, s.tools)) && c.compression == Some(Threshold) && NamesRoute(s, c.model)
  }

  /** Every section agrees already, or is rewritten. */
  predicate WillAgree(choice: Choice, s: Seed, c: Config) {
    && (choice.flags.memory || c.memory == Some(ManagedMemory(s.mode, s.tools)))
    && (Touches(choice) || c.compression == Some(Threshold))
    && (choice.flags.model || choice.provider || NamesRoute(s, c.model))
  }

  lemma ChoiceKeepsSections(souls: Souls, s: Seed, m: Manifest)
    ensures var c := Choose(souls, s, m);
      c.base.mode == s.mode && c.base.tools == s.tools && (!c.provider ==> c.base == s)
  {
  }

  /** EXISTING does not mean that the configuration agrees with the fingerprint: it does exactly when each
      section that no upgrade rewrites agreed before.  In particular the memory record of the manifest,
      which every rewriting upgrade brings up to date, is true of the configuration only if the memory
      section was upgraded too, or already as wanted. */
  lemma ExistingAgrees(w: World, s: Seed, f: Files)
    requires Inspect(w, s, f).receipt.status == Existing
    ensures f.manifest.Some? && Start(s, f).config.Parsed?
    ensures var g := Inspect(w, s, f).Final(f); var start := Start(s, f); var c := Choose(w.souls, s, start.manifest.value);
      && g.config.Parsed? && g.manifest.Some?
      && (Agrees(s, g.config.config) <==> WillAgree(c, s, start.config.config))
      && (Rewrites(c) ==>
            g.manifest.value.memory.mode == Some(s.mode) && g.manifest.value.memory.tools == Some(s.tools)
            && (g.config.config.memory == Some(ManagedMemory(s.mode, s.tools)) <==>
                  c.flags.memory || start.config.config.memory == Some(ManagedMemory(s.mode, s.tools))))
  {
    InspectFromStart(w, s, f);
    var start := Start(s, f);
    var m := start.manifest.value;
    var c := Choose(w.souls, s, m);
    ChoiceKeepsSections(w.souls, s, m);
    ExistingIsRewrite(w, s, start, m, c);
    var r := Rewrite(w, s, c, Stamp(s, m), start);
    ManifestsOnTheWay(w, s, c, Stamp(s, m), start, 6);
    UpgradeDoesItsWork(start.config.config, c, s);
    UnbootstrapKeeps(w, s, r.trail[5]);
    RefreshKeeps(w, s, r.trail[4]);
    hide Choose, Upgraded, Refresh, Unbootstrap, Rewrite, Inspect, Stamp, InspectSecond, Start;
  }

  lemma ExistingIsRewrite(w: World, s: Seed, f: Files, m: Manifest, c: Choice)
    requires InspectSecond(w, s, m, f).receipt.status == Existing && f.manifest == Some(m) && c == Choose(w.souls, s, m)
    ensures InspectSecond(w, s, m, f) == Rewrite(w, s, c, Stamp(s, m), f)
    ensures f.config.Parsed? && Upgraded(f.config.config, c, s).Some?
    ensures var r := Rewrite(w, s, c, Stamp(s, m), f);
      && |r.trail| == 7 && r.Final(f) == r.trail[6] && r.trail[4].config == Parsed(Upgraded(f.config.config, c, s).value)
      && Refresh(w, s, r.trail[4]) == Some(r.trail[5]) && r.trail[6] == Unbootstrap(w, s, r.trail[5])
  {
    hide Choose, Upgraded, Refresh, Unbootstrap, Stamp;
    RewriteEnds(w, s, c, Stamp(s, m), f);
  }

  // ---------------------------------------------------------------- repeating and retrying

  /** A seed that still names the legacy model route has its sections compared on every call. */
  predicate Steady(s: Seed, g: Files) {
    s == s.OnLegacyModel() ==>
      g.config.Parsed? && g.config.config.compression == Some(Threshold) && g.config.config.model == Some(Desired(s))
  }

  lemma ChoiceHasBase(souls: Souls, s: Seed, m: Manifest)
    ensures var c := Choose(souls, s, m);
      c.provider ==> s.route.provider == OpenRouter && c.base.route == s.route.(provider := OpenAiApi) && m.fingerprint != s.Print()
  {
  }

  /** Such a seed always has its memory record rewritten as well. */
  lemma LegacyRouteAlwaysRewrites(w: World, s: Seed, m: Manifest)
    requires s == s.OnLegacyModel() && (m.fingerprint == s.Print() || Choose(w.souls, s, m).Any())
    ensures Rewrites(Choose(w.souls, s, m))
  {
    var soul := w.souls.LegacySeed(s);
    if soul.Some? { assert soul.value == soul.value.OnLegacyModel(); }
  }

  /** Nothing is written over a profile that is current, needs no configuration change, and records the
      seed's memory whenever it would be rewritten. */
  lemma RewriteStays(w: World, s: Seed, choice: Choice, m: Manifest, f: Files)
    requires f.manifest == Some(m) && m.fingerprint == s.Print() && !choice.flags.soul
    requires Configure(choice, s, f.config) == Some(f.config)
    requires Rewrites(choice) ==> Remember(s, m) == m
    requires Refresh(w, s, f) == Some(f) && Unbootstrap(w, s, f) == f
    ensures Rewrite(w, s, choice, m, f) == Run(Receipt(Existing, NoCode), [f, f, f, f, f, f, f])
  {
    hide Upgraded, Refresh, Unbootstrap;
  }

  /** The choice for an up-to-date manifest. */
  function Again(s: Seed): Choice { Choice(Flags(false, false, s == s.OnLegacyModel(), false), false, s) }

  /** Looking at the configuration of an up-to-date profile again leaves it alone exactly when it is
      steady. */
  lemma ConfigureAgain(s: Seed, g: Files)
    requires g.config.Parsed? && g.config.config.skills == Catalog
    ensures Configure(Again(s), s, g.config) == Some(g.config) <==> Steady(s, g)
  {
    var c := g.config.config;
    if Configure(Again(s), s, g.config) == Some(g.config) { UpgradeDoesItsWork(c, Again(s), s); }
  }

  lemma RefreshedAgain(w: World, s: Seed, f: Files)
    requires Refresh(w, s, f).Some?
    ensures var g := Refresh(w, s, f).value; Refresh(w, s, g) == Some(g) && g == f.(env := g.env)
  {
    if !f.sidecar {
      var wanted := Resolved(w, s).value;
      assert f.env.Some? ==> (f.env.value + wanted) + wanted == f.env.value + wanted;
      assert wanted + wanted == wanted;
    }
  }

  lemma UnbootstrappedAgain(w: World, s: Seed, f: Files)
    requires w.souls.Valid()
    ensures var g := Unbootstrap(w, s, f); Unbootstrap(w, s, g) == g && Refresh(w, s, g) == (match Refresh(w, s, f) case Some(h) => Some(h.(soul := g.soul)) case None => None)
  {
  }

  /** What the writes of a run come to, field by field. */
  lemma RewriteEnds(w: World, s: Seed, choice: Choice, m: Manifest, f: Files)
    requires Rewrite(w, s, choice, m, f).receipt.status == Existing
    ensures var r := Rewrite(w, s, choice, m, f);
      && |r.trail| == 7 && Configure(choice, s, f.config).Some?
      && r.trail[0] == f.(manifest := Some(m)) && r.trail[1] == r.trail[0].(config := Configure(choice, s, f.config).value)
      && r.trail[2] == (if choice.flags.soul then r.trail[1].(soul := Some(s.personality)) else r.trail[1])
      && r.trail[3] == (if choice.flags.soul then r.trail[2].(manifest := Some(m.(fingerprint := s.Print()))) else r.trail[2])
      && r.trail[4] == (if Rewrites(choice) then r.trail[3].(manifest := Some(Remember(s, m))) else r.trail[3])
      && Refresh(w, s, r.trail[4]) == Some(r.trail[5]) && r.trail[6] == Unbootstrap(w, s, r.trail[5])
  {
    hide Configure, Refresh, Unbootstrap;
  }

  /** The credentials and the soul are settled, and the memory is recorded, after a finished run. */
  lemma SettledAfter(w: World, s: Seed, m: Manifest, f: Files)
    requires w.souls.Valid() && f.manifest == Some(m) && m.known && InspectSecond(w, s, m, f).receipt.status == Existing
    ensures var g := InspectSecond(w, s, m, f).Final(f);
      && Refresh(w, s, g) == Some(g) && Unbootstrap(w, s, g) == g
      && (s == s.OnLegacyModel() ==> g.manifest.Some? && Remember(s, g.manifest.value) == g.manifest.value)
  {
    hide Choose, Configure, Refresh, Unbootstrap, Complete;
    var c := Choose(w.souls, s, m);
    if s == s.OnLegacyModel() { LegacyRouteAlwaysRewrites(w, s, m); }
    RewriteEnds(w, s, c, Stamp(s, m), f);
    var r := Rewrite(w, s, c, Stamp(s, m), f);
    RefreshedAgain(w, s, r.trail[4]);
    UnbootstrappedAgain(w, s, r.trail[5]);
    UnbootstrapKeeps(w, s, r.trail[5]);
  }

  lemma UnbootstrapKeeps(w: World, s: Seed, f: Files)
    ensures Unbootstrap(w, s, f) == f.(soul := Unbootstrap(w, s, f).soul)
  {
  }

  /** A profile that is current and settled is left exactly as it is, if and only if it is steady. */
  lemma CurrentStays(w: World, s: Seed, g: Files)
    requires w.souls.Valid() && IsCurrent(s, g) && Refresh(w, s, g) == Some(g) && Unbootstrap(w, s, g) == g
    requires s == s.OnLegacyModel() ==> Remember(s, g.manifest.value) == g.manifest.value
    ensures Inspect(w, s, g) == Run(Receipt(Existing, NoCode), [g, g, g, g, g, g, g]) <==> Steady(s, g)
  {
    var m := g.manifest.value;
    UpToDate(w.souls, s, m);
    ConfigureAgain(s, g);
    hide Configure, Refresh, Unbootstrap, Steady;
    var r := Rewrite(w, s, Again(s), m, g);
    assert Inspect(w, s, g) == r;
    if Steady(s, g) {
      RewriteStays(w, s, Again(s), m, g);
    } else if r.receipt.status == Existing {
      RewriteEnds(w, s, Again(s), m, g);
    }
  }

  /** Where the writes of version 2 begin: a manifest of version 1 is first rewritten with its
      configuration. */
  function Start(s: Seed, f: Files): Files
    requires f.manifest.Some?
  {
    if f.manifest.value.version == 1
    then f.(config := Parsed(Written(s)), manifest := Some(FirstUpgraded(s, f.manifest.value))) else f
  }

  lemma InspectFromStart(w: World, s: Seed, f: Files)
    requires Inspect(w, s, f).receipt.status == Existing
    ensures f.manifest.Some? && var g := Start(s, f);
      && g.manifest.value.known && InspectSecond(w, s, g.manifest.value, g).receipt.status == Existing
      && InspectSecond(w, s, g.manifest.value, g).Final(g) == Inspect(w, s, f).Final(f)
  {
    hide InspectSecond;
  }

  /** Repeating a materialisation that answered EXISTING changes nothing and answers EXISTING again, if
      and only if it left a steady profile; every seed off the legacy model route leaves one. */
  lemma RepeatChangesNothing(w: World, s: Seed, f: Files)
    requires w.souls.Valid() && Inspect(w, s, f).receipt.status == Existing
    ensures var g := Inspect(w, s, f).Final(f);
      Inspect(w, s, g) == Run(Receipt(Existing, NoCode), [g, g, g, g, g, g, g]) <==> Steady(s, g)
  {
    InspectFromStart(w, s, f);
    var b := Start(s, f);
    RewriteIsCurrent(w, s, b.manifest.value, b);
    SettledAfter(w, s, b.manifest.value, b);
    CurrentStays(w, s, Inspect(w, s, f).Final(f));
  }

  // ---------------------------------------------------------------- a crash between two writes

  lemma StampKeeps(souls: Souls, s: Seed, m: Manifest)
    ensures Stamp(s, Stamp(s, m)) == Stamp(s, m)
    ensures Choose(souls, s, Stamp(s, m)) == Choose(souls, s, m)
  {
    hide Souls.LegacySeed, Seed.IsLegacyModelPrint, Seed.IsLegacyMemoryPrint, Seed.LegacyProviderSeed, Seed.Print, Seed.UncompressedPrint;
  }

  /** While the fingerprint has not been rewritten the upgrade is judged as before. */
  lemma JudgedAsBefore(w: World, s: Seed, m: Manifest, f: Files, t: Files)
    requires Gate(w, s, m, f).None? && Complete(t) && t.layout && t.secret
    ensures InspectSecond(w, s, Stamp(s, m), t) == Rewrite(w, s, Choose(w.souls, s, m), Stamp(s, m), t)
  {
    hide Choose, Rewrite;
    StampKeeps(w.souls, s, m);
  }

  /** A run taken up after its configuration was written, or not yet: the same writes follow, unless the
      configuration is now refused. */
  lemma TakeUp(w: World, s: Seed, c: Choice, m: Manifest, f: Files, n: nat)
    requires n <= 2 && Rewrite(w, s, c, m, f).receipt.status == Existing
    requires n == 0 || (f.config.Parsed? && Configure(c, s, Configure(c, s, f.config).value) == Configure(c, s, f.config))
    ensures var r := Rewrite(w, s, c, m, f);
      && |r.trail| == 7 && r.trail[6] == r.Final(f)
      && var again := Rewrite(w, s, c, m, r.trail[n]);
         again.receipt == r.receipt && |again.trail| == 7 && again.trail[6] == r.trail[6] == again.Final(r.trail[n])
  {
    hide Configure, Refresh, Unbootstrap;
    RewriteEnds(w, s, c, m, f);
  }

  lemma TakeUpRefused(w: World, s: Seed, c: Choice, m: Manifest, f: Files)
    requires Configure(c, s, f.config).None?
    ensures Rewrite(w, s, c, m, f).receipt == Receipt(RepairRequired, SkillsConfigRequiresRepair)
  {
  }

  lemma GatePassed(w: World, s: Seed, m: Manifest, f: Files)
    requires Gate(w, s, m, f).None?
    ensures m.version == 2 && m.profileId == s.origin.profileId && m.key == s.origin.key && m.epoch == Some(s.epoch)
    ensures m.complete && Complete(f) && f.layout && f.secret && m.receipt.Some?
    ensures Stamp(s, m).known == m.known && Stamp(s, m).version == 2
    ensures m.fingerprint == s.Print() || Choose(w.souls, s, m).Any()
  {
    hide Choose;
  }

  /** A run in progress: the gate is passed, and every write will succeed. */
  ghost predicate Underway(w: World, s: Seed, m: Manifest, f: Files, c: Choice) {
    && f.manifest == Some(m) && m.known && Gate(w, s, m, f).None? && c == Choose(w.souls, s, m)
    && Rewrite(w, s, c, Stamp(s, m), f).receipt.status == Existing
  }

  /** A crash before the fingerprint is rewritten: the next call ends as this one would have - unless
      both model and provider were being upgraded and the configuration had been written already. */
  lemma CrashBeforeMark(w: World, s: Seed, m: Manifest, f: Files, c: Choice, n: nat)
    requires Underway(w, s, m, f, c) && n <= 2
    ensures var r := Rewrite(w, s, c, Stamp(s, m), f);
      n < |r.trail| &&
      var t := r.trail[n];
      if n > 0 && c.flags.model && c.provider
      then Inspect(w, s, t).receipt == Receipt(RepairRequired, SkillsConfigRequiresRepair)
      else Inspect(w, s, t).receipt == r.receipt && Inspect(w, s, t).Final(t) == r.Final(f)
  {
    var sm := Stamp(s, m);
    UnderwayFacts(w, s, m, f, c);
    hide *;
    WayPoints(w, s, m, f, c, n);
    var t := Rewrite(w, s, c, sm, f).trail[n];
    JudgedAsBefore(w, s, m, f, t);
    InspectIsSecond(w, s, sm, t);
    ConfiguredTwice(w, s, m, c, f.config);
    if n > 0 && c.flags.model && c.provider {
      TakeUpRefused(w, s, c, sm, t);
    } else {
      TakeUp(w, s, c, sm, f, n);
    }
  }

  lemma UnderwayFacts(w: World, s: Seed, m: Manifest, f: Files, c: Choice)
    requires Underway(w, s, m, f, c)
    ensures Gate(w, s, m, f).None? && c == Choose(w.souls, s, m) && Stamp(s, m).known && Stamp(s, m).version == 2
    ensures Rewrite(w, s, c, Stamp(s, m), f).receipt.status == Existing && Configure(c, s, f.config).Some?
  {
    hide Choose;
  }

  lemma InspectIsSecond(w: World, s: Seed, m: Manifest, t: Files)
    requires t.manifest == Some(m) && m.known && m.version == 2
    ensures Inspect(w, s, t) == InspectSecond(w, s, m, t)
  {
    hide InspectSecond;
  }

  /** The first three states still carry the stamped manifest. */
  lemma WayPoints(w: World, s: Seed, m: Manifest, f: Files, c: Choice, n: nat)
    requires Underway(w, s, m, f, c) && n <= 2
    ensures var r := Rewrite(w, s, c, Stamp(s, m), f); 
      (n < |r.trail| && var t := r.trail[n];
       t.manifest == Some(Stamp(s, m)) && Complete(t) && t.layout && t.secret
       && t.config == (if n == 0 then f.config else Configure(c, s, f.config).value))
  {
    hide Choose, Upgraded, Refresh, Unbootstrap, Gate, Rewrite, Rewrites, Remember;
    UnderwayFacts(w, s, m, f, c);
    GatePassed(w, s, m, f);
    RewriteEnds(w, s, c, Stamp(s, m), f);
  }

  /** A crash while a manifest of version 1 is rewritten: the same writes follow. */
  lemma CrashInFirst(w: World, s: Seed, f: Files)
    requires f.manifest.Some? && f.manifest.value.known && f.manifest.value.version == 1 && FirstOk(s, f.manifest.value, f)
    ensures var r := Inspect(w, s, f); |r.trail| >= 2 && Inspect(w, s, r.trail[0]) == r
    ensures var r := Inspect(w, s, f); Inspect(w, s, r.trail[1]) == Run(r.receipt, r.trail[2..])
  {
    hide InspectSecond;
    var a := f.(config := Parsed(Written(s)));
    assert a.(config := Parsed(Written(s))) == a;
  }

  lemma ConfiguredTwice(w: World, s: Seed, m: Manifest, c: Choice, config: ConfigFile)
    requires c == Choose(w.souls, s, m) && Configure(c, s, config).Some?
    ensures config.Parsed? && Configure(c, s, config).value.Parsed?
    ensures Configure(c, s, Configure(c, s, config).value) == if c.flags.model && c.provider then None else Configure(c, s, config)
  {
    ChoiceHasBase(w.souls, s, m);
    UpgradeTwice(config.config, c, s);
  }

  /** Once the fingerprint is the seed's own, a steady profile is up to date. */
  lemma JudgedUpToDate(w: World, s: Seed, m: Manifest, t: Files)
    requires w.souls.Valid() && t.manifest == Some(m) && m.known && m.version == 2 && m.complete
    requires m.profileId == s.origin.profileId && m.key == s.origin.key && m.epoch == Some(s.epoch) && m.fingerprint == s.Print()
    requires m.operation == Some(s.operation) && m.generation == Some(s.generation) && m.receipt.Some?
    requires Complete(t) && t.layout && t.secret
    ensures Inspect(w, s, t) == Rewrite(w, s, Again(s), m, t)
  {
    UpToDate(w.souls, s, m);
    hide Choose, Rewrite;
  }

  lemma StampIsCurrent(s: Seed, m: Manifest)
    requires m.receipt.Some?
    ensures var sm := Stamp(s, m);
      sm.operation == Some(s.operation) && sm.generation == Some(s.generation) && sm.receipt.Some?
      && sm == m.(operation := sm.operation, generation := sm.generation, receipt := sm.receipt)
  {
  }

  /** Credentials and soul are rewritten whatever the manifest says. */
  function Tidied(w: World, s: Seed, f: Files): Option<Files> {
    match Refresh(w, s, f) case None => None case Some(g) => Some(Unbootstrap(w, s, g))
  }

  lemma TidiedAgain(w: World, s: Seed, f: Files, m: Option<Manifest>)
    requires w.souls.Valid()
    ensures Tidied(w, s, f.(manifest := m)) == (match Tidied(w, s, f) case None => None case Some(g) => Some(g.(manifest := m)))
    ensures Refresh(w, s, f).Some? ==> Tidied(w, s, Refresh(w, s, f).value) == Tidied(w, s, f)
    ensures Tidied(w, s, f).Some? ==> Tidied(w, s, Tidied(w, s, f).value) == Tidied(w, s, f)
  {
    if Refresh(w, s, f).Some? {
      RefreshedAgain(w, s, f);
      UnbootstrappedAgain(w, s, Refresh(w, s, f).value);
    }
  }

  lemma AgainEnds(w: World, s: Seed, m: Manifest, t: Files)
    requires w.souls.Valid() && t.manifest == Some(m) && Tidied(w, s, t).Some?
    ensures var r := Rewrite(w, s, Again(s), m, t);
      match Configure(Again(s), s, t.config)
      case None => r.receipt == Receipt(RepairRequired, SkillsConfigRequiresRepair)
      case Some(config) =>
        && r.receipt == Receipt(Existing, NoCode)
        && r.Final(t) == Tidied(w, s, t).value.(config := config, manifest := Some(if s == s.OnLegacyModel() then Remember(s, m) else m))
  {
    var config := Configure(Again(s), s, t.config);
    if config.Some? { TidiedFrame(w, s, t, Some(Remember(s, m)), config.value); TidiedFrame(w, s, t, Some(m), config.value); }
    hide Refresh, Unbootstrap, Upgraded, Configure;
  }

  /** Credentials and soul do not depend on manifest and configuration. */
  lemma TidiedFrame(w: World, s: Seed, f: Files, m: Option<Manifest>, config: ConfigFile)
    ensures Tidied(w, s, f.(manifest := m, config := config))
         == (match Tidied(w, s, f) case None => None case Some(g) => Some(g.(manifest := m, config := config)))
  {
  }

  /** A crash after the fingerprint is rewritten: the next call ends as this one would have - except
      that a crash right between the soul's mark and the memory record leaves the old memory record,
      and that a profile which does not end steady has its configuration looked at once more. */
  lemma CrashAfterMark(w: World, s: Seed, m: Manifest, f: Files, c: Choice, n: nat)
    requires w.souls.Valid() && Underway(w, s, m, f, c) && 3 <= n < 7
    requires var r := Rewrite(w, s, c, Stamp(s, m), f);
      n < |r.trail| && r.trail[n].manifest.Some? && r.trail[n].manifest.value.fingerprint == s.Print()
    ensures var r := Rewrite(w, s, c, Stamp(s, m), f); var again := Inspect(w, s, r.trail[n]);
      && r.Final(f).manifest.Some? && r.Final(f).config.Parsed?
      && (match Configure(Again(s), s, r.Final(f).config)
          case None => again.receipt == Receipt(RepairRequired, SkillsConfigRequiresRepair)
          case Some(config) =>
            && again.receipt == r.receipt
            && again.Final(r.trail[n]) ==
                 if n == 3 && c.flags.soul && Rewrites(c) && s != s.OnLegacyModel()
                 then r.Final(f).(config := config, manifest := Some(r.Final(f).manifest.value.(memory := m.memory)))
                 else r.Final(f).(config := config))
      && (Configure(Again(s), s, r.Final(f).config) == Some(r.Final(f).config) <==> Steady(s, r.Final(f)))
  {
    var r := Rewrite(w, s, c, Stamp(s, m), f);
    var t := r.trail[n];
    MarkedFacts(w, s, m, f, c, n);
    GatePassed(w, s, m, f);
    StampIsCurrent(s, m);
    ManifestsOnTheWay(w, s, c, Stamp(s, m), f, n);
    ManifestsOnTheWay(w, s, c, Stamp(s, m), f, 6);
    MarkedManifest(w, s, m, c, n);
    hide Choose, Upgraded, Gate, Stamp, Rewrite, InspectSecond, Refresh, Unbootstrap, Tidied, Underway, Complete, Configure, Steady;
    JudgedUpToDate(w, s, t.manifest.value, t);
    AgainEnds(w, s, t.manifest.value, t);
    ConfigureAgain(s, r.Final(f));
  }

  /** The files on disk after the mark, beside the manifest. */
  lemma MarkedFacts(w: World, s: Seed, m: Manifest, f: Files, c: Choice, n: nat)
    requires w.souls.Valid() && Underway(w, s, m, f, c) && 3 <= n < 7
    ensures var r := Rewrite(w, s, c, Stamp(s, m), f);
      && |r.trail| == 7 && r.receipt == Receipt(Existing, NoCode) && r.trail[6] == r.Final(f)
      && FilesAfterMark(w, s, r.trail[n], r.trail[6])
  {
    var sm := Stamp(s, m);
    UnderwayFacts(w, s, m, f, c);
    GatePassed(w, s, m, f);
    var r := Rewrite(w, s, c, sm, f);
    hide Choose, Upgraded, Gate, Stamp, Refresh, Unbootstrap, Tidied, Remember, Rewrite, InspectSecond, Underway, Rewrites;
    RewriteEnds(w, s, c, sm, f);
    UpgradeDoesItsWork(f.config.config, c, s);
    AfterMark(w, s, r.trail[0], r.trail[3], r.trail[4], r.trail[5], r.trail[6]);
  }

  lemma AfterMark(w: World, s: Seed, stamped: Files, marked: Files, remembered: Files, refreshed: Files, done: Files)
    requires w.souls.Valid() && Complete(stamped) && stamped.layout && stamped.secret
    requires marked == stamped.(manifest := marked.manifest, config := marked.config, soul := marked.soul)
    requires marked.soul.Some? && marked.config.Parsed? && marked.config.config.skills == Catalog
    requires remembered == marked.(manifest := remembered.manifest)
    requires Refresh(w, s, remembered) == Some(refreshed) && done == Unbootstrap(w, s, refreshed)
    ensures FilesAfterMark(w, s, marked, done) && FilesAfterMark(w, s, remembered, done)
    ensures FilesAfterMark(w, s, refreshed, done) && FilesAfterMark(w, s, done, done)
  {
    TidiedEnds(w, s, marked, remembered, refreshed, done);
    UnbootstrapKeeps(w, s, refreshed);
    RefreshKeeps(w, s, remembered);
    hide Refresh, Unbootstrap, Tidied;
    assert remembered.manifest == refreshed.manifest == done.manifest;
    assert done.(manifest := done.manifest) == done;
  }

  ghost predicate FilesAfterMark(w: World, s: Seed, t: Files, end: Files) {
    && Complete(t) && t.layout && t.secret && t.config.Parsed? && t.config.config.skills == Catalog && t.config == end.config
    && Tidied(w, s, t) == Some(end.(manifest := t.manifest))
  }

  /** The manifest on disk after `n` writes. */
  function ManifestAt(s: Seed, c: Choice, m: Manifest, n: nat): Manifest {
    if n >= 4 && Rewrites(c) then Remember(s, m)
    else if n >= 3 && c.flags.soul then m.(fingerprint := s.Print())
    else m
  }

  lemma ManifestsOnTheWay(w: World, s: Seed, c: Choice, m: Manifest, f: Files, n: nat)
    requires Rewrite(w, s, c, m, f).receipt.status == Existing && n < 7
    ensures var r := Rewrite(w, s, c, m, f);
      |r.trail| == 7 && r.trail[n].manifest == Some(ManifestAt(s, c, m, n)) && r.trail[6] == r.Final(f)
  {
    RewriteEnds(w, s, c, m, f);
    var r := Rewrite(w, s, c, m, f);
    UnbootstrapKeeps(w, s, r.trail[5]);
    RefreshKeeps(w, s, r.trail[4]);
    hide Refresh, Unbootstrap, Rewrite, Configure, Rewrites, Remember;
    assert r.trail[5].manifest == r.trail[4].manifest && r.trail[6].manifest == r.trail[5].manifest;
    assert r.trail[1].manifest == Some(m) && r.trail[2].manifest == Some(m);
  }

  /** The manifest after the mark is the final one, but for the memory record. */
  lemma MarkedManifest(w: World, s: Seed, m: Manifest, c: Choice, n: nat)
    requires w.souls.Valid() && 3 <= n < 7 && c == Choose(w.souls, s, m) && Stamp(s, m).known
    requires m.version == 2 && m.profileId == s.origin.profileId && m.key == s.origin.key && m.epoch == Some(s.epoch) && m.complete
    requires m.receipt.Some? && (m.fingerprint == s.Print() || c.Any())
    requires ManifestAt(s, c, Stamp(s, m), n).fingerprint == s.Print()
    ensures ManifestAfterMark(s, ManifestAt(s, c, Stamp(s, m), n), ManifestAt(s, c, Stamp(s, m), 6), m, n == 3 && c.flags.soul && Rewrites(c))
  {
    StampIsCurrent(s, m);
    if s == s.OnLegacyModel() { LegacyRouteAlwaysRewrites(w, s, m); }
    ChoiceMarks(w.souls, s, m);
    if m.fingerprint == s.Print() { UpToDate(w.souls, s, m); }
    hide Choose, Stamp;
  }

  predicate ManifestAfterMark(s: Seed, now: Manifest, end: Manifest, original: Manifest, unrecorded: bool) {
    && now.known && now.version == 2 && now.complete && now.profileId == s.origin.profileId && now.key == s.origin.key
    && now.epoch == Some(s.epoch) && now.operation == Some(s.operation) && now.generation == Some(s.generation) && now.receipt.Some?
    && (if s == s.OnLegacyModel() then Remember(s, now) == end
        else if unrecorded then now == end.(memory := original.memory) else now == end)
  }

  lemma RefreshKeeps(w: World, s: Seed, f: Files)
    requires Refresh(w, s, f).Some?
    ensures Refresh(w, s, f).value == f.(env := Refresh(w, s, f).value.env)
  {
  }

  lemma ChoiceMarks(souls: Souls, s: Seed, m: Manifest)
    requires souls.Valid()
    ensures Choose(souls, s, m).flags.soul ==> m.fingerprint != s.Print()
  {
  }

  lemma TidiedEnds(w: World, s: Seed, marked: Files, remembered: Files, refreshed: Files, done: Files)
    requires w.souls.Valid() && remembered == marked.(manifest := remembered.manifest)
    requires Refresh(w, s, remembered) == Some(refreshed) && done == Unbootstrap(w, s, refreshed)
    ensures Tidied(w, s, marked) == Some(done.(manifest := marked.manifest))
    ensures Tidied(w, s, remembered) == Tidied(w, s, refreshed) == Tidied(w, s, done) == Some(done)
    ensures refreshed == remembered.(env := refreshed.env) && done == refreshed.(soul := done.soul)
    ensures Complete(remembered) ==> Complete(refreshed) && Complete(done)
  {
    TidiedAgain(w, s, remembered, marked.manifest);
    RefreshedAgain(w, s, remembered);
    UnbootstrapKeeps(w, s, refreshed);
    assert marked == remembered.(manifest := marked.manifest);
  }

  // ---------------------------------------------------------------- profiles that show it

  /** The manifest an older runtime wrote for `s`, under a fingerprint of its time. */
  function OldManifest(s: Seed, fingerprint: Fingerprint): Manifest {
    Manifest(true, 2, s.origin.profileId, s.origin.key, fingerprint, s.origin.chatVersion, Some(s.epoch), true,
             Some(s.operation), Some(s.generation), Some(ReceiptOf(s)), ManifestMemory(true, Some(ContextOnly), Some(NoTools), true))
  }

  /** A complete profile with this manifest and configuration. */
  predicate Holds(f: Files, s: Seed, m: Manifest, c: Config) {
    f.manifest == Some(m) && f.config == Parsed(c) && f.env.Some? && f.soul.Some? && f.layout && f.secret && f.sidecar
  }

  function Ally(personality: string, route: Route, credentials: map<Credential, string>): Seed {
    Seed(Origin(1, "profile", "ally", "{}", 1, "hello"), personality, route, credentials, NarrowTools, DefaultTools, 0, "create", "1")
  }

  /** A world in which the soul "new" used to be "old". */
  function OldSouls(): Souls {
    Souls(p => if p == "new" then Some("old") else None, (s: Seed) => s.personality + "!")
  }

  /** What the inspection of an older profile with these files comes to. */
  lemma OldProfileStarts(w: World, s: Seed, f: Files, fingerprint: Fingerprint, c: Choice, config: Config)
    requires Holds(f, s, OldManifest(s, fingerprint), config) && c == Choose(w.souls, s, OldManifest(s, fingerprint)) && c.Any()
    ensures var m := OldManifest(s, fingerprint); Gate(w, s, m, f).None? && Stamp(s, m) == m
    ensures Inspect(w, s, f) == Rewrite(w, s, c, OldManifest(s, fingerprint), f)
    ensures Upgraded(config, c, s).Some? ==> Underway(w, s, OldManifest(s, fingerprint), f, c)
    ensures Upgraded(config, c, s).None? ==> Inspect(w, s, f).receipt == Receipt(RepairRequired, SkillsConfigRequiresRepair)
  {
    hide Choose, Upgraded;
  }

  /** On the native route with the default model, and a profile from before both: the upgrade is under
      way, and after a crash right behind the configuration it is refused. */
  lemma CombinedUpgradeIsRefused(w: World, s: Seed, base: Seed, f: Files)
    requires s == Ally("me", Route(OpenRouter, NamedModel("model"), Some(NamedUrl("url"))), map[OpenRouterKey := "key"])
    requires base == Ally("me", Route(OpenAiApi, NamedModel("model"), Some(NamedUrl("url"))), map[OpenAiKey := "key"])
    requires w.souls == OldSouls()
    requires Holds(f, s, OldManifest(s, base.OnLegacyModel().Print()), Written(base.OnLegacyModel()))
    ensures var run := Inspect(w, s, f);
      run.receipt == Receipt(Existing, NoCode) && |run.trail| == 7
      && Inspect(w, s, run.trail[1]).receipt == Receipt(RepairRequired, SkillsConfigRequiresRepair)
  {
    var m := OldManifest(s, base.OnLegacyModel().Print());
    var c := Choice(Flags(false, false, true, false), true, base);
    assert s.LegacyProviderSeed() == Some(base);
    assert Choose(w.souls, s, m) == c;
    assert Upgraded(Written(base.OnLegacyModel()), c, s).Some?;
    OldProfileStarts(w, s, f, base.OnLegacyModel().Print(), c, Written(base.OnLegacyModel()));
    hide *;
    UnderwayFacts(w, s, m, f, c);
    CrashBeforeMark(w, s, m, f, c, 1);
    RewriteAnswers(w, s, c, m, f);
  }

  lemma RewriteAnswers(w: World, s: Seed, c: Choice, m: Manifest, f: Files)
    requires Rewrite(w, s, c, m, f).receipt.status == Existing
    ensures |Rewrite(w, s, c, m, f).trail| == 7 && Rewrite(w, s, c, m, f).receipt == Receipt(Existing, NoCode)
  {
    hide Configure, Refresh, Unbootstrap;
  }

  /** An old soul on the old model, and a crash between the soul's mark and the memory record: the
      retry answers EXISTING and leaves the old record. */
  lemma MemoryRecordStaysOld(w: World, s: Seed, t: Seed, f: Files)
    requires s == Ally("new", Route(OpenAiApi, NamedModel("model"), None), map[]) && t == s.(personality := "old")
    requires w.souls == OldSouls()
    requires Holds(f, s, OldManifest(s, t.OnLegacyModel().Print()), Written(t.OnLegacyModel()))
    ensures var run := Inspect(w, s, f);
      (|run.trail| == 7 && var again := Inspect(w, s, run.trail[3]); var end := again.Final(run.trail[3]);
       run.receipt == again.receipt == Receipt(Existing, NoCode) && end.manifest.Some? && run.Final(f).manifest.Some?
       && run.Final(f).manifest.value.memory.mode == Some(NarrowTools) && end.manifest.value.memory.mode == Some(ContextOnly))
  {
    var m := OldManifest(s, t.OnLegacyModel().Print());
    var c := Choice(Flags(false, false, true, true), false, s);
    SoulsAreValid();
    assert Choose(w.souls, s, m) == c;
    assert Upgraded(Written(t.OnLegacyModel()), c, s).Some?;
    OldProfileStarts(w, s, f, t.OnLegacyModel().Print(), c, Written(t.OnLegacyModel()));
    hide Choose, Upgraded, Gate, Refresh, Unbootstrap, Configure, Rewrite, Inspect, InspectSecond, OldSouls, Souls.Valid;
    UnderwayFacts(w, s, m, f, c);
    RewriteAnswers(w, s, c, m, f);
    ManifestsOnTheWay(w, s, c, m, f, 3);
    ManifestsOnTheWay(w, s, c, m, f, 6);
    CrashAfterMark(w, s, m, f, c, 3);
    OffRouteIsSteady(s, Rewrite(w, s, c, m, f).Final(f));
  }

  lemma SecondAnswers(w: World, s: Seed, f: Files, m: Manifest)
    requires f.manifest == Some(m) && m.known && m.version == 2
    ensures Inspect(w, s, f) == InspectSecond(w, s, m, f) && Start(s, f) == f
  {
    hide InspectSecond;
  }

  lemma SoulsAreValid()
    ensures OldSouls().Valid()
  {
  }

  lemma OffRouteIsSteady(s: Seed, g: Files)
    requires s != s.OnLegacyModel()
    ensures Steady(s, g)
  {
  }

  /** A seed without a base URL: the profile that an older runtime wrote for it is never upgraded. */
  lemma NoBaseUrlIsRefused(w: World, s: Seed, base: Seed, f: Files)
    requires s == Ally("me", Route(OpenRouter, NamedModel("model"), None), map[OpenRouterKey := "key"])
    requires base == Ally("me", Route(OpenAiApi, NamedModel("model"), None), map[OpenAiKey := "key"])
    requires w.souls == OldSouls() && Holds(f, s, OldManifest(s, base.Print()), Written(base))
    ensures Inspect(w, s, f).receipt == Receipt(RepairRequired, SkillsConfigRequiresRepair)
  {
    var m := OldManifest(s, base.Print());
    var c := Choice(Flags(false, false, false, false), true, base);
    assert s.LegacyProviderSeed() == Some(base);
    assert Choose(w.souls, s, m) == c;
    assert Upgraded(Written(base), c, s).None?;
    OldProfileStarts(w, s, f, base.Print(), c, Written(base));
  }

  /** An old soul, the old model and the previous memory default: the answer is EXISTING, the manifest
      records the new memory mode, and the configuration keeps the old one. */
  lemma MemoryStaysOld(w: World, s: Seed, t: Seed, f: Files)
    requires s == Ally("new", Route(OpenAiApi, NamedModel("model"), None), map[]) && t == s.(personality := "old")
    requires w.souls == OldSouls()
    requires Holds(f, s, OldManifest(s, t.OnLegacyModel().Remembering().UncompressedPrint()),
                   Written(t.OnLegacyModel().Remembering()).(compression := None))
    ensures var run := Inspect(w, s, f); var g := run.Final(f);
      run.receipt == Receipt(Existing, NoCode) && g.manifest.Some? && g.config.Parsed?
      && g.manifest.value.memory.mode == Some(NarrowTools) && g.config.config.memory == Some(ManagedMemory(ContextOnly, NoTools))
  {
    var fingerprint := t.OnLegacyModel().Remembering().UncompressedPrint();
    var config := Written(t.OnLegacyModel().Remembering()).(compression := None);
    var m := OldManifest(s, fingerprint);
    var c := Choice(Flags(false, false, true, true), false, s);
    assert Choose(w.souls, s, m) == c;
    assert Upgraded(config, c, s).Some?;
    OldProfileStarts(w, s, f, fingerprint, c, config);
    hide Choose, Gate, Refresh, Unbootstrap, Rewrite, Inspect, InspectSecond, OldSouls;
    UnderwayFacts(w, s, m, f, c);
    RewriteAnswers(w, s, c, m, f);
    SecondAnswers(w, s, f, m);
    ExistingAgrees(w, s, f);
    ExistingIsRewrite(w, s, f, m, c);
    UpgradeDoesItsWork(config, c, s);
    UnbootstrapKeeps(w, s, Rewrite(w, s, c, m, f).trail[5]);
    RefreshKeeps(w, s, Rewrite(w, s, c, m, f).trail[4]);
  }

  /** A seed on the legacy model route, a manifest from the previous memory default, and a model section
      of the owner's own: the first call answers EXISTING, the second asks for a repair. */
  lemma UnsteadyRepeat(w: World, s: Seed, f: Files)
    requires w.souls.Valid() && s == s.OnLegacyModel() && s.mode == NarrowTools && s.tools == DefaultTools
    requires f.manifest == Some(Manifest(
      true, 2, s.origin.profileId, s.origin.key, s.Remembering().Print(), s.origin.chatVersion, Some(s.epoch), true,
      Some(s.operation), Some(s.generation), Some(ReceiptOf(s)), ManifestMemory(true, Some(ContextOnly), Some(NoTools), true)))
    requires f.config == Parsed(Written(s.Remembering()).(model := Some(CustomModel("mine"))))
    requires f.env.Some? && f.soul == Some(s.personality) && f.layout && f.secret && f.sidecar
    ensures Inspect(w, s, f).receipt == Receipt(Existing, NoCode)
    ensures Inspect(w, s, Inspect(w, s, f).Final(f)).receipt == Receipt(RepairRequired, SkillsConfigRequiresRepair)
  {
    var m := f.manifest.value;
    var c := Choice(Flags(true, false, false, false), false, s);
    UnsteadyStart(w, s, f, m, c);
    var g := Inspect(w, s, f).Final(f);
    hide *;
    ExistingIsCurrent(w, s, f);
    CurrentIsUpToDate(w, s, g);
    TakeUpRefused(w, s, Again(s), g.manifest.value, g);
  }

  lemma UnsteadyStart(w: World, s: Seed, f: Files, m: Manifest, c: Choice)
    requires w.souls.Valid() && s == s.OnLegacyModel() && s.mode == NarrowTools && s.tools == DefaultTools
    requires f.manifest == Some(m) && m.fingerprint == s.Remembering().Print() && c == Choice(Flags(true, false, false, false), false, s)
    requires m.memory == ManifestMemory(true, Some(ContextOnly), Some(NoTools), true) && m.known && Stamp(s, m) == m
    requires m.profileId == s.origin.profileId && m.key == s.origin.key && m.epoch == Some(s.epoch) && m.complete && m.receipt.Some?
    requires Complete(f) && f.layout && f.secret
    requires f.config == Parsed(Written(s.Remembering()).(model := Some(CustomModel("mine")))) && f.sidecar && m.version == 2
    ensures Inspect(w, s, f).receipt == Receipt(Existing, NoCode)
    ensures var g := Inspect(w, s, f).Final(f); Configure(Again(s), s, g.config).None?
  {
    assert Choose(w.souls, s, m) == c;
    var d := Upgraded(f.config.config, c, s);
    assert d.Some? && d.value.model == Some(CustomModel("mine"));
    hide Choose, Gate;
    RewriteEnds(w, s, c, m, f);
    UnbootstrapKeeps(w, s, Rewrite(w, s, c, m, f).trail[5]);
    ConfigureRefuses(s, Parsed(d.value));
  }

  lemma ConfigureRefuses(s: Seed, config: ConfigFile)
    requires s == s.OnLegacyModel() && config.Parsed? && config.config.model == Some(CustomModel("mine"))
    ensures Configure(Again(s), s, config).None?
  {
  }

  lemma CurrentIsUpToDate(w: World, s: Seed, g: Files)
    requires w.souls.Valid() && IsCurrent(s, g)
    ensures g.manifest.Some? && Inspect(w, s, g) == Rewrite(w, s, Again(s), g.manifest.value, g)
  {
    JudgedUpToDate(w, s, g.manifest.value, g);
  }
}
