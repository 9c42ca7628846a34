/** Profile seeds and their fingerprints.  A digest is modelled as the record it is computed from. */
module ProfileSeeds {
  import opened Events

  datatype Provider = OpenRouter | OpenAiApi | OtherProvider(name: string)
  datatype ModelName = LegacyDefault | NamedModel(name: string)
  datatype Url = LegacyUrl | NamedUrl(url: string)
  datatype Credential = OpenRouterKey | OpenAiKey | OtherKey(name: string)

  datatype Mode = ContextOnly | NarrowTools
  /** A tool allowlist; `OtherTools` is neither empty nor the default one. */
  datatype Tools = NoTools | DefaultTools | OtherTools(names: seq<string>)

  /** The parts of a seed that no upgrade changes. */
  datatype Origin = Origin(
    seedVersion: int, profileId: string, key: string, identity: string, chatVersion: int, chat: string)

  datatype Route = Route(provider: Provider, model: ModelName, baseUrl: Option<Url>)

  datatype Fingerprint =
    | Current(origin: Origin, personality: string, route: Route, credentials: map<Credential, string>,
              mode: Mode, tools: Tools, compressed: bool)
    | First(origin: Origin, personality: string, route: Route, credentials: map<Credential, string>)

  datatype Seed = Seed(
    origin: Origin, personality: string, route: Route, credentials: map<Credential, string>,
    mode: Mode, tools: Tools, epoch: nat, operation: string, generation: string)
  {
    function Print(): Fingerprint { Current(origin, personality, route, credentials, mode, tools, true) }

    /** The fingerprint of manifest version 1. */
    function FirstPrint(): Fingerprint { First(origin, personality, route, credentials) }

    /** From before the compression threshold. */
    function UncompressedPrint(): Fingerprint { Current(origin, personality, route, credentials, mode, tools, false) }

    /** This seed with the previous managed memory default. */
    function Remembering(): Seed { this.(mode := ContextOnly, tools := NoTools) }

    /** This seed on the model route from before the default model switched. */
    function OnLegacyModel(): Seed { this.(route := Route(route.provider, LegacyDefault, Some(LegacyUrl))) }

    predicate IsLegacyModelPrint(f: Fingerprint) {
      || f == OnLegacyModel().Print()
      || f == OnLegacyModel().Remembering().UncompressedPrint()
      || f == OnLegacyModel().UncompressedPrint()
    }

    predicate IsLegacyMemoryPrint(f: Fingerprint) {
      || f == Remembering().UncompressedPrint()
      || f == OnLegacyModel().Remembering().UncompressedPrint()
      || f == Remembering().Print()
    }

    /** This seed from before the native provider route, if it is managed. */
    function LegacyProviderSeed(): Option<Seed> {
      if route.provider == OpenRouter && credentials.Keys == {OpenRouterKey}
      then Some(this.(route := route.(provider := OpenAiApi), credentials := map[OpenAiKey := credentials[OpenRouterKey]]))
      else None
    }
  }

  /** The soul a managed personality had before the platform layer, and the whole file that the first
      runtime wrote for a seed. */
  datatype Souls = Souls(legacy: string -> Option<string>, bootstrap: Seed -> string)
  {
    ghost predicate Valid() {
      (forall p :: legacy(p) != Some(p)) && (forall s: Seed :: bootstrap(s) != s.personality)
    }

    function LegacySeed(s: Seed): Option<Seed> {
      match legacy(s.personality) case None => None case Some(p) => Some(s.(personality := p))
    }
  }

  /** A receipt id, modelled as what it is computed from. */
  datatype ReceiptId = ReceiptId(key: string, operation: string, fingerprint: Fingerprint, epoch: int, generation: string)

  datatype ManifestMemory = ManifestMemory(managed: bool, mode: Option<Mode>, tools: Option<Tools>, stored: bool)

  /** A parsed manifest; a field that is missing or malformed is `None`. */
  datatype Manifest = Manifest(
    known: bool, version: int, profileId: string, key: string, fingerprint: Fingerprint, chatVersion: int, epoch: Option<int>,
    complete: bool, operation: Option<string>, generation: Option<string>, receipt: Option<ReceiptId>, memory: ManifestMemory)

  function ReceiptOf(s: Seed): ReceiptId { ReceiptId(s.origin.key, s.operation, s.Print(), s.epoch, s.generation) }

  // ---------------------------------------------------------------- which upgrade a manifest needs

  datatype Flags = Flags(memory: bool, compression: bool, model: bool, soul: bool)
  {
    predicate Any() { memory || compression || model || soul }
  }

  predicate IsManagedMemory(s: Seed, m: Manifest) {
    && s.mode == NarrowTools && s.tools == DefaultTools && s.IsLegacyMemoryPrint(m.fingerprint)
    && m.memory == ManifestMemory(true, Some(ContextOnly), Some(NoTools), true)
  }

  /** `_legacy_upgrades`. */
  function UpgradesOf(souls: Souls, s: Seed, m: Manifest): Flags {
    var soul := souls.LegacySeed(s);
    var soulModel := soul.Some? && soul.value.IsLegacyModelPrint(m.fingerprint);
    Flags(
      IsManagedMemory(s, m),
      m.fingerprint == s.UncompressedPrint(),
      s.IsLegacyModelPrint(m.fingerprint) || soulModel,
      soul.Some? && (m.fingerprint == soul.value.Print() || soulModel))
  }

  /** The upgrades, whether the provider route is rewritten on top, and the seed they are judged by. */
  datatype Choice = Choice(flags: Flags, provider: bool, base: Seed)
  {
    predicate Any() { flags.Any() || provider }
  }

  function Choose(souls: Souls, s: Seed, m: Manifest): Choice {
    var flags := UpgradesOf(souls, s, m);
    var before := s.LegacyProviderSeed();
    if m.fingerprint != s.Print() && !flags.Any() && before.Some? then
      var older := UpgradesOf(souls, before.value, m);
      if m.fingerprint == before.value.Print() || older.Any() then Choice(older, true, before.value)
      else Choice(older, false, s)
    else Choice(flags, false, s)
  }

  /** A manifest that carries the seed's own fingerprint needs no upgrade, unless the seed itself still
      names the legacy model route. */
  lemma UpToDate(souls: Souls, s: Seed, m: Manifest)
    requires souls.Valid() && m.fingerprint == s.Print()
    ensures Choose(souls, s, m) == Choice(Flags(false, false, s == s.OnLegacyModel(), false), false, s)
  {
  }

  /** Two upgrades of the soul and of the managed memory are never chosen together: the memory
      upgrade is recognised under the present soul only. */
  lemma SoulHidesMemory(souls: Souls, s: Seed, m: Manifest)
    requires souls.Valid()
    ensures var f := UpgradesOf(souls, s, m); !(f.soul && f.memory)
  {
  }
}
