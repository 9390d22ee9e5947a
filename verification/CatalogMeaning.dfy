/**
 What the generated document says, name by name and in terms of the upstream catalog alone.
 */
module CatalogMeaning {
  import opened Wrappers
  import opened Json
  import opened CostText
  import opened Decimal
  import opened Catalog
  import opened CatalogJson
  import opened CatalogRead

  /// Looking into a value

  function Under(v: Json, name: string): Option<Json> {
    if v.Object? then Lookup(v.members, name) else None
  }

  function Elements(items: Items): seq<Json> {
    match items
    case NoItems => []
    case Item(value, more) => [value] + Elements(more)
  }

  function Entries(members: Members): seq<(string, Json)> {
    match members
    case NoMembers => []
    case Member(key, value, rest) => [(key, value)] + Entries(rest)
  }

  function NamesOf(members: Members): seq<string> {
    match members
    case NoMembers => []
    case Member(key, value, rest) => [key] + NamesOf(rest)
  }

  // Those of the names that a value has.
  function Given(v: Json, names: seq<string>): seq<string> {
    if names == [] then [] else (if Under(v, names[0]).Some? then [names[0]] else []) + Given(v, names[1..])
  }

  // An object with members of these names only, in this order.
  predicate HasNames(v: Json, names: seq<string>) {
    v.Object? && NamesOf(v.members) == Given(v, names)
  }

  /// Texts, flags and lists

  predicate IsText(v: Option<Json>, s: string) {
    v == Some(String(s))
  }

  predicate IsTextIfAny(v: Option<Json>, s: Option<string>) {
    if s.None? then v.None? else v == Some(String(s.value))
  }

  predicate IsFlag(v: Option<Json>, b: bool) {
    v == Some(Bool(b))
  }

  predicate AreTexts(v: Option<Json>, texts: seq<string>) {
    && v.Some? && v.value.Array? && |Elements(v.value.items)| == |texts|
    && forall k :: 0 <= k < |texts| ==> Elements(v.value.items)[k] == String(texts[k])
  }

  predicate IsModality(v: Json, modality: Modality) {
    && (modality == Text ==> v == String("text"))
    && (modality == Audio ==> v == String("audio"))
    && (modality == Image ==> v == String("image"))
    && (modality == Video ==> v == String("video"))
    && (modality == Pdf ==> v == String("pdf"))
  }

  predicate AreModalities(v: Option<Json>, modalities: seq<Modality>) {
    && v.Some? && v.value.Array? && |Elements(v.value.items)| == |modalities|
    && forall k :: 0 <= k < |modalities| ==> IsModality(Elements(v.value.items)[k], modalities[k])
  }

  predicate IsShape(v: Option<Json>, shape: Option<ProviderShape>) {
    && (shape == None ==> v == None)
    && (shape == Some(Responses) ==> IsText(v, "responses"))
    && (shape == Some(Completions) ==> IsText(v, "completions"))
  }

  // Image output first, then audio output, then transcription, then chat.
  predicate IsMode(v: Option<Json>, input: seq<Modality>, output: seq<Modality>) {
    && (Image in output ==> IsText(v, "image_generation"))
    && (Image !in output && Audio in output ==> IsText(v, "audio_speech"))
    && (Audio in input && output == [Text] ==> IsText(v, "audio_transcription"))
    && (Image !in output && Audio !in output && Text in output && (Audio in input ==> output != [Text])
        ==> IsText(v, "chat"))
    && (Image !in output && Audio !in output && Text !in output ==> v == None)
  }

  /// Numbers

  predicate IsNumeral(v: Option<Json>) {
    v.Some? && v.value.Number? && IsNumber(v.value.lexeme)
  }

  function Amount(v: Option<Json>): real
    requires IsNumeral(v)
  {
    NumeralValue(v.value.lexeme)
  }

  // A price per token: 1_000_000 of them are the upstream cost, up to half a unit of the 15th decimal each.
  predicate IsPrice(v: Option<Json>, cost: F64) {
    && IsNumeral(v) && cost.Finite? && Amount(v) >= 0.0
    && cost.r - 0.000_000_000_5 <= Amount(v) * 1_000_000.0 <= cost.r + 0.000_000_000_5
  }

  predicate IsPriceIfAny(v: Option<Json>, cost: Option<F64>) {
    if cost.None? then v.None? else IsPrice(v, cost.value)
  }

  predicate IsCount(v: Option<Json>, n: nat) {
    IsNumeral(v) && Amount(v) == n as real
  }

  // The nearest whole number, halves up, and the greatest of 64 bits for what lies beyond.
  predicate IsLimit(v: Option<Json>, limit: F64) {
    && IsNumeral(v) && limit.Finite? && Amount(v).Floor as real == Amount(v)
    && if limit.r + 0.5 < 18_446_744_073_709_551_616.0 then limit.r - 0.5 < Amount(v) <= limit.r + 0.5
       else Amount(v) == 18_446_744_073_709_551_615.0
  }

  predicate IsLimitIfAny(v: Option<Json>, limit: Option<F64>) {
    if limit.None? then v.None? else IsLimit(v, limit.value)
  }

  /// Objects

  // The names of the members, in the order they are written.

  predicate NamedAsTier(v: Json) {
    HasNames(v, [
      "min_context_tokens", "input_cost_per_token", "output_cost_per_token", "cache_read_input_token_cost",
      "cache_creation_input_token_cost", "input_cost_per_audio_token", "output_cost_per_audio_token",
      "output_cost_per_reasoning_token"
    ])
  }

  predicate NamedAsPricing(v: Json) {
    HasNames(v, [
      "input_cost_per_token", "output_cost_per_token", "cache_read_input_token_cost",
      "cache_creation_input_token_cost", "input_cost_per_audio_token", "output_cost_per_audio_token",
      "output_cost_per_reasoning_token", "tiers"
    ])
  }

  predicate NamedAsLimit(v: Json) {
    HasNames(v, ["context", "input", "output"])
  }

  predicate NamedAsModalities(v: Json) {
    HasNames(v, ["input", "output"])
  }

  predicate NamedAsCapabilities(v: Json) {
    HasNames(v, [
      "vision", "function_calling", "reasoning", "structured_output", "audio_input", "audio_output",
      "prompt_caching", "attachment", "open_weights"
    ])
  }

  predicate NamedAsModel(v: Json) {
    HasNames(v, [
      "id", "name", "pricing", "limit", "modalities", "mode", "capabilities", "shape", "family", "knowledge",
      "release_date", "last_updated"
    ])
  }

  predicate NamedAsProvider(v: Json) {
    HasNames(v, ["name", "env", "doc", "api", "npm", "models"])
  }

  predicate NamedAsProvenance(v: Json) {
    HasNames(v, ["source", "source_sha256", "fetched", "library_version"])
  }

  predicate NamedAsDocument(v: Json) {
    HasNames(v, ["$provenance", "$schema_version", "providers"])
  }

  predicate RatesStand(v: Json, rates: Rates) {
    && IsPrice(Under(v, "input_cost_per_token"), rates.input)
    && IsPrice(Under(v, "output_cost_per_token"), rates.output)
    && IsPriceIfAny(Under(v, "cache_read_input_token_cost"), rates.cacheRead)
    && IsPriceIfAny(Under(v, "cache_creation_input_token_cost"), rates.cacheWrite)
    && IsPriceIfAny(Under(v, "input_cost_per_audio_token"), rates.inputAudio)
    && IsPriceIfAny(Under(v, "output_cost_per_audio_token"), rates.outputAudio)
    && IsPriceIfAny(Under(v, "output_cost_per_reasoning_token"), rates.reasoning)
  }

  predicate TierStands(v: Json, tier: CostTier) {
    && NamedAsTier(v)
    && IsCount(Under(v, "min_context_tokens"), tier.size) && RatesStand(v, tier.rates)
  }

  predicate HasTier(elements: seq<Json>, tier: CostTier) {
    exists k :: 0 <= k < |elements| && TierStands(elements[k], tier)
  }

  predicate Ascend(lower: Json, upper: Json) {
    var a, b := Under(lower, "min_context_tokens"), Under(upper, "min_context_tokens");
    IsNumeral(a) && IsNumeral(b) && Amount(a) < Amount(b)
  }

  // Nothing if there are no tiers; otherwise as many as upstream, every one of them, in ascending order.
  predicate TiersStand(v: Option<Json>, tiers: seq<CostTier>) {
    if tiers == [] then v.None?
    else
      && v.Some? && v.value.Array? && |Elements(v.value.items)| == |tiers|
      && (forall j, k :: 0 <= j < k < |tiers| ==> Ascend(Elements(v.value.items)[j], Elements(v.value.items)[k]))
      && forall k :: 0 <= k < |tiers| ==> HasTier(Elements(v.value.items), tiers[k])
  }

  predicate PricingStands(v: Option<Json>, cost: Option<OutputCost>) {
    if cost.None? then v.None?
    else
      && v.Some? && NamedAsPricing(v.value) && RatesStand(v.value, cost.value.rates)
      && TiersStand(Under(v.value, "tiers"), if cost.value.tiers.None? then [] else cost.value.tiers.value)
  }

  predicate LimitsStand(v: Option<Json>, limit: Limit) {
    && v.Some? && NamedAsLimit(v.value) && IsLimit(Under(v.value, "context"), limit.context)
    && IsLimitIfAny(Under(v.value, "input"), limit.input) && IsLimit(Under(v.value, "output"), limit.output)
  }

  predicate ModalitiesStand(v: Option<Json>, modalities: Modalities) {
    && v.Some? && NamedAsModalities(v.value)
    && AreModalities(Under(v.value, "input"), modalities.input)
    && AreModalities(Under(v.value, "output"), modalities.output)
  }

  predicate CapabilitiesStand(v: Option<Json>, model: Model) {
    && v.Some? && NamedAsCapabilities(v.value)
    && IsFlag(Under(v.value, "vision"), Image in model.modalities.input)
    && IsFlag(Under(v.value, "function_calling"), model.toolCall)
    && IsFlag(Under(v.value, "reasoning"), model.reasoning)
    && IsFlag(Under(v.value, "structured_output"), model.structuredOutput == Some(true))
    && IsFlag(Under(v.value, "audio_input"), Audio in model.modalities.input)
    && IsFlag(Under(v.value, "audio_output"), Audio in model.modalities.output)
    && IsFlag(Under(v.value, "prompt_caching"),
              model.cost.Some? && (model.cost.value.rates.cacheRead.Some? || model.cost.value.rates.cacheWrite.Some?))
    && IsFlag(Under(v.value, "attachment"), model.attachment)
    && IsFlag(Under(v.value, "open_weights"), model.openWeights)
  }

  predicate TextsStand(v: Json, model: Model) {
    && IsText(Under(v, "id"), model.id) && IsText(Under(v, "name"), model.name)
    && IsTextIfAny(Under(v, "family"), model.family) && IsTextIfAny(Under(v, "knowledge"), model.knowledge)
    && IsText(Under(v, "release_date"), model.releaseDate) && IsText(Under(v, "last_updated"), model.lastUpdated)
  }

  predicate ModelStands(v: Json, model: Model) {
    && NamedAsModel(v) && TextsStand(v, model)
    && IsShape(Under(v, "shape"), model.shape)
    && IsMode(Under(v, "mode"), model.modalities.input, model.modalities.output)
    && PricingStands(Under(v, "pricing"), model.cost)
    && LimitsStand(Under(v, "limit"), model.limit)
    && ModalitiesStand(Under(v, "modalities"), model.modalities)
    && CapabilitiesStand(Under(v, "capabilities"), model)
  }

  // Every upstream model under its id, in order, and no other.
  predicate ModelsStand(v: Option<Json>, models: Ordered<Model>) {
    && v.Some? && v.value.Object? && |Entries(v.value.members)| == |models|
    && forall k :: 0 <= k < |models| ==>
         Entries(v.value.members)[k].0 == models[k].0 && ModelStands(Entries(v.value.members)[k].1, models[k].1)
  }

  predicate ProviderStands(v: Json, provider: Provider) {
    && NamedAsProvider(v)
    && IsText(Under(v, "name"), provider.name) && AreTexts(Under(v, "env"), provider.env)
    && IsText(Under(v, "doc"), provider.doc) && IsTextIfAny(Under(v, "api"), provider.api)
    && IsText(Under(v, "npm"), provider.npm) && ModelsStand(Under(v, "models"), provider.models)
  }

  predicate ProvidersStand(v: Option<Json>, catalog: UpstreamCatalog) {
    && v.Some? && v.value.Object? && |Entries(v.value.members)| == |catalog|
    && forall k :: 0 <= k < |catalog| ==>
         Entries(v.value.members)[k].0 == catalog[k].0 && ProviderStands(Entries(v.value.members)[k].1, catalog[k].1)
  }

  predicate ProvenanceStands(v: Option<Json>, p: Provenance) {
    && v.Some? && NamedAsProvenance(v.value)
    && IsText(Under(v.value, "source"), p.source) && IsText(Under(v.value, "source_sha256"), p.sourceSha256)
    && IsText(Under(v.value, "fetched"), p.fetched) && IsText(Under(v.value, "library_version"), p.libraryVersion)
  }

  predicate CatalogStands(v: Json, catalog: UpstreamCatalog, provenance: Provenance) {
    && NamedAsDocument(v)
    && ProvenanceStands(Under(v, "$provenance"), provenance)
    && IsCount(Under(v, "$schema_version"), 1)
    && ProvidersStand(Under(v, "providers"), catalog)
  }
}
