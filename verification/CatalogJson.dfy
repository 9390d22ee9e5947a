/**
 The generated document as a JSON value: which members there are, in which order, and what they hold.
 */
module CatalogJson {
  import opened Wrappers
  import opened Json
  import opened Decimal
  import opened Catalog
  import opened Transform

  datatype Provenance = Provenance(source: string, sourceSha256: string, fetched: string, libraryVersion: string)

  // A member name that stands in the source code, so it is written without escaping.
  predicate NeedsNoEscape(s: string) {
    forall k :: 0 <= k < |s| ==> s[k] >= ' ' && s[k] != '"' && s[k] != '\\'
  }

  type Name = s: string | NeedsNoEscape(s) witness ""

  const PROVENANCE: Name := "$provenance"
  const SCHEMA_VERSION: Name := "$schema_version"
  const PROVIDERS: Name := "providers"
  const SOURCE: Name := "source"
  const SOURCE_SHA256: Name := "source_sha256"
  const FETCHED: Name := "fetched"
  const LIBRARY_VERSION: Name := "library_version"
  const NAME: Name := "name"
  const ENV: Name := "env"
  const DOC: Name := "doc"
  const API: Name := "api"
  const NPM: Name := "npm"
  const MODELS: Name := "models"
  const ID: Name := "id"
  const PRICING: Name := "pricing"
  const LIMIT: Name := "limit"
  const MODALITIES: Name := "modalities"
  const MODE: Name := "mode"
  const CAPABILITIES: Name := "capabilities"
  const SHAPE: Name := "shape"
  const FAMILY: Name := "family"
  const KNOWLEDGE: Name := "knowledge"
  const RELEASE_DATE: Name := "release_date"
  const LAST_UPDATED: Name := "last_updated"
  const INPUT_COST: Name := "input_cost_per_token"
  const OUTPUT_COST: Name := "output_cost_per_token"
  const CACHE_READ_COST: Name := "cache_read_input_token_cost"
  const CACHE_CREATION_COST: Name := "cache_creation_input_token_cost"
  const INPUT_AUDIO_COST: Name := "input_cost_per_audio_token"
  const OUTPUT_AUDIO_COST: Name := "output_cost_per_audio_token"
  const REASONING_COST: Name := "output_cost_per_reasoning_token"
  const TIERS: Name := "tiers"
  const MIN_CONTEXT_TOKENS: Name := "min_context_tokens"
  const CONTEXT: Name := "context"
  const INPUT: Name := "input"
  const OUTPUT: Name := "output"
  const VISION: Name := "vision"
  const FUNCTION_CALLING: Name := "function_calling"
  const REASONING: Name := "reasoning"
  const STRUCTURED_OUTPUT: Name := "structured_output"
  const AUDIO_INPUT: Name := "audio_input"
  const AUDIO_OUTPUT: Name := "audio_output"
  const PROMPT_CACHING: Name := "prompt_caching"
  const ATTACHMENT: Name := "attachment"
  const OPEN_WEIGHTS: Name := "open_weights"

  // The members of the document's objects.
  datatype Key =
    | ProvenanceKey | SchemaVersionKey | ProvidersKey | SourceKey | SourceSha256Key | FetchedKey
    | LibraryVersionKey | NameKey | EnvKey | DocKey | ApiKey | NpmKey | ModelsKey | IdKey | PricingKey
    | LimitKey | ModalitiesKey | ModeKey | CapabilitiesKey | ShapeKey | FamilyKey | KnowledgeKey
    | ReleaseDateKey | LastUpdatedKey | InputCostKey | OutputCostKey | CacheReadCostKey | CacheCreationCostKey
    | InputAudioCostKey | OutputAudioCostKey | ReasoningCostKey | TiersKey | MinContextTokensKey | ContextKey
    | InputKey | OutputKey | VisionKey | FunctionCallingKey | ReasoningKey | StructuredOutputKey
    | AudioInputKey | AudioOutputKey | PromptCachingKey | AttachmentKey | OpenWeightsKey

  function Spelling(key: Key): Name {
    match key
    case ProvenanceKey => PROVENANCE
    case SchemaVersionKey => SCHEMA_VERSION
    case ProvidersKey => PROVIDERS
    case SourceKey => SOURCE
    case SourceSha256Key => SOURCE_SHA256
    case FetchedKey => FETCHED
    case LibraryVersionKey => LIBRARY_VERSION
    case NameKey => NAME
    case EnvKey => ENV
    case DocKey => DOC
    case ApiKey => API
    case NpmKey => NPM
    case ModelsKey => MODELS
    case IdKey => ID
    case PricingKey => PRICING
    case LimitKey => LIMIT
    case ModalitiesKey => MODALITIES
    case ModeKey => MODE
    case CapabilitiesKey => CAPABILITIES
    case ShapeKey => SHAPE
    case FamilyKey => FAMILY
    case KnowledgeKey => KNOWLEDGE
    case ReleaseDateKey => RELEASE_DATE
    case LastUpdatedKey => LAST_UPDATED
    case InputCostKey => INPUT_COST
    case OutputCostKey => OUTPUT_COST
    case CacheReadCostKey => CACHE_READ_COST
    case CacheCreationCostKey => CACHE_CREATION_COST
    case InputAudioCostKey => INPUT_AUDIO_COST
    case OutputAudioCostKey => OUTPUT_AUDIO_COST
    case ReasoningCostKey => REASONING_COST
    case TiersKey => TIERS
    case MinContextTokensKey => MIN_CONTEXT_TOKENS
    case ContextKey => CONTEXT
    case InputKey => INPUT
    case OutputKey => OUTPUT
    case VisionKey => VISION
    case FunctionCallingKey => FUNCTION_CALLING
    case ReasoningKey => REASONING
    case StructuredOutputKey => STRUCTURED_OUTPUT
    case AudioInputKey => AUDIO_INPUT
    case AudioOutputKey => AUDIO_OUTPUT
    case PromptCachingKey => PROMPT_CACHING
    case AttachmentKey => ATTACHMENT
    case OpenWeightsKey => OPEN_WEIGHTS
  }

  const SCHEMA_VERSION_NUMBER: nat := 1

  /// Objects with members that may be left out

  type Table = seq<(Key, Option<Json>)>

  function Present(table: Table, i: nat): Members
    decreases |table| - i
  {
    if i >= |table| then NoMembers
    else if table[i].1.None? then Present(table, i + 1)
    else Member(Spelling(table[i].0), table[i].1.value, Present(table, i + 1))
  }

  function Fields(table: Table): Json {
    Object(Present(table, 0))
  }

  function OptionalString(s: Option<string>): Option<Json> {
    if s.Some? then Some(String(s.value)) else None
  }

  function StringItems(values: seq<string>, i: nat): Items
    decreases |values| - i
  {
    if i >= |values| then NoItems else Item(String(values[i]), StringItems(values, i + 1))
  }

  function Strings(values: seq<string>): Json {
    Array(StringItems(values, 0))
  }

  function Count(n: nat): Json {
    Number(Digits(n))
  }

  function CostNumber(value: F64): Json {
    Number(FormatCost(value))
  }

  function OptionalCost(value: Option<F64>): Option<Json> {
    if value.Some? then Some(CostNumber(value.value)) else None
  }

  /// The document

  function CostTable(costs: Costs): Table {
    [ (InputCostKey, Some(CostNumber(costs.input))),
      (OutputCostKey, Some(CostNumber(costs.output))),
      (CacheReadCostKey, OptionalCost(costs.cacheRead)),
      (CacheCreationCostKey, OptionalCost(costs.cacheCreation)),
      (InputAudioCostKey, OptionalCost(costs.inputAudio)),
      (OutputAudioCostKey, OptionalCost(costs.outputAudio)),
      (ReasoningCostKey, OptionalCost(costs.reasoning)) ]
  }

  function TierTable(tier: PricingTier): Table {
    [(MinContextTokensKey, Some(Count(tier.minContextTokens)))] + CostTable(tier.costs)
  }

  function TierItems(tiers: seq<PricingTier>, i: nat): Items
    decreases |tiers| - i
  {
    if i >= |tiers| then NoItems else Item(Fields(TierTable(tiers[i])), TierItems(tiers, i + 1))
  }

  function PricingTable(pricing: Pricing): Table {
    CostTable(pricing.costs)
    + [(TiersKey, if pricing.tiers == [] then None else Some(Array(TierItems(pricing.tiers, 0))))]
  }

  function LimitTable(limit: TokenLimits): Table {
    [ (ContextKey, Some(Count(limit.context))),
      (InputKey, if limit.input.Some? then Some(Count(limit.input.value)) else None),
      (OutputKey, Some(Count(limit.output))) ]
  }

  function ModalitiesTable(modalities: ModalityNames): Table {
    [(InputKey, Some(Strings(modalities.input))), (OutputKey, Some(Strings(modalities.output)))]
  }

  function CapabilityFlags(c: Capabilities): (flags: seq<(Key, bool)>)
    ensures |flags| == 9
  {
    [ (VisionKey, c.vision), (FunctionCallingKey, c.functionCalling), (ReasoningKey, c.reasoning),
      (StructuredOutputKey, c.structuredOutput), (AudioInputKey, c.audioInput), (AudioOutputKey, c.audioOutput),
      (PromptCachingKey, c.promptCaching), (AttachmentKey, c.attachment), (OpenWeightsKey, c.openWeights) ]
  }

  function CapabilitiesTable(capabilities: Capabilities): Table {
    Map((flag: (Key, bool)) => (flag.0, Some(Bool(flag.1))), CapabilityFlags(capabilities))
  }

  function ModelTable(model: ModelEntry): Table {
    [ (IdKey, Some(String(model.id))),
      (NameKey, Some(String(model.name))),
      (PricingKey, if model.pricing.Some? then Some(Fields(PricingTable(model.pricing.value))) else None),
      (LimitKey, Some(Fields(LimitTable(model.limit)))),
      (ModalitiesKey, Some(Fields(ModalitiesTable(model.modalities)))),
      (ModeKey, OptionalString(model.mode)),
      (CapabilitiesKey, Some(Fields(CapabilitiesTable(model.capabilities)))),
      (ShapeKey, OptionalString(model.shape)),
      (FamilyKey, OptionalString(model.family)),
      (KnowledgeKey, OptionalString(model.knowledge)),
      (ReleaseDateKey, Some(String(model.releaseDate))),
      (LastUpdatedKey, Some(String(model.lastUpdated))) ]
  }

  function ModelMembers(models: Ordered<ModelEntry>, i: nat): Members
    decreases |models| - i
  {
    if i >= |models| then NoMembers
    else Member(models[i].0, Fields(ModelTable(models[i].1)), ModelMembers(models, i + 1))
  }

  function ProviderTable(provider: ProviderEntry): Table {
    [ (NameKey, Some(String(provider.name))),
      (EnvKey, Some(Strings(provider.env))),
      (DocKey, Some(String(provider.doc))),
      (ApiKey, OptionalString(provider.api)),
      (NpmKey, Some(String(provider.npm))),
      (ModelsKey, Some(Object(ModelMembers(provider.models, 0)))) ]
  }

  function ProviderMembers(catalog: CatalogDocument, i: nat): Members
    decreases |catalog| - i
  {
    if i >= |catalog| then NoMembers
    else Member(catalog[i].0, Fields(ProviderTable(catalog[i].1)), ProviderMembers(catalog, i + 1))
  }

  function ProvenanceTable(provenance: Provenance): Table {
    [ (SourceKey, Some(String(provenance.source))),
      (SourceSha256Key, Some(String(provenance.sourceSha256))),
      (FetchedKey, Some(String(provenance.fetched))),
      (LibraryVersionKey, Some(String(provenance.libraryVersion))) ]
  }

  function DocumentTable(catalog: CatalogDocument, provenance: Provenance): Table {
    [ (ProvenanceKey, Some(Fields(ProvenanceTable(provenance)))),
      (SchemaVersionKey, Some(Count(SCHEMA_VERSION_NUMBER))),
      (ProvidersKey, Some(Object(ProviderMembers(catalog, 0)))) ]
  }

  function DocumentJson(catalog: CatalogDocument, provenance: Provenance): Json {
    Fields(DocumentTable(catalog, provenance))
  }
}
