/** The upstream catalog of models, as deserialized, and the errors of its generator. */
module Catalog {
  import opened Wrappers
  import opened Decimal

  // The fields of a cost that is always there and those of the optional ones, in the order they are declared.
  datatype Rates = Rates(
    input: F64,
    output: F64,
    reasoning: Option<F64>,
    cacheRead: Option<F64>,
    cacheWrite: Option<F64>,
    inputAudio: Option<F64>,
    outputAudio: Option<F64>)

  datatype CostTier = CostTier(rates: Rates, size: nat)

  datatype OutputCost = OutputCost(rates: Rates, tiers: Option<seq<CostTier>>)

  datatype Modality = Text | Audio | Image | Video | Pdf

  datatype Modalities = Modalities(input: seq<Modality>, output: seq<Modality>)

  datatype ProviderShape = Responses | Completions

  datatype Limit = Limit(context: F64, input: Option<F64>, output: F64)

  datatype Model = Model(
    id: string,
    name: string,
    family: Option<string>,
    attachment: bool,
    reasoning: bool,
    toolCall: bool,
    structuredOutput: Option<bool>,
    knowledge: Option<string>,
    releaseDate: string,
    lastUpdated: string,
    modalities: Modalities,
    openWeights: bool,
    limit: Limit,
    shape: Option<ProviderShape>,
    cost: Option<OutputCost>)

  // An ordered map, in its iteration order.
  type Ordered<V> = seq<(string, V)>

  datatype Provider = Provider(
    id: string,
    env: seq<string>,
    npm: string,
    api: Option<string>,
    name: string,
    doc: string,
    models: Ordered<Model>)

  type UpstreamCatalog = Ordered<Provider>

  /// A field path inside a model or a provider

  datatype CostField = Input | Output | Reasoning | CacheRead | CacheWrite | InputAudio | OutputAudio

  datatype Field =
    | Id | Name | Env | Npm | Doc
    | ContextLimit | InputLimit | OutputLimit
    | BaseCost(field: CostField)
    | TierCost(index: nat, field: CostField)
    | TierSize(index: nat)

  // The provider, the model (the provider again for its own fields) and the field that is not as it has to be.
  datatype Violation = Violation(provider: string, model: string, field: Field)

  datatype GenError = Invalid(violation: Violation) | RoundTrip
}
