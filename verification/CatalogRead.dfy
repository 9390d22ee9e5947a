/**
 Reading the generated document: a reader that looks members up by name, and what it gets back from the
 printed text.
 */
module CatalogRead {
  import opened Wrappers
  import opened Json
  import opened Decimal
  import opened CostText
  import opened Catalog
  import opened Transform
  import opened CatalogJson
  import RenderFields
  import RenderText

  /// Members by name

  // Of members with the same name the last one counts.
  function Lookup(members: Members, name: string): Option<Json> {
    match members
    case NoMembers => None
    case Member(key, value, rest) =>
      var later := Lookup(rest, name);
      if later.Some? then later else if key == name then Some(value) else None
  }

  function Get(v: Json, key: Key): Option<Json> {
    if v.Object? then Lookup(v.members, Spelling(key)) else None
  }

  ghost predicate DistinctNames(table: Table) {
    forall j, k :: 0 <= j < k < |table| ==> Spelling(table[j].0) != Spelling(table[k].0)
  }

  lemma {:induction false} NotPresent(table: Table, i: nat, name: string)
    requires forall k :: i <= k < |table| ==> Spelling(table[k].0) != name
    ensures Lookup(Present(table, i), name) == None
    decreases |table| - i
  {
    hide Spelling;
    if i < |table| {
      NotPresent(table, i + 1, name);
    }
  }

  lemma {:induction false} LookupPresent(table: Table, i: nat, k: nat)
    requires i <= k < |table| && DistinctNames(table)
    ensures Lookup(Present(table, i), Spelling(table[k].0)) == table[k].1
    decreases |table| - i
  {
    hide Spelling;
    if i < k {
      LookupPresent(table, i + 1, k);
    } else {
      NotPresent(table, i + 1, Spelling(table[k].0));
    }
  }

  lemma GetField(table: Table, k: nat)
    requires k < |table| && DistinctNames(table)
    ensures Get(Fields(table), table[k].0) == table[k].1
  {
    hide Spelling, DistinctNames, Present;
    LookupPresent(table, 0, k);
  }

  /// Values

  function AsString(v: Option<Json>): Option<string> {
    if v.Some? && v.value.String? then Some(v.value.s) else None
  }

  function AsBool(v: Option<Json>): Option<bool> {
    if v.Some? && v.value.Bool? then Some(v.value.b) else None
  }

  function AsCost(v: Option<Json>): Option<F64> {
    if v.Some? && v.value.Number? && IsNumber(v.value.lexeme) then Some(Finite(NumeralValue(v.value.lexeme))) else None
  }

  function AsCount(v: Option<Json>): Option<nat> {
    if v.Some? && v.value.Number? && IsNumber(v.value.lexeme) && NumeralValue(v.value.lexeme) >= 0.0
    then Some(NumeralValue(v.value.lexeme).Floor)
    else None
  }

  // A member that may be left out.
  function IfThere<T>(v: Option<Json>, read: Option<Json> -> Option<T>): Option<Option<T>> {
    if v.None? then Some(None) else if read(v).None? then None else Some(Some(read(v).value))
  }

  function StringsOf(items: Items): Option<seq<string>> {
    match items
    case NoItems => Some([])
    case Item(value, more) =>
      var others := StringsOf(more);
      if value.String? && others.Some? then Some([value.s] + others.value) else None
  }

  function AsStrings(v: Option<Json>): Option<seq<string>> {
    if v.Some? && v.value.Array? then StringsOf(v.value.items) else None
  }

  /// The document

  function ReadCosts(v: Json): Option<Costs> {
    var input, output := AsCost(Get(v, InputCostKey)), AsCost(Get(v, OutputCostKey));
    var cacheRead := IfThere(Get(v, CacheReadCostKey), AsCost);
    var cacheCreation := IfThere(Get(v, CacheCreationCostKey), AsCost);
    var inputAudio := IfThere(Get(v, InputAudioCostKey), AsCost);
    var outputAudio := IfThere(Get(v, OutputAudioCostKey), AsCost);
    var reasoning := IfThere(Get(v, ReasoningCostKey), AsCost);
    if input.Some? && output.Some? && cacheRead.Some? && cacheCreation.Some? && inputAudio.Some? && outputAudio.Some?
       && reasoning.Some?
    then Some(Costs(input.value, output.value, cacheRead.value, cacheCreation.value, inputAudio.value,
                    outputAudio.value, reasoning.value))
    else None
  }

  function ReadTier(v: Json): Option<PricingTier> {
    var size, costs := AsCount(Get(v, MinContextTokensKey)), ReadCosts(v);
    if size.Some? && costs.Some? then Some(PricingTier(size.value, costs.value)) else None
  }

  function ReadTiers(items: Items): Option<seq<PricingTier>> {
    match items
    case NoItems => Some([])
    case Item(value, more) =>
      var tier, others := ReadTier(value), ReadTiers(more);
      if tier.Some? && others.Some? then Some([tier.value] + others.value) else None
  }

  function AsTiers(v: Option<Json>): Option<seq<PricingTier>> {
    if v.None? then Some([]) else if v.value.Array? then ReadTiers(v.value.items) else None
  }

  function AsPricing(v: Option<Json>): Option<Pricing> {
    if v.None? then None else
    var costs, tiers := ReadCosts(v.value), AsTiers(Get(v.value, TiersKey));
    if costs.Some? && tiers.Some? then Some(Pricing(costs.value, tiers.value)) else None
  }

  function AsLimits(v: Option<Json>): Option<TokenLimits> {
    if v.None? then None else
    var context, output := AsCount(Get(v.value, ContextKey)), AsCount(Get(v.value, OutputKey));
    var input := IfThere(Get(v.value, InputKey), AsCount);
    if context.Some? && input.Some? && output.Some?
    then Some(TokenLimits(context.value, input.value, output.value))
    else None
  }

  function AsModalities(v: Option<Json>): Option<ModalityNames> {
    if v.None? then None else
    var input, output := AsStrings(Get(v.value, InputKey)), AsStrings(Get(v.value, OutputKey));
    if input.Some? && output.Some? then Some(ModalityNames(input.value, output.value)) else None
  }

  function AsCapabilities(v: Option<Json>): Option<Capabilities> {
    if v.None? then None else
    var vision, functionCalling := AsBool(Get(v.value, VisionKey)), AsBool(Get(v.value, FunctionCallingKey));
    var reasoning := AsBool(Get(v.value, ReasoningKey));
    var structuredOutput := AsBool(Get(v.value, StructuredOutputKey));
    var audioInput, audioOutput := AsBool(Get(v.value, AudioInputKey)), AsBool(Get(v.value, AudioOutputKey));
    var promptCaching, attachment := AsBool(Get(v.value, PromptCachingKey)), AsBool(Get(v.value, AttachmentKey));
    var openWeights := AsBool(Get(v.value, OpenWeightsKey));
    if vision.Some? && functionCalling.Some? && reasoning.Some? && structuredOutput.Some? && audioInput.Some?
       && audioOutput.Some? && promptCaching.Some? && attachment.Some? && openWeights.Some?
    then Some(Capabilities(vision.value, functionCalling.value, reasoning.value, structuredOutput.value,
                           audioInput.value, audioOutput.value, promptCaching.value, attachment.value,
                           openWeights.value))
    else None
  }

  function ReadModel(v: Json): Option<ModelEntry> {
    var id, name := AsString(Get(v, IdKey)), AsString(Get(v, NameKey));
    var pricing := IfThere(Get(v, PricingKey), AsPricing);
    var limit, modalities := AsLimits(Get(v, LimitKey)), AsModalities(Get(v, ModalitiesKey));
    var mode, capabilities := IfThere(Get(v, ModeKey), AsString), AsCapabilities(Get(v, CapabilitiesKey));
    var shape, family := IfThere(Get(v, ShapeKey), AsString), IfThere(Get(v, FamilyKey), AsString);
    var knowledge := IfThere(Get(v, KnowledgeKey), AsString);
    var releaseDate, lastUpdated := AsString(Get(v, ReleaseDateKey)), AsString(Get(v, LastUpdatedKey));
    if id.Some? && name.Some? && pricing.Some? && limit.Some? && modalities.Some? && mode.Some? && capabilities.Some?
       && shape.Some? && family.Some? && knowledge.Some? && releaseDate.Some? && lastUpdated.Some?
    then Some(ModelEntry(id.value, name.value, pricing.value, limit.value, modalities.value, mode.value,
                         capabilities.value, shape.value, family.value, knowledge.value, releaseDate.value,
                         lastUpdated.value))
    else None
  }

  function ReadModels(members: Members): Option<Ordered<ModelEntry>> {
    match members
    case NoMembers => Some([])
    case Member(key, value, rest) =>
      var model, others := ReadModel(value), ReadModels(rest);
      if model.Some? && others.Some? then Some([(key, model.value)] + others.value) else None
  }

  function AsModels(v: Option<Json>): Option<Ordered<ModelEntry>> {
    if v.Some? && v.value.Object? then ReadModels(v.value.members) else None
  }

  function ReadProvider(v: Json): Option<ProviderEntry> {
    var name, env, doc := AsString(Get(v, NameKey)), AsStrings(Get(v, EnvKey)), AsString(Get(v, DocKey));
    var api, npm, models := IfThere(Get(v, ApiKey), AsString), AsString(Get(v, NpmKey)), AsModels(Get(v, ModelsKey));
    if name.Some? && env.Some? && doc.Some? && api.Some? && npm.Some? && models.Some?
    then Some(ProviderEntry(name.value, env.value, doc.value, api.value, npm.value, models.value))
    else None
  }

  function ReadProviders(members: Members): Option<CatalogDocument> {
    match members
    case NoMembers => Some([])
    case Member(key, value, rest) =>
      var provider, others := ReadProvider(value), ReadProviders(rest);
      if provider.Some? && others.Some? then Some([(key, provider.value)] + others.value) else None
  }

  function AsProviders(v: Option<Json>): Option<CatalogDocument> {
    if v.Some? && v.value.Object? then ReadProviders(v.value.members) else None
  }

  function AsProvenance(v: Option<Json>): Option<Provenance> {
    if v.None? then None else
    var source, digest := AsString(Get(v.value, SourceKey)), AsString(Get(v.value, SourceSha256Key));
    var fetched, version := AsString(Get(v.value, FetchedKey)), AsString(Get(v.value, LibraryVersionKey));
    if source.Some? && digest.Some? && fetched.Some? && version.Some?
    then Some(Provenance(source.value, digest.value, fetched.value, version.value))
    else None
  }

  datatype Contents = Contents(provenance: Provenance, schemaVersion: nat, providers: CatalogDocument)

  function ReadDocument(v: Json): Option<Contents> {
    var provenance, version := AsProvenance(Get(v, ProvenanceKey)), AsCount(Get(v, SchemaVersionKey));
    var providers := AsProviders(Get(v, ProvidersKey));
    if provenance.Some? && version.Some? && providers.Some?
    then Some(Contents(provenance.value, version.value, providers.value))
    else None
  }

  /// What is expected: the document with every cost rounded to 15 decimals

  function RoundCost(value: F64): F64 {
    if value.Finite? then Finite(Rounded(value.r)) else value
  }

  function RoundCosts(costs: Costs): Costs {
    Costs(RoundCost(costs.input), RoundCost(costs.output), MapOption(RoundCost, costs.cacheRead),
          MapOption(RoundCost, costs.cacheCreation), MapOption(RoundCost, costs.inputAudio),
          MapOption(RoundCost, costs.outputAudio), MapOption(RoundCost, costs.reasoning))
  }

  function RoundTier(tier: PricingTier): PricingTier {
    PricingTier(tier.minContextTokens, RoundCosts(tier.costs))
  }

  function RoundPricing(pricing: Pricing): Pricing {
    Pricing(RoundCosts(pricing.costs), Map(RoundTier, pricing.tiers))
  }

  function RoundModel(model: ModelEntry): ModelEntry {
    model.(pricing := MapOption(RoundPricing, model.pricing))
  }

  function RoundModelEntry(entry: (string, ModelEntry)): (string, ModelEntry) {
    (entry.0, RoundModel(entry.1))
  }

  function RoundProvider(provider: ProviderEntry): ProviderEntry {
    provider.(models := Map(RoundModelEntry, provider.models))
  }

  function RoundProviderEntry(entry: (string, ProviderEntry)): (string, ProviderEntry) {
    (entry.0, RoundProvider(entry.1))
  }

  function RoundDocument(catalog: CatalogDocument): CatalogDocument {
    Map(RoundProviderEntry, catalog)
  }

  /// Names

  // Enough of a name to tell it from the others of its object.
  predicate Looks(key: Key, length: nat, first: char) {
    |Spelling(key)| == length > 0 && Spelling(key)[0] == first
  }

  lemma LookDifferent(a: Key, m: nat, c: char, b: Key, n: nat, d: char)
    requires Looks(a, m, c) && Looks(b, n, d) && (m != n || c != d)
    ensures Spelling(a) != Spelling(b)
  {
  }

  // The names of a table differ when their marks do.
  lemma DistinctBy(table: Table, marks: seq<(nat, char)>)
    requires |table| == |marks|
    requires forall k :: 0 <= k < |table| ==> Looks(table[k].0, marks[k].0, marks[k].1)
    requires forall j, k :: 0 <= j < k < |marks| ==> marks[j] != marks[k]
    ensures DistinctNames(table)
  {
    hide Looks, Spelling;
    forall j, k | 0 <= j < k < |table| ensures Spelling(table[j].0) != Spelling(table[k].0) {
      assert marks[j] != marks[k];
      LookDifferent(table[j].0, marks[j].0, marks[j].1, table[k].0, marks[k].0, marks[k].1);
    }
  }

  lemma CostLooks1()
    ensures Looks(InputCostKey, 20, 'i') && Looks(OutputCostKey, 21, 'o') && Looks(CacheReadCostKey, 27, 'c')
  {
  }

  lemma CostLooks2()
    ensures Looks(CacheCreationCostKey, 31, 'c') && Looks(InputAudioCostKey, 26, 'i')
        && Looks(OutputAudioCostKey, 27, 'o')
  {
  }

  lemma CostLooks3()
    ensures Looks(ReasoningCostKey, 31, 'o') && Looks(TiersKey, 5, 't') && Looks(MinContextTokensKey, 18, 'm')
  {
  }

  lemma CostLooks()
    ensures Looks(InputCostKey, 20, 'i') && Looks(OutputCostKey, 21, 'o')
    ensures Looks(CacheReadCostKey, 27, 'c') && Looks(CacheCreationCostKey, 31, 'c')
    ensures Looks(InputAudioCostKey, 26, 'i') && Looks(OutputAudioCostKey, 27, 'o') && Looks(ReasoningCostKey, 31, 'o')
    ensures Looks(TiersKey, 5, 't') && Looks(MinContextTokensKey, 18, 'm')
  {
    hide *;
    CostLooks1();
    CostLooks2();
    CostLooks3();
  }

  const COST_MARKS: seq<(nat, char)> := [(20, 'i'), (21, 'o'), (27, 'c'), (31, 'c'), (26, 'i'), (27, 'o'), (31, 'o')]

  lemma TierNames(tier: PricingTier)
    ensures DistinctNames(TierTable(tier))
  {
    hide Looks, Spelling, Count, CostNumber, OptionalCost, DistinctNames;
    CostLooks();
    DistinctBy(TierTable(tier), [(18, 'm')] + COST_MARKS);
  }

  lemma PricingNames(pricing: Pricing)
    ensures DistinctNames(PricingTable(pricing))
  {
    hide Looks, Spelling, CostNumber, OptionalCost, DistinctNames, TierItems;
    CostLooks();
    DistinctBy(PricingTable(pricing), COST_MARKS + [(5, 't')]);
  }

  lemma LimitLooks()
    ensures Looks(ContextKey, 7, 'c') && Looks(InputKey, 5, 'i') && Looks(OutputKey, 6, 'o')
  {
  }

  lemma LimitNames(limit: TokenLimits)
    ensures DistinctNames(LimitTable(limit))
  {
    LimitLooks();
    hide Looks, Spelling, Count, DistinctNames;
    DistinctBy(LimitTable(limit), [(7, 'c'), (5, 'i'), (6, 'o')]);
  }

  lemma ModalitiesNames(modalities: ModalityNames)
    ensures DistinctNames(ModalitiesTable(modalities))
  {
    LimitLooks();
    hide Looks, Spelling, Strings, DistinctNames;
    DistinctBy(ModalitiesTable(modalities), [(5, 'i'), (6, 'o')]);
  }

  lemma CapabilityLooks1()
    ensures Looks(VisionKey, 6, 'v') && Looks(FunctionCallingKey, 16, 'f') && Looks(ReasoningKey, 9, 'r')
  {
  }

  lemma CapabilityLooks2()
    ensures Looks(StructuredOutputKey, 17, 's') && Looks(AudioInputKey, 11, 'a') && Looks(AudioOutputKey, 12, 'a')
  {
  }

  lemma CapabilityLooks3()
    ensures Looks(PromptCachingKey, 14, 'p') && Looks(AttachmentKey, 10, 'a') && Looks(OpenWeightsKey, 12, 'o')
  {
  }

  lemma CapabilityLooks()
    ensures Looks(VisionKey, 6, 'v') && Looks(FunctionCallingKey, 16, 'f') && Looks(ReasoningKey, 9, 'r')
    ensures Looks(StructuredOutputKey, 17, 's') && Looks(AudioInputKey, 11, 'a') && Looks(AudioOutputKey, 12, 'a')
    ensures Looks(PromptCachingKey, 14, 'p') && Looks(AttachmentKey, 10, 'a') && Looks(OpenWeightsKey, 12, 'o')
  {
    hide *;
    CapabilityLooks1();
    CapabilityLooks2();
    CapabilityLooks3();
  }

  lemma CapabilityNames(c: Capabilities)
    ensures DistinctNames(CapabilitiesTable(c))
  {
    hide *;
    CapabilityLooks();
    CapabilityKeys(c);
    DistinctBy(CapabilitiesTable(c), [(6, 'v'), (16, 'f'), (9, 'r'), (17, 's'), (11, 'a'), (12, 'a'), (14, 'p'),
                                      (10, 'a'), (12, 'o')]);
  }

  lemma CapabilityKeys(c: Capabilities)
    ensures var table := CapabilitiesTable(c);
            && |table| == 9
            && table[0] == (VisionKey, Some(Bool(c.vision)))
              && table[1] == (FunctionCallingKey, Some(Bool(c.functionCalling)))
            && table[2] == (ReasoningKey, Some(Bool(c.reasoning)))
            && table[3] == (StructuredOutputKey, Some(Bool(c.structuredOutput)))
            && table[4] == (AudioInputKey, Some(Bool(c.audioInput)))
              && table[5] == (AudioOutputKey, Some(Bool(c.audioOutput)))
            && table[6] == (PromptCachingKey, Some(Bool(c.promptCaching)))
            && table[7] == (AttachmentKey, Some(Bool(c.attachment)))
              && table[8] == (OpenWeightsKey, Some(Bool(c.openWeights)))
  {
    var flags := CapabilityFlags(c);
    assert |flags| == 9;
  }

  lemma ModelLooks1()
    ensures Looks(IdKey, 2, 'i') && Looks(NameKey, 4, 'n') && Looks(PricingKey, 7, 'p')
  {
  }

  lemma ModelLooks2()
    ensures Looks(LimitKey, 5, 'l') && Looks(ModalitiesKey, 10, 'm') && Looks(ModeKey, 4, 'm')
  {
  }

  lemma ModelLooks3()
    ensures Looks(CapabilitiesKey, 12, 'c') && Looks(ShapeKey, 5, 's') && Looks(FamilyKey, 6, 'f')
  {
  }

  lemma ModelLooks4()
    ensures Looks(KnowledgeKey, 9, 'k') && Looks(ReleaseDateKey, 12, 'r') && Looks(LastUpdatedKey, 12, 'l')
  {
  }

  lemma ModelLooks()
    ensures Looks(IdKey, 2, 'i') && Looks(NameKey, 4, 'n') && Looks(PricingKey, 7, 'p') && Looks(LimitKey, 5, 'l')
    ensures Looks(ModalitiesKey, 10, 'm') && Looks(ModeKey, 4, 'm') && Looks(CapabilitiesKey, 12, 'c')
    ensures Looks(ShapeKey, 5, 's') && Looks(FamilyKey, 6, 'f') && Looks(KnowledgeKey, 9, 'k')
    ensures Looks(ReleaseDateKey, 12, 'r') && Looks(LastUpdatedKey, 12, 'l')
  {
    hide *;
    ModelLooks1();
    ModelLooks2();
    ModelLooks3();
    ModelLooks4();
  }

  lemma ModelNames(m: ModelEntry)
    ensures DistinctNames(ModelTable(m))
  {
    hide *;
    ModelLooks();
    RenderFields.ModelRows(m);
    DistinctBy(ModelTable(m), [(2, 'i'), (4, 'n'), (7, 'p'), (5, 'l'), (10, 'm'), (4, 'm'), (12, 'c'), (5, 's'),
                               (6, 'f'), (9, 'k'), (12, 'r'), (12, 'l')]);
  }

  lemma ProviderLooks1()
    ensures Looks(NameKey, 4, 'n') && Looks(EnvKey, 3, 'e') && Looks(DocKey, 3, 'd')
  {
  }

  lemma ProviderLooks2()
    ensures Looks(ApiKey, 3, 'a') && Looks(NpmKey, 3, 'n') && Looks(ModelsKey, 6, 'm')
  {
  }

  lemma ProviderLooks()
    ensures Looks(NameKey, 4, 'n') && Looks(EnvKey, 3, 'e') && Looks(DocKey, 3, 'd') && Looks(ApiKey, 3, 'a')
    ensures Looks(NpmKey, 3, 'n') && Looks(ModelsKey, 6, 'm')
  {
    hide *;
    ProviderLooks1();
    ProviderLooks2();
  }

  lemma ProviderNames(p: ProviderEntry)
    ensures DistinctNames(ProviderTable(p))
  {
    hide *;
    ProviderLooks();
    RenderText.ProviderRows(p);
    DistinctBy(ProviderTable(p), [(4, 'n'), (3, 'e'), (3, 'd'), (3, 'a'), (3, 'n'), (6, 'm')]);
  }

  lemma ProvenanceLooks()
    ensures Looks(SourceKey, 6, 's') && Looks(SourceSha256Key, 13, 's') && Looks(FetchedKey, 7, 'f')
  {
  }

  lemma VersionLooks()
    ensures Looks(LibraryVersionKey, 15, 'l')
  {
  }

  lemma ProvenanceNames(p: Provenance)
    ensures DistinctNames(ProvenanceTable(p))
  {
    hide *;
    ProvenanceLooks();
    VersionLooks();
    RenderText.ProvenanceRows(p);
    DistinctBy(ProvenanceTable(p), [(6, 's'), (13, 's'), (7, 'f'), (15, 'l')]);
  }

  lemma DocumentLooks()
    ensures Looks(ProvenanceKey, 11, '$') && Looks(SchemaVersionKey, 15, '$') && Looks(ProvidersKey, 9, 'p')
  {
  }

  lemma DocumentNames(catalog: CatalogDocument, provenance: Provenance)
    ensures DistinctNames(DocumentTable(catalog, provenance))
  {
    hide *;
    DocumentLooks();
    RenderText.DocumentRows(catalog, provenance);
    DistinctBy(DocumentTable(catalog, provenance), [(11, '$'), (15, '$'), (9, 'p')]);
  }
}
