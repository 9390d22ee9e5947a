/**
 The whole way round: what a reader gets from the printed document is the transformed catalog, complete
 and in order, with its costs rounded to 15 decimals.
 */
module CatalogReadBack {
  import opened Wrappers
  import opened Json
  import opened JsonLayout
  import opened Decimal
  import opened CostText
  import opened Catalog
  import opened Schema
  import opened Transform
  import opened CatalogJson
  import opened CatalogBuild
  import opened CatalogRead
  import Render
  import RenderFields
  import RenderText

  /// Values

  lemma CostReads(value: F64)
    requires value.Finite?
    ensures AsCost(Some(CostNumber(value))) == Some(RoundCost(value))
  {
    hide IsNumber, FormatCost, NumeralValue, Rounded;
    CostDenotes(value.r);
  }

  lemma OptionalCostReads(value: Option<F64>)
    requires FiniteIfAny(value)
    ensures IfThere(OptionalCost(value), AsCost) == Some(MapOption(RoundCost, value))
  {
    hide AsCost, CostNumber, RoundCost;
    if value.Some? {
      CostReads(value.value);
    }
  }

  lemma CountReads(n: nat)
    ensures AsCount(Some(Count(n))) == Some(n)
  {
    hide IsNumber, NumeralValue, Digits;
    WholeNumber(n);
  }

  lemma OptionalCountReads(n: Option<nat>)
    ensures IfThere(if n.Some? then Some(Count(n.value)) else None, AsCount) == Some(n)
  {
    hide AsCount, Count;
    if n.Some? {
      CountReads(n.value);
    }
  }

  lemma {:induction false} StringsRead(values: seq<string>, i: nat)
    requires i <= |values|
    ensures StringsOf(StringItems(values, i)) == Some(values[i..])
    decreases |values| - i
  {
    if i < |values| {
      StringsRead(values, i + 1);
      assert values[i..] == [values[i]] + values[i + 1..];
    } else {
      assert values[i..] == [];
    }
  }

  lemma ArrayReads(values: seq<string>)
    ensures AsStrings(Some(Strings(values))) == Some(values)
  {
    hide StringsOf, StringItems;
    StringsRead(values, 0);
    assert values[0..] == values;
  }

  lemma StringReadsBack(s: string)
    ensures AsString(Some(String(s))) == Some(s)
  {
  }

  lemma OptionalStringReads(s: Option<string>)
    ensures IfThere(OptionalString(s), AsString) == Some(s)
  {
  }

  /// Objects

  lemma CostsRead(table: Table, start: nat, costs: Costs)
    requires Render.HoldsCosts(table, start, costs) && DistinctNames(table) && FiniteCosts(costs)
    ensures ReadCosts(Fields(table)) == Some(RoundCosts(costs))
  {
    assert start + 7 <= |table|;
    hide AsCost, IfThere, Get, Fields, OptionalCost, CostNumber, RoundCost, MapOption, FiniteIfAny, DistinctNames,
         Render.HoldsCosts;
    Render.CostRows(table, start, costs);
    CostReads(costs.input);
    CostReads(costs.output);
    OptionalCostReads(costs.cacheRead);
    OptionalCostReads(costs.cacheCreation);
    OptionalCostReads(costs.inputAudio);
    OptionalCostReads(costs.outputAudio);
    OptionalCostReads(costs.reasoning);
    GetField(table, start);
    GetField(table, start + 1);
    GetField(table, start + 2);
    GetField(table, start + 3);
    GetField(table, start + 4);
    GetField(table, start + 5);
    GetField(table, start + 6);
  }

  lemma TierReads(tier: PricingTier)
    requires FiniteCosts(tier.costs)
    ensures ReadTier(Fields(TierTable(tier))) == Some(RoundTier(tier))
  {
    hide AsCount, Count, Get, Fields, ReadCosts, RoundCosts, FiniteCosts, DistinctNames, Render.HoldsCosts, TierTable;
    var table := TierTable(tier);
    Render.TierRows(tier);
    TierNames(tier);
    CostsRead(table, 1, tier.costs);
    GetField(table, 0);
    CountReads(tier.minContextTokens);
  }

  lemma {:induction false} TiersRead(tiers: seq<PricingTier>, i: nat)
    requires i <= |tiers| && forall k :: 0 <= k < |tiers| ==> FiniteCosts(tiers[k].costs)
    ensures ReadTiers(TierItems(tiers, i)) == Some(Map(RoundTier, tiers)[i..])
    decreases |tiers| - i
  {
    hide Fields, TierTable, ReadTier, RoundTier, FiniteCosts;
    if i < |tiers| {
      TierReads(tiers[i]);
      TiersRead(tiers, i + 1);
      var rounded := Map(RoundTier, tiers);
      assert rounded[i..] == [rounded[i]] + rounded[i + 1..];
    }
  }

  lemma TiersFieldReads(tiers: seq<PricingTier>)
    requires forall k :: 0 <= k < |tiers| ==> FiniteCosts(tiers[k].costs)
    ensures AsTiers(if tiers == [] then None else Some(Array(TierItems(tiers, 0)))) == Some(Map(RoundTier, tiers))
  {
    hide TierItems, ReadTiers, RoundTier, FiniteCosts;
    TiersRead(tiers, 0);
    assert Map(RoundTier, tiers)[0..] == Map(RoundTier, tiers);
  }

  lemma PricingReads(pricing: Pricing)
    requires FinitePricing(pricing)
    ensures AsPricing(Some(Fields(PricingTable(pricing)))) == Some(RoundPricing(pricing))
  {
    hide AsTiers, Get, Fields, ReadCosts, RoundCosts, FiniteCosts, DistinctNames, Render.HoldsCosts, PricingTable, Map,
         TierItems;
    var table := PricingTable(pricing);
    Render.PricingRows(pricing);
    PricingNames(pricing);
    CostsRead(table, 0, pricing.costs);
    GetField(table, 7);
    TiersFieldReads(pricing.tiers);
  }

  lemma OptionalPricingReads(m: ModelEntry)
    requires FiniteModel(m)
    ensures IfThere(if m.pricing.Some? then Some(Fields(PricingTable(m.pricing.value))) else None, AsPricing)
            == Some(MapOption(RoundPricing, m.pricing))
  {
    hide AsPricing, Fields, PricingTable, RoundPricing, FinitePricing;
    if m.pricing.Some? {
      PricingReads(m.pricing.value);
    }
  }

  lemma LimitsRead(limit: TokenLimits)
    ensures AsLimits(Some(Fields(LimitTable(limit)))) == Some(limit)
  {
    hide AsCount, Count, Get, Fields, LimitTable, DistinctNames, IfThere;
    var table := LimitTable(limit);
    RenderFields.LimitRows(limit);
    LimitNames(limit);
    GetField(table, 0);
    GetField(table, 1);
    GetField(table, 2);
    CountReads(limit.context);
    OptionalCountReads(limit.input);
    CountReads(limit.output);
  }

  lemma ModalitiesRead(modalities: ModalityNames)
    ensures AsModalities(Some(Fields(ModalitiesTable(modalities)))) == Some(modalities)
  {
    hide AsStrings, Strings, Get, Fields, ModalitiesTable, DistinctNames;
    var table := ModalitiesTable(modalities);
    RenderFields.ModalitiesRows(modalities);
    ModalitiesNames(modalities);
    GetField(table, 0);
    GetField(table, 1);
    ArrayReads(modalities.input);
    ArrayReads(modalities.output);
  }

  lemma CapabilitiesRead(c: Capabilities)
    ensures AsCapabilities(Some(Fields(CapabilitiesTable(c)))) == Some(c)
  {
    hide Get, Fields, CapabilitiesTable, DistinctNames;
    var table := CapabilitiesTable(c);
    CapabilityKeys(c);
    CapabilityNames(c);
    GetField(table, 0);
    GetField(table, 1);
    GetField(table, 2);
    GetField(table, 3);
    GetField(table, 4);
    GetField(table, 5);
    GetField(table, 6);
    GetField(table, 7);
    GetField(table, 8);
  }

  lemma ModelReads(m: ModelEntry)
    requires FiniteModel(m)
    ensures ReadModel(Fields(ModelTable(m))) == Some(RoundModel(m))
  {
    hide AsString, AsPricing, AsLimits, AsModalities, AsCapabilities, IfThere, Get, Fields, ModelTable, DistinctNames,
         OptionalString, PricingTable, LimitTable, ModalitiesTable, CapabilitiesTable, MapOption, RoundPricing;
    var table := ModelTable(m);
    RenderFields.ModelRows(m);
    ModelNames(m);
    StringReadsBack(m.id);
    StringReadsBack(m.name);
    OptionalPricingReads(m);
    LimitsRead(m.limit);
    ModalitiesRead(m.modalities);
    OptionalStringReads(m.mode);
    CapabilitiesRead(m.capabilities);
    OptionalStringReads(m.shape);
    OptionalStringReads(m.family);
    OptionalStringReads(m.knowledge);
    StringReadsBack(m.releaseDate);
    StringReadsBack(m.lastUpdated);
    forall k | 0 <= k < 12 ensures Get(Fields(table), table[k].0) == table[k].1 {
      GetField(table, k);
    }
  }

  lemma {:induction false} ModelsRead(models: Ordered<ModelEntry>, i: nat)
    requires i <= |models| && forall k :: 0 <= k < |models| ==> FiniteModel(models[k].1)
    ensures ReadModels(ModelMembers(models, i)) == Some(Map(RoundModelEntry, models)[i..])
    decreases |models| - i
  {
    hide Fields, ModelTable, ReadModel, RoundModel, FiniteModel;
    if i < |models| {
      ModelReads(models[i].1);
      ModelsRead(models, i + 1);
      var rounded := Map(RoundModelEntry, models);
      assert rounded[i..] == [rounded[i]] + rounded[i + 1..];
    }
  }

  lemma ModelsFieldReads(p: ProviderEntry)
    requires FiniteProvider(p)
    ensures AsModels(Some(Object(ModelMembers(p.models, 0)))) == Some(Map(RoundModelEntry, p.models))
  {
    hide ModelMembers, ReadModels, FiniteModel;
    ModelsRead(p.models, 0);
    assert Map(RoundModelEntry, p.models)[0..] == Map(RoundModelEntry, p.models);
  }

  lemma ProviderReads(p: ProviderEntry)
    requires FiniteProvider(p)
    ensures ReadProvider(Fields(ProviderTable(p))) == Some(RoundProvider(p))
  {
    hide AsString, AsStrings, AsModels, IfThere, Get, Fields, ProviderTable, DistinctNames, OptionalString, Strings,
         Map, ModelMembers, Present, FiniteProvider;
    var table := ProviderTable(p);
    RenderText.ProviderRows(p);
    ProviderNames(p);
    StringReadsBack(p.name);
    ArrayReads(p.env);
    StringReadsBack(p.doc);
    OptionalStringReads(p.api);
    StringReadsBack(p.npm);
    ModelsFieldReads(p);
    forall k | 0 <= k < 6 ensures Get(Fields(table), table[k].0) == table[k].1 {
      GetField(table, k);
    }
  }

  lemma {:induction false} ProvidersRead(catalog: CatalogDocument, i: nat)
    requires i <= |catalog| && forall k :: 0 <= k < |catalog| ==> FiniteProvider(catalog[k].1)
    ensures ReadProviders(ProviderMembers(catalog, i)) == Some(Map(RoundProviderEntry, catalog)[i..])
    decreases |catalog| - i
  {
    hide Fields, ProviderTable, ReadProvider, RoundProvider, FiniteProvider;
    if i < |catalog| {
      ProviderReads(catalog[i].1);
      ProvidersRead(catalog, i + 1);
      var rounded := Map(RoundProviderEntry, catalog);
      assert rounded[i..] == [rounded[i]] + rounded[i + 1..];
    }
  }

  lemma ProvidersFieldReads(catalog: CatalogDocument)
    requires FiniteDocument(catalog)
    ensures AsProviders(Some(Object(ProviderMembers(catalog, 0)))) == Some(RoundDocument(catalog))
  {
    hide ProviderMembers, ReadProviders, FiniteProvider;
    ProvidersRead(catalog, 0);
    assert RoundDocument(catalog)[0..] == RoundDocument(catalog);
  }

  lemma ProvenanceReads(p: Provenance)
    ensures AsProvenance(Some(Fields(ProvenanceTable(p)))) == Some(p)
  {
    hide AsString, Get, Fields, ProvenanceTable, DistinctNames, Present;
    var table := ProvenanceTable(p);
    RenderText.ProvenanceRows(p);
    ProvenanceNames(p);
    StringReadsBack(p.source);
    StringReadsBack(p.sourceSha256);
    StringReadsBack(p.fetched);
    StringReadsBack(p.libraryVersion);
    forall k | 0 <= k < 4 ensures Get(Fields(table), table[k].0) == table[k].1 {
      GetField(table, k);
    }
  }

  lemma DocumentReads(catalog: CatalogDocument, provenance: Provenance)
    requires FiniteDocument(catalog)
    ensures ReadDocument(DocumentJson(catalog, provenance)) ==
            Some(Contents(provenance, SCHEMA_VERSION_NUMBER, RoundDocument(catalog)))
  {
    hide AsProvenance, AsCount, AsProviders, Count, Get, Fields, DocumentTable, DistinctNames, Present, ProvenanceTable,
         ProviderMembers, FiniteDocument, RoundDocument;
    var table := DocumentTable(catalog, provenance);
    RenderText.DocumentRows(catalog, provenance);
    DocumentNames(catalog, provenance);
    ProvenanceReads(provenance);
    CountReads(SCHEMA_VERSION_NUMBER);
    ProvidersFieldReads(catalog);
    forall k | 0 <= k < 3 ensures Get(Fields(table), table[k].0) == table[k].1 {
      GetField(table, k);
    }
  }

  // From the printed text a reader gets the provenance, the schema version and the document back, every
  // provider, model, optional field and tier in its place.
  lemma PrintedDocumentReadsBack(catalog: CatalogDocument, provenance: Provenance)
    requires FiniteDocument(catalog)
    ensures var parsed := Parse(Document(DocumentJson(catalog, provenance)));
            && parsed.Some?
            && ReadDocument(parsed.value) == Some(Contents(provenance, SCHEMA_VERSION_NUMBER, RoundDocument(catalog)))
  {
    hide *;
    PrinterRoundTrip(catalog, provenance);
    DocumentReads(catalog, provenance);
  }

  /// From upstream to the printed names

  // A price per million tokens, as it is read back: 1_000_000 tokens cost what upstream says, up to half a
  // unit of the 15th decimal for each.
  function Published(costPerMillion: F64): (r: F64)
    ensures costPerMillion.Finite? && costPerMillion.r >= 0.0 ==>
      && r.Finite? && r.r >= 0.0
      && costPerMillion.r - 0.000_000_000_5 <= r.r * 1_000_000.0 <= costPerMillion.r + 0.000_000_000_5
  {
    if costPerMillion.Finite? then
      RoundsToNearest(costPerMillion.r / TOKENS_PER_UNIT);
      RoundCost(PerToken(costPerMillion))
    else RoundCost(PerToken(costPerMillion))
  }

  lemma PublishedOption(value: Option<F64>)
    requires AcceptableIfAny(value)
    ensures FiniteIfAny(MapOption(PerToken, value))
    ensures IfThere(OptionalCost(MapOption(PerToken, value)), AsCost) == Some(MapOption(Published, value))
  {
    OptionalCostReads(MapOption(PerToken, value));
    hide RoundCost, AsCost;
  }

  // Under each name of a price or a tier stands the upstream cost it is named for.
  lemma RatesByName(rates: Rates, table: Table, start: nat)
    requires (forall f :: RatesMeet(rates, f)) && DistinctNames(table)
    requires Render.HoldsCosts(table, start, TransformRates(rates))
    ensures AsCost(Get(Fields(table), InputCostKey)) == Some(Published(rates.input))
    ensures AsCost(Get(Fields(table), OutputCostKey)) == Some(Published(rates.output))
    ensures IfThere(Get(Fields(table), CacheReadCostKey), AsCost) == Some(MapOption(Published, rates.cacheRead))
    ensures IfThere(Get(Fields(table), CacheCreationCostKey), AsCost) == Some(MapOption(Published, rates.cacheWrite))
    ensures IfThere(Get(Fields(table), InputAudioCostKey), AsCost) == Some(MapOption(Published, rates.inputAudio))
    ensures IfThere(Get(Fields(table), OutputAudioCostKey), AsCost) == Some(MapOption(Published, rates.outputAudio))
    ensures IfThere(Get(Fields(table), ReasoningCostKey), AsCost) == Some(MapOption(Published, rates.reasoning))
  {
    var costs := TransformRates(rates);
    AllMeet(rates);
    assert start + 7 <= |table|;
    hide AsCost, IfThere, Get, Fields, OptionalCost, CostNumber, RoundCost, MapOption, FiniteIfAny, DistinctNames,
         Render.HoldsCosts, RatesMeet, Acceptable, AcceptableIfAny;
    Render.CostRows(table, start, costs);
    CostReads(costs.input);
    CostReads(costs.output);
    PublishedOption(rates.cacheRead);
    PublishedOption(rates.cacheWrite);
    PublishedOption(rates.inputAudio);
    PublishedOption(rates.outputAudio);
    PublishedOption(rates.reasoning);
    GetField(table, start);
    GetField(table, start + 1);
    GetField(table, start + 2);
    GetField(table, start + 3);
    GetField(table, start + 4);
    GetField(table, start + 5);
    GetField(table, start + 6);
  }

  lemma AllMeet(rates: Rates)
    requires forall f :: RatesMeet(rates, f)
    ensures Acceptable(rates.input) && Acceptable(rates.output) && AcceptableIfAny(rates.reasoning)
    ensures AcceptableIfAny(rates.cacheRead) && AcceptableIfAny(rates.cacheWrite)
    ensures AcceptableIfAny(rates.inputAudio) && AcceptableIfAny(rates.outputAudio)
    ensures PerToken(rates.input).Finite? && PerToken(rates.output).Finite?
  {
    assert RatesMeet(rates, Input) && RatesMeet(rates, Output) && RatesMeet(rates, Reasoning);
    assert RatesMeet(rates, CacheRead) && RatesMeet(rates, CacheWrite);
    assert RatesMeet(rates, InputAudio) && RatesMeet(rates, OutputAudio);
  }

  // Under each name of a capability stands what upstream says about it.
  lemma CapabilitiesByName(model: Model)
    ensures var flags := Fields(CapabilitiesTable(TransformModel(model).capabilities));
            && AsBool(Get(flags, VisionKey)) == Some(Image in model.modalities.input)
            && AsBool(Get(flags, FunctionCallingKey)) == Some(model.toolCall)
            && AsBool(Get(flags, ReasoningKey)) == Some(model.reasoning)
            && AsBool(Get(flags, StructuredOutputKey)) == Some(model.structuredOutput == Some(true))
            && AsBool(Get(flags, AudioInputKey)) == Some(Audio in model.modalities.input)
            && AsBool(Get(flags, AudioOutputKey)) == Some(Audio in model.modalities.output)
            && AsBool(Get(flags, PromptCachingKey)) == Some(model.cost.Some? &&
                 (model.cost.value.rates.cacheRead.Some? || model.cost.value.rates.cacheWrite.Some?))
            && AsBool(Get(flags, AttachmentKey)) == Some(model.attachment)
            && AsBool(Get(flags, OpenWeightsKey)) == Some(model.openWeights)
  {
    hide Get, Fields, CapabilitiesTable, DistinctNames;
    var c := TransformModel(model).capabilities;
    var table := CapabilitiesTable(c);
    CapabilityKeys(c);
    CapabilityNames(c);
    forall k | 0 <= k < 9 ensures Get(Fields(table), table[k].0) == table[k].1 {
      GetField(table, k);
    }
  }
}
