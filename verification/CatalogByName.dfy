/** From upstream to the printed text: the document that is built from a validated catalog says what it should. */
module CatalogByName {
  import opened Wrappers
  import opened Json
  import opened JsonLayout
  import opened Decimal
  import opened CostText
  import opened Catalog
  import opened Schema
  import opened Transform
  import opened CatalogJson
  import opened CatalogBuild
  import opened CatalogRead
  import opened CatalogReadBack
  import opened CatalogMeaning
  import opened CatalogNames
  import Render
  import RenderFields
  import RenderText

  /// Prices

  lemma PriceStands(v: Json, key: Key, name: string, cost: F64)
    requires Spelling(key) == name && Acceptable(cost) && AsCost(Get(v, key)) == Some(Published(cost))
    ensures IsPrice(Under(v, name), cost)
  {
    hide Spelling, Lookup, NumeralValue, IsNumber, RoundCost, PerToken;
  }

  lemma PriceStandsIfAny(v: Json, key: Key, name: string, cost: Option<F64>)
    requires Spelling(key) == name && AcceptableIfAny(cost)
    requires IfThere(Get(v, key), AsCost) == Some(MapOption(Published, cost))
    ensures IsPriceIfAny(Under(v, name), cost)
  {
    hide Spelling, Lookup, AsCost, Published, IsPrice;
    if cost.Some? {
      PriceStands(v, key, name, cost.value);
    }
  }

  lemma RatesAreThere(rates: Rates, table: Table, start: nat)
    requires (forall f :: RatesMeet(rates, f)) && DistinctNames(table)
    requires Render.HoldsCosts(table, start, TransformRates(rates))
    ensures RatesStand(Fields(table), rates)
  {
    hide *;
    var v := Fields(table);
    SpelledCosts();
    AllMeet(rates);
    RatesByName(rates, table, start);
    PriceStands(v, InputCostKey, "input_cost_per_token", rates.input);
    PriceStands(v, OutputCostKey, "output_cost_per_token", rates.output);
    PriceStandsIfAny(v, CacheReadCostKey, "cache_read_input_token_cost", rates.cacheRead);
    PriceStandsIfAny(v, CacheCreationCostKey, "cache_creation_input_token_cost", rates.cacheWrite);
    PriceStandsIfAny(v, InputAudioCostKey, "input_cost_per_audio_token", rates.inputAudio);
    PriceStandsIfAny(v, OutputAudioCostKey, "output_cost_per_audio_token", rates.outputAudio);
    PriceStandsIfAny(v, ReasoningCostKey, "output_cost_per_reasoning_token", rates.reasoning);
    AllPrices(v, rates);
  }

  lemma AllPrices(v: Json, rates: Rates)
    requires IsPrice(Under(v, "input_cost_per_token"), rates.input)
    requires IsPrice(Under(v, "output_cost_per_token"), rates.output)
    requires IsPriceIfAny(Under(v, "cache_read_input_token_cost"), rates.cacheRead)
    requires IsPriceIfAny(Under(v, "cache_creation_input_token_cost"), rates.cacheWrite)
    requires IsPriceIfAny(Under(v, "input_cost_per_audio_token"), rates.inputAudio)
    requires IsPriceIfAny(Under(v, "output_cost_per_audio_token"), rates.outputAudio)
    requires IsPriceIfAny(Under(v, "output_cost_per_reasoning_token"), rates.reasoning)
    ensures RatesStand(v, rates)
  {
    hide IsPrice, IsPriceIfAny, Under;
  }

  lemma CountStands(v: Option<Json>, n: nat)
    requires v == Some(Count(n))
    ensures IsCount(v, n)
  {
    hide IsNumber, NumeralValue, Digits;
    WholeNumber(n);
  }

  lemma TierIsThere(tier: CostTier)
    requires forall f :: RatesMeet(tier.rates, f)
    ensures TierStands(Fields(TierTable(TransformTier(tier))), tier)
  {
    hide NamedAsTier, RatesStand, IsCount, Under, Fields, TierTable, RatesMeet, Spelling, DistinctNames,
         Render.HoldsCosts, Count, TransformRates;
    var there := TransformTier(tier);
    var table := TierTable(there);
    TierNames(there);
    Render.TierRows(there);
    TierHasNames(there);
    SpelledCosts();
    RowStands(table, 0, "min_context_tokens");
    CountStands(table[0].1, tier.size);
    RatesAreThere(tier.rates, table, 1);
  }

  lemma {:induction false} TierElements(tiers: seq<PricingTier>, i: nat)
    requires i <= |tiers|
    ensures |Elements(TierItems(tiers, i))| == |tiers| - i
    ensures forall k :: 0 <= k < |tiers| - i ==> Elements(TierItems(tiers, i))[k] == Fields(TierTable(tiers[i + k]))
    decreases |tiers| - i
  {
    hide Fields, TierTable;
    if i < |tiers| {
      TierElements(tiers, i + 1);
    }
  }

  lemma ModelRatesMeet(model: Model)
    requires ValidModel(model) && model.cost.Some?
    ensures forall f :: RatesMeet(model.cost.value.rates, f)
    ensures forall k, f :: 0 <= k < |TiersOf(model.cost.value)| ==> RatesMeet(TiersOf(model.cost.value)[k].rates, f)
  {
    hide RatesMeet;
    forall f ensures RatesMeet(model.cost.value.rates, f) {
      assert ModelMeets(model, BaseCost(f));
    }
    forall k, f | 0 <= k < |TiersOf(model.cost.value)| ensures RatesMeet(TiersOf(model.cost.value)[k].rates, f) {
      assert ModelMeets(model, TierCost(k, f));
    }
  }

  lemma Ascending(lower: PricingTier, upper: PricingTier)
    requires lower.minContextTokens < upper.minContextTokens
    ensures Ascend(Fields(TierTable(lower)), Fields(TierTable(upper)))
  {
    hide Fields, TierTable, Under, Spelling, DistinctNames, Count, IsNumeral, Amount;
    TierNames(lower);
    TierNames(upper);
    Render.TierRows(lower);
    Render.TierRows(upper);
    SpelledCosts();
    RowStands(TierTable(lower), 0, "min_context_tokens");
    RowStands(TierTable(upper), 0, "min_context_tokens");
    CountStands(TierTable(lower)[0].1, lower.minContextTokens);
    CountStands(TierTable(upper)[0].1, upper.minContextTokens);
  }

  lemma TierFound(model: Model, k: nat)
    requires ValidModel(model) && model.cost.Some? && k < |TiersOf(model.cost.value)|
    ensures HasTier(Elements(TierItems(TransformPricing(model.cost.value).tiers, 0)), TiersOf(model.cost.value)[k])
  {
    hide ValidModel, Fields, TierTable, TierStands, TransformPricing, TransformTier, TiersOf, RatesMeet, Elements,
         TierItems;
    var sorted, tier := TransformPricing(model.cost.value).tiers, TiersOf(model.cost.value)[k];
    SortedHoldsUpstream(model);
    ModelRatesMeet(model);
    TierElements(sorted, 0);
    TierIsThere(tier);
    var j :| 0 <= j < |sorted| && sorted[j] == TransformTier(tier);
    assert Elements(TierItems(sorted, 0))[j] == Fields(TierTable(sorted[0 + j]));
  }

  lemma TiersAreThere(model: Model, v: Option<Json>)
    requires ValidModel(model) && model.cost.Some?
    requires var tiers := TransformPricing(model.cost.value).tiers;
             v == if tiers == [] then None else Some(Array(TierItems(tiers, 0)))
    ensures TiersStand(v, TiersOf(model.cost.value))
  {
    hide ValidModel, Fields, TierTable, HasTier, Ascend, TransformTier, TransformRates, TiersOf, Elements, TierItems,
         SortTiers;
    var sorted, tiers := TransformPricing(model.cost.value).tiers, TiersOf(model.cost.value);
    ValidTiersAreStrict(model);
    TierElements(sorted, 0);
    assert |sorted| == |tiers|;
    forall j, k | 0 <= j < k < |tiers|
      ensures Ascend(Elements(TierItems(sorted, 0))[j], Elements(TierItems(sorted, 0))[k])
    {
      Ascending(sorted[j], sorted[k]);
      assert Elements(TierItems(sorted, 0))[j] == Fields(TierTable(sorted[0 + j]));
      assert Elements(TierItems(sorted, 0))[k] == Fields(TierTable(sorted[0 + k]));
    }
    forall k | 0 <= k < |tiers| ensures HasTier(Elements(TierItems(sorted, 0)), tiers[k]) {
      TierFound(model, k);
    }
  }

  lemma PricingIsThere(model: Model, v: Option<Json>)
    requires ValidModel(model)
    requires v == if model.cost.None? then None else Some(Fields(PricingTable(TransformPricing(model.cost.value))))
    ensures PricingStands(v, model.cost)
  {
    hide NamedAsPricing, ValidModel, Fields, PricingTable, RatesStand, TiersStand, Under, Spelling, DistinctNames,
         Render.HoldsCosts, TransformRates, RatesMeet, TierItems, SortTiers;
    if model.cost.Some? {
      var pricing := TransformPricing(model.cost.value);
      var table := PricingTable(pricing);
      PricingNames(pricing);
      Render.PricingRows(pricing);
      PricingHasNames(pricing);
      SpelledCosts();
      ModelRatesMeet(model);
      RatesAreThere(model.cost.value.rates, table, 0);
      RowStands(table, 7, "tiers");
      TiersAreThere(model, table[7].1);
    }
  }

  /// The other members of a model

  lemma LimitStands(v: Option<Json>, limit: F64)
    requires Acceptable(limit) && v == Some(Count(LimitTokens(limit)))
    ensures IsLimit(v, limit)
  {
    CountStands(v, LimitTokens(limit));
    hide IsNumeral, Amount, Count;
  }

  lemma LimitsOfModel(model: Model)
    requires ValidModel(model)
    ensures var limit := TransformModel(model).limit;
            && limit.context == LimitTokens(model.limit.context) && limit.output == LimitTokens(model.limit.output)
            && limit.input == MapOption(LimitTokens, model.limit.input)
    ensures Acceptable(model.limit.context) && Acceptable(model.limit.output) && AcceptableIfAny(model.limit.input)
  {
    hide LimitTokens, Acceptable, TransformPricing, InferMode, Map, MapOption;
    assert ModelMeets(model, ContextLimit) && ModelMeets(model, InputLimit) && ModelMeets(model, OutputLimit);
  }

  lemma UnderLimitNames(limit: TokenLimits)
    ensures var v := Fields(LimitTable(limit));
            && Under(v, "context") == Some(Count(limit.context)) && Under(v, "output") == Some(Count(limit.output))
            && Under(v, "input") == if limit.input.None? then None else Some(Count(limit.input.value))
  {
    hide *;
    var table := LimitTable(limit);
    LimitNames(limit);
    RenderFields.LimitRows(limit);
    SpelledInside();
    RowStands(table, 0, "context");
    RowStands(table, 1, "input");
    RowStands(table, 2, "output");
  }

  lemma LimitsAreThere(model: Model, v: Option<Json>)
    requires ValidModel(model) && v == Some(Fields(LimitTable(TransformModel(model).limit)))
    ensures LimitsStand(v, model.limit)
  {
    hide NamedAsLimit, Fields, LimitTable, Under, Count, LimitTokens, IsLimit, Acceptable, TransformModel, ValidModel;
    LimitHasNames(TransformModel(model).limit);
    LimitsOfModel(model);
    UnderLimitNames(TransformModel(model).limit);
    LimitStands(Under(v.value, "context"), model.limit.context);
    LimitStands(Under(v.value, "output"), model.limit.output);
    if model.limit.input.Some? {
      LimitStands(Under(v.value, "input"), model.limit.input.value);
    }
  }

  lemma {:induction false} StringElements(values: seq<string>, i: nat)
    requires i <= |values|
    ensures |Elements(StringItems(values, i))| == |values| - i
    ensures forall k :: 0 <= k < |values| - i ==> Elements(StringItems(values, i))[k] == String(values[i + k])
    decreases |values| - i
  {
    if i < |values| {
      StringElements(values, i + 1);
    }
  }

  lemma NamesStand(modalities: seq<Modality>, v: Option<Json>)
    requires v == Some(Strings(Map(ModalityName, modalities)))
    ensures AreModalities(v, modalities)
  {
    hide Elements, StringItems, IsModality, ModalityName;
    var names := Map(ModalityName, modalities);
    StringElements(names, 0);
    forall k | 0 <= k < |modalities| ensures IsModality(Elements(v.value.items)[k], modalities[k]) {
      assert Elements(StringItems(names, 0))[k] == String(names[0 + k]);
      NameStands(modalities[k]);
    }
  }

  lemma NameStands(modality: Modality)
    ensures IsModality(String(ModalityName(modality)), modality)
  {
  }

  lemma TextsAreThere(texts: seq<string>, v: Option<Json>)
    requires v == Some(Strings(texts))
    ensures AreTexts(v, texts)
  {
    hide Elements, StringItems;
    StringElements(texts, 0);
    forall k | 0 <= k < |texts| ensures Elements(v.value.items)[k] == String(texts[k]) {
      assert Elements(StringItems(texts, 0))[k] == String(texts[0 + k]);
    }
  }

  lemma ModalitiesAreThere(model: Model, v: Option<Json>)
    requires v == Some(Fields(ModalitiesTable(TransformModel(model).modalities)))
    ensures ModalitiesStand(v, model.modalities)
  {
    hide NamedAsModalities, Fields, ModalitiesTable, Under, Spelling, DistinctNames, Strings, AreModalities,
         TransformPricing, Map, LimitTokens;
    var modalities := TransformModel(model).modalities;
    var table := ModalitiesTable(modalities);
    ModalitiesNames(modalities);
    RenderFields.ModalitiesRows(modalities);
    ModalitiesHaveNames(modalities);
    SpelledInside();
    RowStands(table, 0, "input");
    RowStands(table, 1, "output");
    NamesStand(model.modalities.input, table[0].1);
    NamesStand(model.modalities.output, table[1].1);
  }

  lemma FlagStands(v: Json, key: Key, name: string, b: bool)
    requires Spelling(key) == name && AsBool(Get(v, key)) == Some(b)
    ensures IsFlag(Under(v, name), b)
  {
    hide Spelling, Lookup;
  }

  lemma FlagsStand(v: Json, model: Model)
    requires v == Fields(CapabilitiesTable(TransformModel(model).capabilities))
    ensures IsFlag(Under(v, "vision"), Image in model.modalities.input)
    ensures IsFlag(Under(v, "function_calling"), model.toolCall)
    ensures IsFlag(Under(v, "reasoning"), model.reasoning)
    ensures IsFlag(Under(v, "structured_output"), model.structuredOutput == Some(true))
    ensures IsFlag(Under(v, "audio_input"), Audio in model.modalities.input)
    ensures IsFlag(Under(v, "audio_output"), Audio in model.modalities.output)
    ensures IsFlag(Under(v, "prompt_caching"), model.cost.Some? &&
                     (model.cost.value.rates.cacheRead.Some? || model.cost.value.rates.cacheWrite.Some?))
    ensures IsFlag(Under(v, "attachment"), model.attachment)
    ensures IsFlag(Under(v, "open_weights"), model.openWeights)
  {
    hide *;
    var cached :=
      model.cost.Some? && (model.cost.value.rates.cacheRead.Some? || model.cost.value.rates.cacheWrite.Some?);
    CapabilitiesByName(model);
    SpelledCapabilities();
    FlagStands(v, VisionKey, "vision", Image in model.modalities.input);
    FlagStands(v, FunctionCallingKey, "function_calling", model.toolCall);
    FlagStands(v, ReasoningKey, "reasoning", model.reasoning);
    FlagStands(v, StructuredOutputKey, "structured_output", model.structuredOutput == Some(true));
    FlagStands(v, AudioInputKey, "audio_input", Audio in model.modalities.input);
    FlagStands(v, AudioOutputKey, "audio_output", Audio in model.modalities.output);
    FlagStands(v, PromptCachingKey, "prompt_caching", cached);
    FlagStands(v, AttachmentKey, "attachment", model.attachment);
    FlagStands(v, OpenWeightsKey, "open_weights", model.openWeights);
  }

  lemma CapabilitiesAreThere(model: Model, v: Option<Json>)
    requires v == Some(Fields(CapabilitiesTable(TransformModel(model).capabilities)))
    ensures CapabilitiesStand(v, model)
  {
    hide NamedAsCapabilities, Fields, CapabilitiesTable, Under, IsFlag, TransformModel;
    CapabilitiesHaveNames(TransformModel(model).capabilities);
    FlagsStand(v.value, model);
  }

  lemma ModeStands(v: Option<Json>, modalities: Modalities)
    requires v == OptionalString(InferMode(modalities))
    ensures IsMode(v, modalities.input, modalities.output)
  {
  }

  lemma ShapeStands(v: Option<Json>, shape: Option<ProviderShape>)
    requires v == OptionalString(MapOption(ShapeName, shape))
    ensures IsShape(v, shape)
  {
  }

  // The twelve rows of an upstream model's entry.
  lemma RowsOfModel(model: Model)
    ensures var m := TransformModel(model);
            && m.id == model.id && m.name == model.name && m.family == model.family && m.knowledge == model.knowledge
            && m.releaseDate == model.releaseDate && m.lastUpdated == model.lastUpdated
            && m.mode == InferMode(model.modalities) && m.shape == MapOption(ShapeName, model.shape)
            && m.pricing == MapOption(TransformPricing, model.cost)
  {
    hide InferMode, ShapeName, TransformPricing, Map, LimitTokens, MapOption;
  }

  lemma UnderNames(m: ModelEntry)
    ensures var v, table := Fields(ModelTable(m)), ModelTable(m);
            && |table| == 12
            && Under(v, "id") == table[0].1 && Under(v, "name") == table[1].1 && Under(v, "pricing") == table[2].1
            && Under(v, "limit") == table[3].1 && Under(v, "modalities") == table[4].1 && Under(v, "mode") == table[5].1
            && Under(v, "capabilities") == table[6].1 && Under(v, "shape") == table[7].1
            && Under(v, "family") == table[8].1 && Under(v, "knowledge") == table[9].1
            && Under(v, "release_date") == table[10].1 && Under(v, "last_updated") == table[11].1
  {
    hide *;
    var table := ModelTable(m);
    RenderFields.ModelRows(m);
    ModelNames(m);
    SpelledModel();
    RowStands(table, 0, "id");
    RowStands(table, 1, "name");
    RowStands(table, 2, "pricing");
    RowStands(table, 3, "limit");
    RowStands(table, 4, "modalities");
    RowStands(table, 5, "mode");
    RowStands(table, 6, "capabilities");
    RowStands(table, 7, "shape");
    RowStands(table, 8, "family");
    RowStands(table, 9, "knowledge");
    RowStands(table, 10, "release_date");
    RowStands(table, 11, "last_updated");
  }

  lemma ModelTextsAreThere(model: Model)
    ensures TextsStand(Fields(ModelTable(TransformModel(model))), model)
  {
    hide TransformModel, Fields, ModelTable, Under;
    UnderNames(TransformModel(model));
    RenderFields.ModelRows(TransformModel(model));
    RowsOfModel(model);
  }

  lemma ModelIsThere(model: Model)
    requires ValidModel(model)
    ensures ModelStands(Fields(ModelTable(TransformModel(model))), model)
  {
    hide NamedAsModel, TransformModel, Fields, ModelTable, Under, TextsStand, IsShape, IsMode, PricingStands,
         LimitsStand, ModalitiesStand, CapabilitiesStand, ValidModel, PricingTable, LimitTable, ModalitiesTable,
         CapabilitiesTable, OptionalString, InferMode, ShapeName, TransformPricing;
    var m := TransformModel(model);
    var table := ModelTable(m);
    ModelHasNames(m);
    UnderNames(m);
    RenderFields.ModelRows(m);
    RowsOfModel(model);
    ModelTextsAreThere(model);
    ShapeStands(table[7].1, model.shape);
    ModeStands(table[5].1, model.modalities);
    PricingIsThere(model, table[2].1);
    LimitsAreThere(model, table[3].1);
    ModalitiesAreThere(model, table[4].1);
    CapabilitiesAreThere(model, table[6].1);
  }

  /// Providers and the document

  lemma {:induction false} ModelEntries(models: Ordered<ModelEntry>, i: nat)
    requires i <= |models|
    ensures |Entries(ModelMembers(models, i))| == |models| - i
    ensures forall k :: 0 <= k < |models| - i ==>
      Entries(ModelMembers(models, i))[k] == (models[i + k].0, Fields(ModelTable(models[i + k].1)))
    decreases |models| - i
  {
    hide Fields, ModelTable;
    if i < |models| {
      ModelEntries(models, i + 1);
    }
  }

  lemma {:induction false} ProviderEntries(catalog: CatalogDocument, i: nat)
    requires i <= |catalog|
    ensures |Entries(ProviderMembers(catalog, i))| == |catalog| - i
    ensures forall k :: 0 <= k < |catalog| - i ==>
      Entries(ProviderMembers(catalog, i))[k] == (catalog[i + k].0, Fields(ProviderTable(catalog[i + k].1)))
    decreases |catalog| - i
  {
    hide Fields, ProviderTable;
    if i < |catalog| {
      ProviderEntries(catalog, i + 1);
    }
  }

  lemma ModelsAreThere(provider: Provider, v: Option<Json>)
    requires ValidProvider(provider) && v == Some(Object(ModelMembers(TransformProvider(provider).models, 0)))
    ensures ModelsStand(v, provider.models)
  {
    hide Fields, ModelTable, TransformModel, ModelStands, ValidModel, Entries, ModelMembers, AllMet;
    var models := TransformProvider(provider).models;
    ModelEntries(models, 0);
    forall k | 0 <= k < |models|
      ensures Entries(v.value.members)[k].0 == provider.models[k].0
          && ModelStands(Entries(v.value.members)[k].1, provider.models[k].1)
    {
      assert Entries(ModelMembers(models, 0))[k] == (models[0 + k].0, Fields(ModelTable(models[0 + k].1)));
      ModelIsThere(provider.models[k].1);
    }
  }

  lemma UnderProviderNames(p: ProviderEntry)
    ensures var v, table := Fields(ProviderTable(p)), ProviderTable(p);
            && |table| == 6
            && Under(v, "name") == table[0].1 && Under(v, "env") == table[1].1 && Under(v, "doc") == table[2].1
            && Under(v, "api") == table[3].1 && Under(v, "npm") == table[4].1 && Under(v, "models") == table[5].1
  {
    hide *;
    var table := ProviderTable(p);
    RenderText.ProviderRows(p);
    ProviderNames(p);
    SpelledProvider();
    RowStands(table, 0, "name");
    RowStands(table, 1, "env");
    RowStands(table, 2, "doc");
    RowStands(table, 3, "api");
    RowStands(table, 4, "npm");
    RowStands(table, 5, "models");
  }

  lemma ProviderIsThere(provider: Provider)
    requires ValidProvider(provider)
    ensures ProviderStands(Fields(ProviderTable(TransformProvider(provider))), provider)
  {
    hide NamedAsProvider, Fields, ProviderTable, Under, ModelsStand, ValidProvider, ModelMembers, AreTexts, Strings,
         Present, TransformModel, Map;
    var p := TransformProvider(provider);
    ProviderHasNames(p);
    UnderProviderNames(p);
    RenderText.ProviderRows(p);
    TextsAreThere(provider.env, ProviderTable(p)[1].1);
    ModelsAreThere(provider, ProviderTable(p)[5].1);
  }

  lemma ProvidersAreThere(catalog: UpstreamCatalog, v: Option<Json>)
    requires ValidCatalog(catalog) && v == Some(Object(ProviderMembers(TransformCatalog(catalog), 0)))
    ensures ProvidersStand(v, catalog)
  {
    hide Fields, ProviderTable, TransformProvider, ProviderStands, ValidProvider, Entries, ProviderMembers;
    var document := TransformCatalog(catalog);
    ProviderEntries(document, 0);
    forall k | 0 <= k < |catalog|
      ensures Entries(v.value.members)[k].0 == catalog[k].0
          && ProviderStands(Entries(v.value.members)[k].1, catalog[k].1)
    {
      assert Entries(ProviderMembers(document, 0))[k]
          == (document[0 + k].0, Fields(ProviderTable(document[0 + k].1)));
      ProviderIsThere(catalog[k].1);
    }
  }

  lemma ProvenanceIsThere(p: Provenance)
    ensures ProvenanceStands(Some(Fields(ProvenanceTable(p))), p)
  {
    hide NamedAsProvenance, Fields, ProvenanceTable, Under, DistinctNames, Spelling, Present;
    var table := ProvenanceTable(p);
    RenderText.ProvenanceRows(p);
    ProvenanceNames(p);
    ProvenanceHasNames(p);
    SpelledDocument();
    RowStands(table, 0, "source");
    RowStands(table, 1, "source_sha256");
    RowStands(table, 2, "fetched");
    RowStands(table, 3, "library_version");
  }

  lemma CatalogIsThere(catalog: UpstreamCatalog, provenance: Provenance)
    requires ValidCatalog(catalog)
    ensures CatalogStands(GeneratedJson(catalog, provenance), catalog, provenance)
  {
    hide NamedAsDocument, Fields, DocumentTable, Under, DistinctNames, Spelling, Present, ProvenanceStands,
         ProvidersStand, IsCount, ProvenanceTable, ProviderMembers, TransformCatalog, ValidCatalog, Count;
    var document := TransformCatalog(catalog);
    var table := DocumentTable(document, provenance);
    RenderText.DocumentRows(document, provenance);
    DocumentNames(document, provenance);
    DocumentHasNames(document, provenance);
    SpelledDocument();
    RowStands(table, 0, "$provenance");
    RowStands(table, 1, "$schema_version");
    RowStands(table, 2, "providers");
    ProvenanceIsThere(provenance);
    CountStands(table[1].1, 1);
    ProvidersAreThere(catalog, table[2].1);
  }

  // The text that is printed for a validated catalog, parsed: under each name stands what upstream says.
  lemma PrintedCatalogStands(catalog: UpstreamCatalog, provenance: Provenance)
    requires ValidCatalog(catalog)
    ensures FiniteDocument(TransformCatalog(catalog))
    ensures var parsed := Parse(Document(GeneratedJson(catalog, provenance)));
            parsed.Some? && CatalogStands(parsed.value, catalog, provenance)
  {
    hide *;
    ValidCatalogIsFinite(catalog);
    GeneratedDocument(catalog, provenance);
    PrinterRoundTrip(TransformCatalog(catalog), provenance);
    CatalogIsThere(catalog, provenance);
  }

  lemma GeneratedDocument(catalog: UpstreamCatalog, provenance: Provenance)
    ensures GeneratedJson(catalog, provenance) == DocumentJson(TransformCatalog(catalog), provenance)
  {
    hide DocumentJson, TransformCatalog;
  }

  method BuildCatalogDocument(catalog: UpstreamCatalog, provenance: Provenance) returns (r: Result<string, GenError>)
    ensures ValidCatalog(catalog) ==>
      r.Ok? && Parse(r.value).Some? && CatalogStands(Parse(r.value).value, catalog, provenance)
    ensures r.Ok? ==> r.value == Document(GeneratedJson(catalog, provenance))
    ensures r.Err? ==> r.error == RoundTrip
  {
    hide *;
    var document := TransformCatalog(catalog);
    r := RenderDocument(document, provenance);
    GeneratedDocument(catalog, provenance);
    if ValidCatalog(catalog) {
      PrintedCatalogStands(catalog, provenance);
    }
  }
}
