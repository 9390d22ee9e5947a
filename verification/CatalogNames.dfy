/** How the member names are spelled, and that the members are written in the order of these names. */
module CatalogNames {
  import opened Transform
  import opened CatalogJson
  import opened CatalogRead
  import opened CatalogMeaning
  import Render
  import RenderFields
  import RenderText

  /// Spellings

  lemma SpelledCosts1()
    ensures Spelling(InputCostKey) == "input_cost_per_token"
    ensures Spelling(OutputCostKey) == "output_cost_per_token"
  {
  }

  lemma SpelledCosts2()
    ensures Spelling(CacheReadCostKey) == "cache_read_input_token_cost"
    ensures Spelling(CacheCreationCostKey) == "cache_creation_input_token_cost"
  {
  }

  lemma SpelledCosts3()
    ensures Spelling(InputAudioCostKey) == "input_cost_per_audio_token"
    ensures Spelling(OutputAudioCostKey) == "output_cost_per_audio_token"
  {
  }

  lemma SpelledCosts4()
    ensures Spelling(ReasoningCostKey) == "output_cost_per_reasoning_token"
    ensures Spelling(TiersKey) == "tiers"
  {
  }

  lemma SpelledCosts5()
    ensures Spelling(MinContextTokensKey) == "min_context_tokens"
  {
  }

  lemma SpelledCosts()
    ensures Spelling(InputCostKey) == "input_cost_per_token"
    ensures Spelling(OutputCostKey) == "output_cost_per_token"
    ensures Spelling(CacheReadCostKey) == "cache_read_input_token_cost"
    ensures Spelling(CacheCreationCostKey) == "cache_creation_input_token_cost"
    ensures Spelling(InputAudioCostKey) == "input_cost_per_audio_token"
    ensures Spelling(OutputAudioCostKey) == "output_cost_per_audio_token"
    ensures Spelling(ReasoningCostKey) == "output_cost_per_reasoning_token"
    ensures Spelling(TiersKey) == "tiers"
    ensures Spelling(MinContextTokensKey) == "min_context_tokens"
  {
    hide *;
    SpelledCosts1();
    SpelledCosts2();
    SpelledCosts3();
    SpelledCosts4();
    SpelledCosts5();
  }

  lemma SpelledCapabilities1()
    ensures Spelling(VisionKey) == "vision"
    ensures Spelling(FunctionCallingKey) == "function_calling"
  {
  }

  lemma SpelledCapabilities2()
    ensures Spelling(ReasoningKey) == "reasoning"
    ensures Spelling(StructuredOutputKey) == "structured_output"
  {
  }

  lemma SpelledCapabilities3()
    ensures Spelling(AudioInputKey) == "audio_input"
    ensures Spelling(AudioOutputKey) == "audio_output"
  {
  }

  lemma SpelledCapabilities4()
    ensures Spelling(PromptCachingKey) == "prompt_caching"
    ensures Spelling(AttachmentKey) == "attachment"
  {
  }

  lemma SpelledCapabilities5()
    ensures Spelling(OpenWeightsKey) == "open_weights"
  {
  }

  lemma SpelledCapabilities()
    ensures Spelling(VisionKey) == "vision"
    ensures Spelling(FunctionCallingKey) == "function_calling"
    ensures Spelling(ReasoningKey) == "reasoning"
    ensures Spelling(StructuredOutputKey) == "structured_output"
    ensures Spelling(AudioInputKey) == "audio_input"
    ensures Spelling(AudioOutputKey) == "audio_output"
    ensures Spelling(PromptCachingKey) == "prompt_caching"
    ensures Spelling(AttachmentKey) == "attachment"
    ensures Spelling(OpenWeightsKey) == "open_weights"
  {
    hide *;
    SpelledCapabilities1();
    SpelledCapabilities2();
    SpelledCapabilities3();
    SpelledCapabilities4();
    SpelledCapabilities5();
  }

  lemma SpelledModel1()
    ensures Spelling(IdKey) == "id"
    ensures Spelling(NameKey) == "name"
    ensures Spelling(PricingKey) == "pricing"
  {
  }

  lemma SpelledModel2()
    ensures Spelling(LimitKey) == "limit"
    ensures Spelling(ModalitiesKey) == "modalities"
    ensures Spelling(ModeKey) == "mode"
  {
  }

  lemma SpelledModel3()
    ensures Spelling(CapabilitiesKey) == "capabilities"
    ensures Spelling(ShapeKey) == "shape"
    ensures Spelling(FamilyKey) == "family"
  {
  }

  lemma SpelledModel4()
    ensures Spelling(KnowledgeKey) == "knowledge"
    ensures Spelling(ReleaseDateKey) == "release_date"
    ensures Spelling(LastUpdatedKey) == "last_updated"
  {
  }

  lemma SpelledModel()
    ensures Spelling(IdKey) == "id"
    ensures Spelling(NameKey) == "name"
    ensures Spelling(PricingKey) == "pricing"
    ensures Spelling(LimitKey) == "limit"
    ensures Spelling(ModalitiesKey) == "modalities"
    ensures Spelling(ModeKey) == "mode"
    ensures Spelling(CapabilitiesKey) == "capabilities"
    ensures Spelling(ShapeKey) == "shape"
    ensures Spelling(FamilyKey) == "family"
    ensures Spelling(KnowledgeKey) == "knowledge"
    ensures Spelling(ReleaseDateKey) == "release_date"
    ensures Spelling(LastUpdatedKey) == "last_updated"
  {
    hide *;
    SpelledModel1();
    SpelledModel2();
    SpelledModel3();
    SpelledModel4();
  }

  lemma SpelledInside()
    ensures Spelling(ContextKey) == "context" && Spelling(InputKey) == "input" && Spelling(OutputKey) == "output"
  {
  }

  lemma SpelledProvider()
    ensures Spelling(NameKey) == "name" && Spelling(EnvKey) == "env" && Spelling(DocKey) == "doc"
    ensures Spelling(ApiKey) == "api" && Spelling(NpmKey) == "npm" && Spelling(ModelsKey) == "models"
  {
  }

  lemma SpelledDocument()
    ensures Spelling(ProvenanceKey) == "$provenance" && Spelling(SchemaVersionKey) == "$schema_version"
    ensures Spelling(ProvidersKey) == "providers" && Spelling(SourceKey) == "source"
    ensures Spelling(SourceSha256Key) == "source_sha256" && Spelling(FetchedKey) == "fetched"
    ensures Spelling(LibraryVersionKey) == "library_version"
  {
  }

  // Under its name stands what the table has in that row.
  lemma RowStands(table: Table, k: nat, name: string)
    requires k < |table| && DistinctNames(table) && Spelling(table[k].0) == name
    ensures Under(Fields(table), name) == table[k].1
  {
    hide DistinctNames, Lookup, Present, Spelling;
    GetField(table, k);
  }

  lemma {:induction false} NamesInOrder(table: Table, names: seq<string>, i: nat)
    requires i <= |names| == |table| && DistinctNames(table)
    requires forall k :: 0 <= k < |table| ==> Spelling(table[k].0) == names[k]
    ensures NamesOf(Present(table, i)) == Given(Fields(table), names[i..])
    decreases |table| - i
  {
    hide DistinctNames, Spelling, Under, Fields;
    if i < |table| {
      NamesInOrder(table, names, i + 1);
      RowStands(table, i, names[i]);
      assert names[i..][1..] == names[i + 1..];
    }
  }

  lemma TableNames(table: Table, names: seq<string>)
    requires |names| == |table| && DistinctNames(table)
    requires forall k :: 0 <= k < |table| ==> Spelling(table[k].0) == names[k]
    ensures HasNames(Fields(table), names)
  {
    hide DistinctNames, Spelling, Under, Present, NamesOf, Given;
    NamesInOrder(table, names, 0);
    assert names[0..] == names;
  }

  /// Names in order

  lemma TwoNames(table: Table, a: string, b: string)
    requires |table| == 2 && DistinctNames(table)
    requires Spelling(table[0].0) == a && Spelling(table[1].0) == b
    ensures HasNames(Fields(table), [a, b])
  {
    hide Spelling, DistinctNames, Fields, HasNames;
    TableNames(table, [a, b]);
  }

  lemma ThreeNames(table: Table, a: string, b: string, c: string)
    requires |table| == 3 && DistinctNames(table)
    requires Spelling(table[0].0) == a && Spelling(table[1].0) == b && Spelling(table[2].0) == c
    ensures HasNames(Fields(table), [a, b, c])
  {
    hide Spelling, DistinctNames, Fields, HasNames;
    TableNames(table, [a, b, c]);
  }

  lemma FourNames(table: Table, a: string, b: string, c: string, d: string)
    requires |table| == 4 && DistinctNames(table)
    requires Spelling(table[0].0) == a && Spelling(table[1].0) == b && Spelling(table[2].0) == c
    requires Spelling(table[3].0) == d
    ensures HasNames(Fields(table), [a, b, c, d])
  {
    hide Spelling, DistinctNames, Fields, HasNames;
    TableNames(table, [a, b, c, d]);
  }

  lemma SixNames(table: Table, a: string, b: string, c: string, d: string, e: string, f: string)
    requires |table| == 6 && DistinctNames(table)
    requires Spelling(table[0].0) == a && Spelling(table[1].0) == b && Spelling(table[2].0) == c
    requires Spelling(table[3].0) == d && Spelling(table[4].0) == e && Spelling(table[5].0) == f
    ensures HasNames(Fields(table), [a, b, c, d, e, f])
  {
    hide Spelling, DistinctNames, Fields, HasNames;
    TableNames(table, [a, b, c, d, e, f]);
  }

  lemma EightNames(table: Table, a: string, b: string, c: string, d: string,
                   e: string, f: string, g: string, h: string)
    requires |table| == 8 && DistinctNames(table)
    requires Spelling(table[0].0) == a && Spelling(table[1].0) == b && Spelling(table[2].0) == c
    requires Spelling(table[3].0) == d && Spelling(table[4].0) == e && Spelling(table[5].0) == f
    requires Spelling(table[6].0) == g && Spelling(table[7].0) == h
    ensures HasNames(Fields(table), [a, b, c, d, e, f, g, h])
  {
    hide Spelling, DistinctNames, Fields, HasNames;
    TableNames(table, [a, b, c, d, e, f, g, h]);
  }

  lemma NineNames(table: Table, a: string, b: string, c: string, d: string,
                  e: string, f: string, g: string, h: string, i: string)
    requires |table| == 9 && DistinctNames(table)
    requires Spelling(table[0].0) == a && Spelling(table[1].0) == b && Spelling(table[2].0) == c
    requires Spelling(table[3].0) == d && Spelling(table[4].0) == e && Spelling(table[5].0) == f
    requires Spelling(table[6].0) == g && Spelling(table[7].0) == h && Spelling(table[8].0) == i
    ensures HasNames(Fields(table), [a, b, c, d, e, f, g, h, i])
  {
    hide Spelling, DistinctNames, Fields, HasNames;
    TableNames(table, [a, b, c, d, e, f, g, h, i]);
  }

  lemma TwelveNames(table: Table, a: string, b: string, c: string, d: string, e: string, f: string,
                    g: string, h: string, i: string, j: string, k: string, l: string)
    requires |table| == 12 && DistinctNames(table)
    requires Spelling(table[0].0) == a && Spelling(table[1].0) == b && Spelling(table[2].0) == c
    requires Spelling(table[3].0) == d && Spelling(table[4].0) == e && Spelling(table[5].0) == f
    requires Spelling(table[6].0) == g && Spelling(table[7].0) == h && Spelling(table[8].0) == i
    requires Spelling(table[9].0) == j && Spelling(table[10].0) == k && Spelling(table[11].0) == l
    ensures HasNames(Fields(table), [a, b, c, d, e, f, g, h, i, j, k, l])
  {
    hide Spelling, DistinctNames, Fields, HasNames;
    TableNames(table, [a, b, c, d, e, f, g, h, i, j, k, l]);
  }

  lemma TierHasNames(tier: PricingTier)
    ensures NamedAsTier(Fields(TierTable(tier)))
  {
    hide Spelling, DistinctNames, Fields, HasNames, TierTable, Render.HoldsCosts;
    Render.TierRows(tier);
    Render.CostRows(TierTable(tier), 1, tier.costs);
    TierNames(tier);
    SpelledCosts();
    EightNames(TierTable(tier),
               "min_context_tokens", "input_cost_per_token", "output_cost_per_token",
               "cache_read_input_token_cost", "cache_creation_input_token_cost", "input_cost_per_audio_token",
               "output_cost_per_audio_token", "output_cost_per_reasoning_token");
  }

  lemma PricingKeys(pricing: Pricing)
    ensures var table := PricingTable(pricing);
            && |table| == 8
            && table[0].0 == InputCostKey && table[1].0 == OutputCostKey && table[2].0 == CacheReadCostKey
            && table[3].0 == CacheCreationCostKey && table[4].0 == InputAudioCostKey
            && table[5].0 == OutputAudioCostKey && table[6].0 == ReasoningCostKey && table[7].0 == TiersKey
  {
    hide *;
    Render.PricingRows(pricing);
    Render.CostRows(PricingTable(pricing), 0, pricing.costs);
  }

  lemma PricingHasNames(pricing: Pricing)
    ensures NamedAsPricing(Fields(PricingTable(pricing)))
  {
    hide Spelling, DistinctNames, Fields, HasNames, PricingTable, Render.HoldsCosts, TierItems;
    PricingKeys(pricing);
    PricingNames(pricing);
    SpelledCosts();
    EightNames(PricingTable(pricing),
               "input_cost_per_token", "output_cost_per_token", "cache_read_input_token_cost",
               "cache_creation_input_token_cost", "input_cost_per_audio_token", "output_cost_per_audio_token",
               "output_cost_per_reasoning_token", "tiers");
  }

  lemma LimitHasNames(limit: TokenLimits)
    ensures NamedAsLimit(Fields(LimitTable(limit)))
  {
    hide Spelling, DistinctNames, Fields, HasNames, LimitTable;
    RenderFields.LimitRows(limit);
    LimitNames(limit);
    SpelledInside();
    ThreeNames(LimitTable(limit), "context", "input", "output");
  }

  lemma ModalitiesHaveNames(modalities: ModalityNames)
    ensures NamedAsModalities(Fields(ModalitiesTable(modalities)))
  {
    hide Spelling, DistinctNames, Fields, HasNames, ModalitiesTable;
    RenderFields.ModalitiesRows(modalities);
    ModalitiesNames(modalities);
    SpelledInside();
    TwoNames(ModalitiesTable(modalities), "input", "output");
  }

  lemma CapabilitiesHaveNames(c: Capabilities)
    ensures NamedAsCapabilities(Fields(CapabilitiesTable(c)))
  {
    hide Spelling, DistinctNames, Fields, HasNames, CapabilitiesTable;
    CapabilityKeys(c);
    CapabilityNames(c);
    SpelledCapabilities();
    NineNames(CapabilitiesTable(c),
              "vision", "function_calling", "reasoning", "structured_output", "audio_input", "audio_output",
              "prompt_caching", "attachment", "open_weights");
  }

  lemma ModelHasNames(m: ModelEntry)
    ensures NamedAsModel(Fields(ModelTable(m)))
  {
    hide Spelling, DistinctNames, Fields, HasNames, ModelTable;
    RenderFields.ModelRows(m);
    ModelNames(m);
    SpelledModel();
    TwelveNames(ModelTable(m),
                "id", "name", "pricing", "limit", "modalities", "mode", "capabilities", "shape", "family",
                "knowledge", "release_date", "last_updated");
  }

  lemma ProviderHasNames(p: ProviderEntry)
    ensures NamedAsProvider(Fields(ProviderTable(p)))
  {
    hide Spelling, DistinctNames, Fields, HasNames, ProviderTable, Present;
    RenderText.ProviderRows(p);
    ProviderNames(p);
    SpelledProvider();
    SixNames(ProviderTable(p), "name", "env", "doc", "api", "npm", "models");
  }

  lemma ProvenanceHasNames(p: Provenance)
    ensures NamedAsProvenance(Fields(ProvenanceTable(p)))
  {
    hide Spelling, DistinctNames, Fields, HasNames, ProvenanceTable, Present;
    RenderText.ProvenanceRows(p);
    ProvenanceNames(p);
    SpelledDocument();
    FourNames(ProvenanceTable(p), "source", "source_sha256", "fetched", "library_version");
  }

  lemma DocumentHasNames(catalog: CatalogDocument, provenance: Provenance)
    ensures NamedAsDocument(Fields(DocumentTable(catalog, provenance)))
  {
    hide Spelling, DistinctNames, Fields, HasNames, DocumentTable, Present;
    RenderText.DocumentRows(catalog, provenance);
    DocumentNames(catalog, provenance);
    SpelledDocument();
    ThreeNames(DocumentTable(catalog, provenance), "$provenance", "$schema_version", "providers");
  }
}
