/**
 Transforming and printing a catalog: when the printer's own check accepts the text, and that it always
 does for a catalog that passed validation.
 */
module CatalogBuild {
  import opened Wrappers
  import opened Json
  import opened JsonLayout
  import opened Decimal
  import opened CostText
  import opened Catalog
  import opened Schema
  import opened Transform
  import opened CatalogJson
  import opened RenderText
  import RenderFields

  /// Documents without a cost that is not finite

  predicate FiniteIfAny(value: Option<F64>) {
    value.Some? ==> value.value.Finite?
  }

  predicate FiniteCosts(costs: Costs) {
    && costs.input.Finite? && costs.output.Finite? && FiniteIfAny(costs.cacheRead) && FiniteIfAny(costs.cacheCreation)
    && FiniteIfAny(costs.inputAudio) && FiniteIfAny(costs.outputAudio) && FiniteIfAny(costs.reasoning)
  }

  predicate FinitePricing(pricing: Pricing) {
    FiniteCosts(pricing.costs) && forall k :: 0 <= k < |pricing.tiers| ==> FiniteCosts(pricing.tiers[k].costs)
  }

  predicate FiniteModel(model: ModelEntry) {
    model.pricing.Some? ==> FinitePricing(model.pricing.value)
  }

  predicate FiniteProvider(provider: ProviderEntry) {
    forall k :: 0 <= k < |provider.models| ==> FiniteModel(provider.models[k].1)
  }

  predicate FiniteDocument(catalog: CatalogDocument) {
    forall k :: 0 <= k < |catalog| ==> FiniteProvider(catalog[k].1)
  }

  /// Numbers in the document

  lemma NonFiniteIsNoNumber(s: string)
    requires s in NON_FINITE
    ensures !IsNumber(s)
  {
  }

  lemma NonFiniteText(value: F64)
    requires !value.Finite?
    ensures FormatCost(value) in NON_FINITE
  {
    var s := if value.NotANumber? then "NaN" else if value.negative then "-inf" else "inf";
    assert Shown(value) == s;
    TrimNothing(s, '0');
    TrimNothing(s, '.');
    hide TrimEnd;
    assert s + ".0" in NON_FINITE by {
      assert "NaN" + ".0" == "NaN.0" && "-inf" + ".0" == "-inf.0" && "inf" + ".0" == "inf.0";
    }
  }

  lemma CostIsSpelled(value: F64)
    ensures Spelled(CostNumber(value)) && (Numeric(CostNumber(value)) <==> value.Finite?)
  {
    hide IsNumber, FormatCost;
    if value.Finite? {
      CostDenotes(value.r);
    } else {
      NonFiniteText(value);
      NonFiniteIsNoNumber(FormatCost(value));
    }
  }

  lemma CountIsSpelled(n: nat)
    ensures Spelled(Count(n)) && Numeric(Count(n))
  {
    hide IsNumber, Digits;
    WholeNumber(n);
  }

  predicate NumericIfAny(v: Option<Json>) {
    v.Some? ==> Numeric(v.value)
  }

  predicate SpelledIfAny(v: Option<Json>) {
    v.Some? ==> Spelled(v.value)
  }

  lemma {:induction false} PresentNumeric(table: Table, i: nat)
    ensures NumericMembers(Present(table, i)) <==> forall k :: i <= k < |table| ==> NumericIfAny(table[k].1)
    decreases |table| - i
  {
    hide Numeric, Spelling;
    if i < |table| {
      PresentNumeric(table, i + 1);
      assert NumericMembers(Present(table, i)) == (NumericIfAny(table[i].1) && NumericMembers(Present(table, i + 1)));
      hide NumericMembers, Present, NumericIfAny;
    }
  }

  lemma {:induction false} PresentSpelled(table: Table, i: nat)
    ensures SpelledMembers(Present(table, i)) <==> forall k :: i <= k < |table| ==> SpelledIfAny(table[k].1)
    decreases |table| - i
  {
    hide Spelled, Spelling;
    if i < |table| {
      PresentSpelled(table, i + 1);
      assert SpelledMembers(Present(table, i)) == (SpelledIfAny(table[i].1) && SpelledMembers(Present(table, i + 1)));
      hide SpelledMembers, Present, SpelledIfAny;
    }
  }

  // An object is fit for printing when its members are.
  lemma FieldsNumeric(table: Table)
    ensures Numeric(Fields(table)) <==> forall k :: 0 <= k < |table| ==> NumericIfAny(table[k].1)
    ensures Spelled(Fields(table)) <==> forall k :: 0 <= k < |table| ==> SpelledIfAny(table[k].1)
  {
    PresentNumeric(table, 0);
    PresentSpelled(table, 0);
    hide Present;
  }

  lemma StringIsSpelled(s: string)
    ensures Numeric(String(s)) && Spelled(String(s))
  {
  }

  lemma {:induction false} StringsAreSpelled(values: seq<string>, i: nat)
    ensures NumericItems(StringItems(values, i)) && SpelledItems(StringItems(values, i))
    decreases |values| - i
  {
    if i < |values| {
      StringsAreSpelled(values, i + 1);
    }
  }

  lemma CostsAreSpelled(costs: Costs)
    ensures var table := CostTable(costs);
            && (forall k :: 0 <= k < |table| ==> SpelledIfAny(table[k].1))
            && ((forall k :: 0 <= k < |table| ==> NumericIfAny(table[k].1)) <==> FiniteCosts(costs))
  {
    var table := CostTable(costs);
    CostIsSpelled(costs.input);
    CostIsSpelled(costs.output);
    OptionIsSpelled(costs.cacheRead);
    OptionIsSpelled(costs.cacheCreation);
    OptionIsSpelled(costs.inputAudio);
    OptionIsSpelled(costs.outputAudio);
    OptionIsSpelled(costs.reasoning);
    hide Numeric, Spelled, OptionalCost, CostNumber, FiniteIfAny;
    assert |table| == 7;
    assert table[0].1 == Some(CostNumber(costs.input)) && table[1].1 == Some(CostNumber(costs.output));
    assert table[2].1 == OptionalCost(costs.cacheRead) && table[3].1 == OptionalCost(costs.cacheCreation);
    assert table[4].1 == OptionalCost(costs.inputAudio) && table[5].1 == OptionalCost(costs.outputAudio);
    assert table[6].1 == OptionalCost(costs.reasoning);
  }

  lemma OptionIsSpelled(value: Option<F64>)
    ensures SpelledIfAny(OptionalCost(value)) && (NumericIfAny(OptionalCost(value)) <==> FiniteIfAny(value))
  {
    if value.Some? {
      CostIsSpelled(value.value);
    }
  }

  lemma TierIsSpelled(tier: PricingTier)
    ensures Spelled(Fields(TierTable(tier))) && (Numeric(Fields(TierTable(tier))) <==> FiniteCosts(tier.costs))
  {
    var table, costs := TierTable(tier), CostTable(tier.costs);
    FieldsNumeric(table);
    CostsAreSpelled(tier.costs);
    CountIsSpelled(tier.minContextTokens);
    assert |table| == |costs| + 1 && table[0].1 == Some(Count(tier.minContextTokens));
    assert forall k :: 0 <= k < |costs| ==> table[k + 1] == costs[k];
    hide Numeric, Spelled, CostTable, TierTable, Fields, Count, FiniteCosts;
    assert NumericIfAny(table[0].1) && SpelledIfAny(table[0].1);
    forall k | 0 <= k < |table| ensures SpelledIfAny(table[k].1) {
      assert k > 0 ==> table[k] == costs[k - 1];
    }
    if forall k :: 0 <= k < |costs| ==> NumericIfAny(costs[k].1) {
      forall k | 0 <= k < |table| ensures NumericIfAny(table[k].1) {
        assert k > 0 ==> table[k] == costs[k - 1];
      }
    } else {
      var k :| 0 <= k < |costs| && !NumericIfAny(costs[k].1);
      assert table[k + 1] == costs[k];
    }
  }

  lemma {:induction false} TiersAreSpelled(tiers: seq<PricingTier>, i: nat)
    ensures SpelledItems(TierItems(tiers, i))
    ensures NumericItems(TierItems(tiers, i)) <==> forall k :: i <= k < |tiers| ==> FiniteCosts(tiers[k].costs)
    decreases |tiers| - i
  {
    hide Numeric, Spelled, FiniteCosts, TierTable, Fields;
    if i < |tiers| {
      TierIsSpelled(tiers[i]);
      TiersAreSpelled(tiers, i + 1);
    }
  }

  lemma TiersRow(tiers: seq<PricingTier>, row: Option<Json>)
    requires row == if tiers == [] then None else Some(Array(TierItems(tiers, 0)))
    ensures SpelledIfAny(row)
    ensures NumericIfAny(row) <==> forall k :: 0 <= k < |tiers| ==> FiniteCosts(tiers[k].costs)
  {
    hide FiniteCosts, TierItems;
    TiersAreSpelled(tiers, 0);
  }

  lemma PricingIsSpelled(pricing: Pricing)
    ensures Spelled(Fields(PricingTable(pricing)))
        && (Numeric(Fields(PricingTable(pricing))) <==> FinitePricing(pricing))
  {
    var table, costs := PricingTable(pricing), CostTable(pricing.costs);
    assert |table| == |costs| + 1;
    assert forall k :: 0 <= k < |costs| ==> table[k] == costs[k];
    var last := table[|costs|].1;
    assert last == if pricing.tiers == [] then None else Some(Array(TierItems(pricing.tiers, 0)));
    hide Numeric, Spelled, CostTable, PricingTable, Fields, FiniteCosts, NumericIfAny, SpelledIfAny;
    FieldsNumeric(table);
    CostsAreSpelled(pricing.costs);
    TiersRow(pricing.tiers, last);
    if forall k :: 0 <= k < |costs| ==> NumericIfAny(costs[k].1) {
      assert (forall k :: 0 <= k < |table| ==> NumericIfAny(table[k].1)) <==> NumericIfAny(last);
    } else {
      var k :| 0 <= k < |costs| && !NumericIfAny(costs[k].1);
      assert table[k] == costs[k];
    }
  }

  lemma LimitIsSpelled(limit: TokenLimits)
    ensures Spelled(Fields(LimitTable(limit))) && Numeric(Fields(LimitTable(limit)))
  {
    var table := LimitTable(limit);
    CountIsSpelled(limit.context);
    CountIsSpelled(limit.output);
    if limit.input.Some? {
      CountIsSpelled(limit.input.value);
    }
    assert |table| == 3 && table[0].1 == Some(Count(limit.context)) && table[2].1 == Some(Count(limit.output));
    assert table[1].1 == if limit.input.Some? then Some(Count(limit.input.value)) else None;
    hide Numeric, Spelled, Count, LimitTable, Fields;
    FieldsNumeric(table);
  }

  lemma ModalitiesAreSpelled(modalities: ModalityNames)
    ensures Spelled(Fields(ModalitiesTable(modalities))) && Numeric(Fields(ModalitiesTable(modalities)))
  {
    var table := ModalitiesTable(modalities);
    StringsAreSpelled(modalities.input, 0);
    StringsAreSpelled(modalities.output, 0);
    assert |table| == 2 && table[0].1 == Some(Strings(modalities.input))
        && table[1].1 == Some(Strings(modalities.output));
    hide ModalitiesTable, Fields, StringItems;
    FieldsNumeric(table);
  }

  lemma CapabilitiesAreSpelled(c: Capabilities)
    ensures Spelled(Fields(CapabilitiesTable(c))) && Numeric(Fields(CapabilitiesTable(c)))
  {
    var table := CapabilitiesTable(c);
    forall k | 0 <= k < |table| ensures table[k].1 == Some(Bool(CapabilityFlags(c)[k].1)) {
    }
    hide CapabilitiesTable, CapabilityFlags, Fields;
    FieldsNumeric(table);
  }

  lemma OptionalStringIsSpelled(s: Option<string>)
    ensures SpelledIfAny(OptionalString(s)) && NumericIfAny(OptionalString(s))
  {
  }

  // The rows of a model besides the pricing never hold a number that is not one.
  lemma ModelIsSpelled(m: ModelEntry)
    ensures Spelled(Fields(ModelTable(m))) && (Numeric(Fields(ModelTable(m))) <==> FiniteModel(m))
  {
    var table := ModelTable(m);
    hide *;
    RenderFields.ModelRows(m);
    LimitIsSpelled(m.limit);
    ModalitiesAreSpelled(m.modalities);
    CapabilitiesAreSpelled(m.capabilities);
    StringIsSpelled(m.id);
    StringIsSpelled(m.name);
    StringIsSpelled(m.releaseDate);
    StringIsSpelled(m.lastUpdated);
    OptionalStringIsSpelled(m.mode);
    OptionalStringIsSpelled(m.shape);
    OptionalStringIsSpelled(m.family);
    OptionalStringIsSpelled(m.knowledge);
    PricingRow(m, table[2].1);
    OtherRows(table);
    FieldsNumeric(table);
  }

  lemma PricingRow(m: ModelEntry, row: Option<Json>)
    requires row == if m.pricing.Some? then Some(Fields(PricingTable(m.pricing.value))) else None
    ensures SpelledIfAny(row) && (NumericIfAny(row) <==> FiniteModel(m))
  {
    hide FinitePricing, PricingTable, Fields, Numeric, Spelled;
    if m.pricing.Some? {
      PricingIsSpelled(m.pricing.value);
    }
  }

  lemma OtherRows(table: Table)
    requires |table| == 12
    requires forall k :: 0 <= k < 12 && k != 2 && table[k].1.Some? ==>
      Spelled(table[k].1.value) && Numeric(table[k].1.value)
    requires SpelledIfAny(table[2].1)
    ensures forall k :: 0 <= k < |table| ==> SpelledIfAny(table[k].1)
    ensures (forall k :: 0 <= k < |table| ==> NumericIfAny(table[k].1)) <==> NumericIfAny(table[2].1)
  {
    hide Spelled, Numeric;
  }

  lemma {:induction false} ModelsAreSpelled(models: Ordered<ModelEntry>, i: nat)
    ensures SpelledMembers(ModelMembers(models, i))
    ensures NumericMembers(ModelMembers(models, i)) <==> forall k :: i <= k < |models| ==> FiniteModel(models[k].1)
    decreases |models| - i
  {
    hide Numeric, Spelled, FiniteModel, ModelTable, Fields;
    if i < |models| {
      ModelIsSpelled(models[i].1);
      ModelsAreSpelled(models, i + 1);
    }
  }

  lemma ModelsObject(p: ProviderEntry)
    ensures Spelled(Object(ModelMembers(p.models, 0)))
    ensures Numeric(Object(ModelMembers(p.models, 0))) <==> FiniteProvider(p)
  {
    hide ModelMembers;
    ModelsAreSpelled(p.models, 0);
  }

  lemma ProviderIsSpelled(p: ProviderEntry)
    ensures Spelled(Fields(ProviderTable(p))) && (Numeric(Fields(ProviderTable(p))) <==> FiniteProvider(p))
  {
    var table := ProviderTable(p);
    hide *;
    ProviderRows(p);
    StringIsSpelled(p.name);
    StringIsSpelled(p.doc);
    StringIsSpelled(p.npm);
    StringsSpelled(p.env);
    OptionalStringIsSpelled(p.api);
    ModelsObject(p);
    LastRow(table);
    FieldsNumeric(table);
  }

  lemma StringsSpelled(values: seq<string>)
    ensures Spelled(Strings(values)) && Numeric(Strings(values))
  {
    StringsAreSpelled(values, 0);
  }

  lemma LastRow(table: Table)
    requires |table| > 0
    requires forall k :: 0 <= k < |table| - 1 && table[k].1.Some? ==>
      Spelled(table[k].1.value) && Numeric(table[k].1.value)
    requires table[|table| - 1].1.Some? && Spelled(table[|table| - 1].1.value)
    ensures forall k :: 0 <= k < |table| ==> SpelledIfAny(table[k].1)
    ensures (forall k :: 0 <= k < |table| ==> NumericIfAny(table[k].1)) <==> Numeric(table[|table| - 1].1.value)
  {
    hide Spelled, Numeric;
    if Numeric(table[|table| - 1].1.value) {
      forall k | 0 <= k < |table| ensures NumericIfAny(table[k].1) {
      }
    } else {
      assert !NumericIfAny(table[|table| - 1].1);
    }
  }

  lemma {:induction false} ProvidersAreSpelled(catalog: CatalogDocument, i: nat)
    ensures SpelledMembers(ProviderMembers(catalog, i))
    ensures NumericMembers(ProviderMembers(catalog, i)) <==>
      forall k :: i <= k < |catalog| ==> FiniteProvider(catalog[k].1)
    decreases |catalog| - i
  {
    hide Numeric, Spelled, FiniteProvider, ProviderTable, Fields;
    if i < |catalog| {
      ProviderIsSpelled(catalog[i].1);
      ProvidersAreSpelled(catalog, i + 1);
    }
  }

  lemma ProvidersObject(catalog: CatalogDocument)
    ensures Spelled(Object(ProviderMembers(catalog, 0)))
    ensures Numeric(Object(ProviderMembers(catalog, 0))) <==> FiniteDocument(catalog)
  {
    hide ProviderMembers, FiniteProvider;
    ProvidersAreSpelled(catalog, 0);
  }

  lemma ProvenanceIsSpelled(p: Provenance)
    ensures Spelled(Fields(ProvenanceTable(p))) && Numeric(Fields(ProvenanceTable(p)))
  {
    var table := ProvenanceTable(p);
    hide *;
    ProvenanceRows(p);
    StringIsSpelled(p.source);
    StringIsSpelled(p.sourceSha256);
    StringIsSpelled(p.fetched);
    StringIsSpelled(p.libraryVersion);
    LastRow(table);
    FieldsNumeric(table);
  }

  // Every number of the document is one, exactly when no cost is infinite or not a number.
  lemma DocumentIsSpelled(catalog: CatalogDocument, provenance: Provenance)
    ensures Spelled(DocumentJson(catalog, provenance))
    ensures Numeric(DocumentJson(catalog, provenance)) <==> FiniteDocument(catalog)
  {
    var table := DocumentTable(catalog, provenance);
    hide *;
    DocumentRows(catalog, provenance);
    FieldsAre(table);
    ProvenanceIsSpelled(provenance);
    CountIsSpelled(SCHEMA_VERSION_NUMBER);
    ProvidersObject(catalog);
    LastRow(table);
    FieldsNumeric(table);
  }

  /// The generator

  // The printed document, parsed again, is the document; the check fails only for a cost that is not finite.
  lemma PrinterRoundTrip(catalog: CatalogDocument, provenance: Provenance)
    ensures Parse(Document(DocumentJson(catalog, provenance))) ==
            if FiniteDocument(catalog) then Some(DocumentJson(catalog, provenance)) else None
  {
    hide *;
    DocumentIsSpelled(catalog, provenance);
    LayoutRoundTrip(DocumentJson(catalog, provenance));
  }

  method RenderDocument(catalog: CatalogDocument, provenance: Provenance) returns (r: Result<string, GenError>)
    ensures r == if FiniteDocument(catalog) then Ok(Document(DocumentJson(catalog, provenance))) else Err(RoundTrip)
  {
    hide *;
    var out := DocumentText(catalog, provenance);
    PrinterRoundTrip(catalog, provenance);
    if Parse(out).None? {
      return Err(RoundTrip);
    }
    return Ok(out);
  }

  lemma RatesAreFinite(rates: Rates)
    requires forall f :: RatesMeet(rates, f)
    ensures FiniteCosts(TransformRates(rates))
  {
    assert RatesMeet(rates, Input) && RatesMeet(rates, Output) && RatesMeet(rates, Reasoning);
    assert RatesMeet(rates, CacheRead) && RatesMeet(rates, CacheWrite);
    assert RatesMeet(rates, InputAudio) && RatesMeet(rates, OutputAudio);
  }

  lemma ValidModelIsFinite(model: Model)
    requires ValidModel(model)
    ensures FiniteModel(TransformModel(model))
  {
    if model.cost.Some? {
      var cost := model.cost.value;
      forall f ensures RatesMeet(cost.rates, f) {
        assert ModelMeets(model, BaseCost(f));
      }
      RatesAreFinite(cost.rates);
      var upstream := TiersOf(cost);
      var tiers, sorted := Map(TransformTier, upstream), TransformPricing(cost).tiers;
      ValidTiersAreStrict(model);
      SameElements(sorted, tiers);
      forall k | 0 <= k < |sorted| ensures FiniteCosts(sorted[k].costs) {
        assert sorted[k] in tiers;
        var j :| 0 <= j < |tiers| && tiers[j] == sorted[k];
        forall f ensures RatesMeet(upstream[j].rates, f) {
          assert ModelMeets(model, TierCost(j, f));
        }
        RatesAreFinite(upstream[j].rates);
      }
    }
  }

  lemma ValidCatalogIsFinite(catalog: UpstreamCatalog)
    requires ValidCatalog(catalog)
    ensures FiniteDocument(TransformCatalog(catalog))
  {
    forall k | 0 <= k < |catalog| ensures FiniteProvider(TransformCatalog(catalog)[k].1) {
      var provider := catalog[k].1;
      assert ValidProvider(provider);
      forall m | 0 <= m < |provider.models| ensures FiniteModel(TransformProvider(provider).models[m].1) {
        ValidModelIsFinite(provider.models[m].1);
      }
    }
  }

  function GeneratedJson(catalog: UpstreamCatalog, provenance: Provenance): Json {
    DocumentJson(TransformCatalog(catalog), provenance)
  }
}
