/**
 The drift check is exact: a copy of another catalog's document is reported if and only if a provider or a
 model differs by name, rounded costs included.
 */
module DriftExact {
  import opened Wrappers
  import opened Json
  import opened JsonLayout
  import opened Decimal
  import opened CostText
  import opened Catalog
  import opened Schema
  import opened Transform
  import opened CatalogJson
  import opened CatalogBuild
  import opened CatalogRead
  import opened CatalogReadBack
  import opened Drift
  import opened DriftDetects
  import RenderText

  /// Rounded costs are printed alike

  lemma CostPrintsRounded(value: F64)
    requires Acceptable(value)
    ensures CostNumber(RoundCost(value)) == CostNumber(value)
  {
    hide FormatCost, NumeralValue, IsNumber, Rounded;
    PrintedAgain(value.r);
    CostDenotes(value.r);
  }

  lemma OptionalCostPrintsRounded(value: Option<F64>)
    requires AcceptableIfAny(value)
    ensures OptionalCost(MapOption(RoundCost, value)) == OptionalCost(value)
  {
    hide CostNumber, RoundCost;
    if value.Some? {
      CostPrintsRounded(value.value);
    }
  }

  lemma AcceptablePerToken(value: Option<F64>)
    requires AcceptableIfAny(value)
    ensures AcceptableIfAny(MapOption(PerToken, value))
  {
  }

  lemma RatesPrintRounded(rates: Rates)
    requires forall f :: RatesMeet(rates, f)
    ensures CostTable(RoundCosts(TransformRates(rates))) == CostTable(TransformRates(rates))
  {
    AllMeet(rates);
    hide CostNumber, RoundCost, OptionalCost, RatesMeet;
    CostPrintsRounded(PerToken(rates.input));
    CostPrintsRounded(PerToken(rates.output));
    AcceptablePerToken(rates.cacheRead);
    AcceptablePerToken(rates.cacheWrite);
    AcceptablePerToken(rates.inputAudio);
    AcceptablePerToken(rates.outputAudio);
    AcceptablePerToken(rates.reasoning);
    hide PerToken, MapOption, Acceptable, AcceptableIfAny;
    OptionalCostPrintsRounded(MapOption(PerToken, rates.cacheRead));
    OptionalCostPrintsRounded(MapOption(PerToken, rates.cacheWrite));
    OptionalCostPrintsRounded(MapOption(PerToken, rates.inputAudio));
    OptionalCostPrintsRounded(MapOption(PerToken, rates.outputAudio));
    OptionalCostPrintsRounded(MapOption(PerToken, rates.reasoning));
  }

  lemma {:induction false} TiersPrintRounded(tiers: seq<PricingTier>, i: nat)
    requires i <= |tiers|
    requires forall k :: 0 <= k < |tiers| ==> CostTable(RoundCosts(tiers[k].costs)) == CostTable(tiers[k].costs)
    ensures TierItems(Map(RoundTier, tiers), i) == TierItems(tiers, i)
    decreases |tiers| - i
  {
    hide Fields, CostTable, RoundCosts;
    if i < |tiers| {
      TiersPrintRounded(tiers, i + 1);
    }
  }

  lemma ModelPrintsRounded(model: Model)
    requires ValidModel(model)
    ensures var m := TransformModel(model); Fields(ModelTable(RoundModel(m))) == Fields(ModelTable(m))
  {
    var m := TransformModel(model);
    if model.cost.Some? {
      PricingPrintsRounded(model);
      var pricing := TransformPricing(model.cost.value);
      assert m.pricing == Some(pricing);
      hide PricingTable, RoundPricing, TransformPricing, LimitTable, ModalitiesTable, CapabilitiesTable, Fields,
           ValidModel;
      assert RoundModel(m).pricing == Some(RoundPricing(pricing));
      assert ModelTable(RoundModel(m)) == ModelTable(m);
    } else {
      assert RoundModel(m) == m;
    }
  }

  lemma PricingPrintsRounded(model: Model)
    requires ValidModel(model) && model.cost.Some?
    ensures var pricing := TransformPricing(model.cost.value);
            PricingTable(RoundPricing(pricing)) == PricingTable(pricing)
  {
    hide *;
    var cost := model.cost.value;
    var pricing := TransformPricing(cost);
    PricingMeets(model);
    RatesPrintRounded(cost.rates);
    forall k | 0 <= k < |pricing.tiers|
      ensures CostTable(RoundCosts(pricing.tiers[k].costs)) == CostTable(pricing.tiers[k].costs)
    {
      var rates := UpstreamRates(model, k);
      RatesPrintRounded(rates);
    }
    TiersPrintRounded(pricing.tiers, 0);
    PricingTableRounded(pricing);
  }

  lemma PricingMeets(model: Model)
    requires ValidModel(model) && model.cost.Some?
    ensures forall f :: RatesMeet(model.cost.value.rates, f)
    ensures TransformPricing(model.cost.value).costs == TransformRates(model.cost.value.rates)
  {
    hide SortTiers, TransformRates, RatesMeet;
    forall f ensures RatesMeet(model.cost.value.rates, f) {
      assert ModelMeets(model, BaseCost(f));
    }
  }

  // The upstream rates a generated tier comes from.
  lemma UpstreamRates(model: Model, k: nat) returns (rates: Rates)
    requires ValidModel(model) && model.cost.Some? && k < |TransformPricing(model.cost.value).tiers|
    ensures TransformPricing(model.cost.value).tiers[k].costs == TransformRates(rates)
    ensures forall f :: RatesMeet(rates, f)
  {
    var upstream := TiersOf(model.cost.value);
    var tiers, sorted := Map(TransformTier, upstream), TransformPricing(model.cost.value).tiers;
    ValidTiersAreStrict(model);
    SameElements(sorted, tiers);
    hide SortTiers, TransformRates, TransformPricing, TiersOf, RatesMeet;
    assert sorted[k] in tiers;
    var j :| 0 <= j < |tiers| && tiers[j] == sorted[k];
    rates := upstream[j].rates;
    forall f ensures RatesMeet(rates, f) {
      assert ModelMeets(model, TierCost(j, f));
    }
  }

  lemma PricingTableRounded(pricing: Pricing)
    requires CostTable(RoundCosts(pricing.costs)) == CostTable(pricing.costs)
    requires TierItems(Map(RoundTier, pricing.tiers), 0) == TierItems(pricing.tiers, 0)
    ensures PricingTable(RoundPricing(pricing)) == PricingTable(pricing)
  {
    hide CostTable, RoundCosts, TierItems, RoundTier;
  }

  lemma {:induction false} ModelsPrintRounded(provider: Provider, i: nat)
    requires ValidProvider(provider) && i <= |provider.models|
    ensures var models := TransformProvider(provider).models;
            ModelMembers(Map(RoundModelEntry, models), i) == ModelMembers(models, i)
    decreases |provider.models| - i
  {
    hide ModelTable, Fields, RoundModel, TransformModel, ValidModel;
    if i < |provider.models| {
      ModelsPrintRounded(provider, i + 1);
      ModelPrintsRounded(provider.models[i].1);
    }
  }

  lemma {:induction false} ProvidersPrintRounded(catalog: UpstreamCatalog, i: nat)
    requires ValidCatalog(catalog) && i <= |catalog|
    ensures var document := TransformCatalog(catalog);
            ProviderMembers(RoundDocument(document), i) == ProviderMembers(document, i)
    decreases |catalog| - i
  {
    hide Fields, ModelMembers, ValidProvider, RoundModelEntry;
    if i < |catalog| {
      ProvidersPrintRounded(catalog, i + 1);
      ModelsPrintRounded(catalog[i].1, 0);
      ProviderTableRounded(TransformProvider(catalog[i].1));
    }
  }

  lemma ProviderTableRounded(provider: ProviderEntry)
    requires ModelMembers(Map(RoundModelEntry, provider.models), 0) == ModelMembers(provider.models, 0)
    ensures ProviderTable(RoundProvider(provider)) == ProviderTable(provider)
  {
    hide ModelMembers, Strings;
  }

  /// What is compared depends on the names only

  // The last model of this name, if there is one.
  lemma {:induction false} ModelNamed<N>(number: string -> N, models: Ordered<ModelEntry>, i: nat, name: string)
    requires i <= |models|
    ensures var byName, values := ModelsByName(models[i..]), MemberValues(number, ModelMembers(models, i));
            && (name in byName <==> name in values)
            && (name in byName ==> values[name] == ValueOf(number, Fields(ModelTable(byName[name]))))
    decreases |models| - i
  {
    hide Fields, ModelTable, ValueOf;
    if i < |models| {
      ModelNamed(number, models, i + 1, name);
      assert models[i..][1..] == models[i + 1..];
    }
  }

  lemma ModelsNamed<N>(number: string -> N, a: Ordered<ModelEntry>, b: Ordered<ModelEntry>)
    requires ModelsByName(a) == ModelsByName(b)
    ensures MemberValues(number, ModelMembers(a, 0)) == MemberValues(number, ModelMembers(b, 0))
  {
    hide Fields, ModelTable, ValueOf, ModelsByName, MemberValues, ModelMembers;
    assert a[0..] == a && b[0..] == b;
    var x, y := MemberValues(number, ModelMembers(a, 0)), MemberValues(number, ModelMembers(b, 0));
    forall name ensures name in x <==> name in y
      ensures name in x ==> x[name] == y[name]
    {
      ModelNamed(number, a, 0, name);
      ModelNamed(number, b, 0, name);
    }
  }

  // Two tables with the same names, and members that are read alike.
  lemma {:induction false} TablesReadAlike<N>(number: string -> N, t: Table, u: Table, i: nat)
    requires |t| == |u| && i <= |t|
    requires forall k :: 0 <= k < |t| ==> t[k].0 == u[k].0 && t[k].1.Some? == u[k].1.Some?
    requires forall k :: 0 <= k < |t| && t[k].1.Some? ==> ValueOf(number, t[k].1.value) == ValueOf(number, u[k].1.value)
    ensures MemberValues(number, Present(t, i)) == MemberValues(number, Present(u, i))
    decreases |t| - i
  {
    hide Spelling, ValueOf;
    if i < |t| {
      TablesReadAlike(number, t, u, i + 1);
    }
  }

  lemma ProvidersReadAlike<N>(number: string -> N, p: ProviderEntry, q: ProviderEntry)
    requires View(p) == View(q)
    ensures ValueOf(number, Fields(ProviderTable(p))) == ValueOf(number, Fields(ProviderTable(q)))
  {
    hide *;
    var t, u := ProviderTable(p), ProviderTable(q);
    ModelsMatch(p, q);
    ModelsNamed(number, p.models, q.models);
    RowsReadAlike(number, p, q);
    TablesReadAlike(number, t, u, 0);
    ValueOfFields(number, t);
    ValueOfFields(number, u);
  }

  lemma ModelsMatch(p: ProviderEntry, q: ProviderEntry)
    requires View(p) == View(q)
    ensures ModelsByName(p.models) == ModelsByName(q.models)
    ensures p.name == q.name && p.env == q.env && p.doc == q.doc && p.api == q.api && p.npm == q.npm
  {
    hide ModelsByName;
    var a, b := p.(models := []), q.(models := []);
    assert a == b && a.name == p.name && a.env == p.env && a.doc == p.doc && a.api == p.api && a.npm == p.npm;
  }

  lemma RowsReadAlike<N>(number: string -> N, p: ProviderEntry, q: ProviderEntry)
    requires p.name == q.name && p.env == q.env && p.doc == q.doc && p.api == q.api && p.npm == q.npm
    requires MemberValues(number, ModelMembers(p.models, 0)) == MemberValues(number, ModelMembers(q.models, 0))
    ensures var t, u := ProviderTable(p), ProviderTable(q);
            && |t| == |u|
            && (forall k :: 0 <= k < |t| ==> t[k].0 == u[k].0 && t[k].1.Some? == u[k].1.Some?)
            && (forall k :: 0 <= k < |t| && t[k].1.Some? ==>
                  ValueOf(number, t[k].1.value) == ValueOf(number, u[k].1.value))
  {
    hide ModelMembers, MemberValues, Strings, OptionalString;
  }

  lemma ValueOfFields<N>(number: string -> N, table: Table)
    ensures ValueOf(number, Fields(table)) == Value.Object(MemberValues(number, Present(table, 0)))
  {
  }

  lemma {:induction false} ProviderNamed<N>(number: string -> N, catalog: CatalogDocument, i: nat, name: string)
    returns (p: Option<ProviderEntry>)
    requires i <= |catalog|
    ensures var byName, values := ByName(catalog[i..]), MemberValues(number, ProviderMembers(catalog, i));
            && (p.Some? <==> name in byName) && (p.Some? <==> name in values)
            && (p.Some? ==> byName[name] == View(p.value))
            && (p.Some? ==> values[name] == ValueOf(number, Fields(ProviderTable(p.value))))
    decreases |catalog| - i
  {
    hide Fields, ProviderTable, ValueOf, View;
    p := None;
    if i < |catalog| {
      p := ProviderNamed(number, catalog, i + 1, name);
      assert catalog[i..][1..] == catalog[i + 1..];
      if p.None? && catalog[i].0 == name {
        p := Some(catalog[i].1);
      }
    }
  }

  lemma ProvidersNamed<N>(number: string -> N, x: CatalogDocument, y: CatalogDocument)
    requires ByName(x) == ByName(y)
    ensures MemberValues(number, ProviderMembers(x, 0)) == MemberValues(number, ProviderMembers(y, 0))
  {
    hide Fields, ProviderTable, ValueOf, View, ByName, MemberValues, ProviderMembers;
    assert x[0..] == x && y[0..] == y;
    var a, b := MemberValues(number, ProviderMembers(x, 0)), MemberValues(number, ProviderMembers(y, 0));
    forall name ensures name in a <==> name in b
      ensures name in a ==> a[name] == b[name]
    {
      var p := ProviderNamed(number, x, 0, name);
      var q := ProviderNamed(number, y, 0, name);
      if p.Some? {
        ProvidersReadAlike(number, p.value, q.value);
      }
    }
  }

  lemma SameProvidersSameContents<N>(number: string -> N, x: CatalogDocument, y: CatalogDocument, a: Provenance,
                                     b: Provenance)
    requires MemberValues(number, ProviderMembers(x, 0)) == MemberValues(number, ProviderMembers(y, 0))
    ensures SameContents(ValueOf(number, DocumentJson(x, a)), ValueOf(number, DocumentJson(y, b)))
  {
    hide Spelling, DistinctNames, DocumentTable, Fields, ProviderMembers, Present, ProvenanceTable, Count,
         Drift.Member;
    RenderText.DocumentRows(x, a);
    RenderText.DocumentRows(y, b);
    DocumentNames(x, a);
    DocumentNames(y, b);
    MemberOfFields(number, DocumentTable(x, a), 1);
    MemberOfFields(number, DocumentTable(y, b), 1);
    MemberOfFields(number, DocumentTable(x, a), 2);
    MemberOfFields(number, DocumentTable(y, b), 2);
  }

  // Documents of valid catalogs that have the same providers and models by name are equal to the check.
  lemma SameNamesSameContents<N>(number: string -> N, other: UpstreamCatalog, catalog: UpstreamCatalog,
                                 written: Provenance, checked: Provenance)
    requires ValidCatalog(other) && ValidCatalog(catalog)
    requires ByName(RoundDocument(TransformCatalog(other))) == ByName(RoundDocument(TransformCatalog(catalog)))
    ensures SameContents(ValueOf(number, GeneratedJson(other, written)),
                         ValueOf(number, GeneratedJson(catalog, checked)))
  {
    hide ValidCatalog, TransformCatalog, RoundDocument, ByName, ProviderMembers, MemberValues, SameContents, ValueOf,
         DocumentJson;
    var x, y := TransformCatalog(other), TransformCatalog(catalog);
    ProvidersPrintRounded(other, 0);
    ProvidersPrintRounded(catalog, 0);
    ProvidersNamed(number, RoundDocument(x), RoundDocument(y));
    SameProvidersSameContents(number, x, y, written, checked);
  }

  // A copy of the document of another valid catalog is reported exactly if a provider or a model differs by
  // name, rounded costs included. The order of providers and models, and the provenance, do not count.
  lemma StaleExactlyWhenNamesDiffer<N(!new)>(number: string -> N, disk: Disk, paths: seq<Path>, path: Path,
                                             other: UpstreamCatalog, catalog: UpstreamCatalog, written: Provenance,
                                             checked: Provenance)
    requires ValidCatalog(other) && ValidCatalog(catalog) && path in paths
    requires disk(path) == Some(Document(GeneratedJson(other, written)))
    requires TellsApart(number, Lexemes(GeneratedJson(other, written)), Lexemes(GeneratedJson(catalog, checked)))
    ensures var stale := StalePaths(number, disk, paths, Document(GeneratedJson(catalog, checked)));
            && stale.Ok?
            && (path in stale.value <==>
                ByName(RoundDocument(TransformCatalog(other))) != ByName(RoundDocument(TransformCatalog(catalog))))
  {
    hide Parse, Document, DocumentJson, ValueOf, SameContents, ValidCatalog, FiniteDocument, TransformCatalog,
         StalePaths, RoundDocument, ByName, TellsApart, Lexemes;
    ValidCatalogIsFinite(other);
    ValidCatalogIsFinite(catalog);
    PrinterRoundTrip(TransformCatalog(other), written);
    PrinterRoundTrip(TransformCatalog(catalog), checked);
    StaleUnlessCurrent(number, disk, paths, Document(GeneratedJson(catalog, checked)), path);
    var x, y := GeneratedJson(other, written), GeneratedJson(catalog, checked);
    if SameContents(ValueOf(number, x), ValueOf(number, y)) {
      SameContentsSameNames(number, TransformCatalog(other), TransformCatalog(catalog), written, checked);
    } else if ByName(RoundDocument(TransformCatalog(other))) == ByName(RoundDocument(TransformCatalog(catalog))) {
      SameNamesSameContents(number, other, catalog, written, checked);
      assert false;
    }
  }
}
