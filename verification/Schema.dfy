/**
 Structural validation of the upstream catalog: what is demanded of each field, and the loops that report
 the first field that does not meet it.
 */
module Schema {
  import opened Wrappers
  import opened Decimal
  import opened Catalog

  // `value < 0.0 || !value.is_finite()`, the other way round.
  predicate Acceptable(value: F64) {
    value.Finite? && value.r >= 0.0
  }

  predicate AcceptableIfAny(value: Option<F64>) {
    value.Some? ==> Acceptable(value.value)
  }

  /// What is demanded

  predicate RatesMeet(rates: Rates, field: CostField) {
    match field
    case Input => Acceptable(rates.input)
    case Output => Acceptable(rates.output)
    case Reasoning => AcceptableIfAny(rates.reasoning)
    case CacheRead => AcceptableIfAny(rates.cacheRead)
    case CacheWrite => AcceptableIfAny(rates.cacheWrite)
    case InputAudio => AcceptableIfAny(rates.inputAudio)
    case OutputAudio => AcceptableIfAny(rates.outputAudio)
  }

  predicate IsNew(tiers: seq<CostTier>, index: nat)
    requires index < |tiers|
  {
    forall j :: 0 <= j < index ==> tiers[j].size != tiers[index].size
  }

  function TiersOf(cost: OutputCost): seq<CostTier> {
    if cost.tiers.Some? then cost.tiers.value else []
  }

  // The field is as the schema wants it. A field that is not there cannot be wrong.
  predicate ModelMeets(model: Model, field: Field) {
    match field
    case Id => model.id != []
    case Name => model.name != []
    case ContextLimit => Acceptable(model.limit.context)
    case InputLimit => AcceptableIfAny(model.limit.input)
    case OutputLimit => Acceptable(model.limit.output)
    case BaseCost(f) => model.cost.Some? ==> RatesMeet(model.cost.value.rates, f)
    case TierCost(i, f) =>
      model.cost.Some? && i < |TiersOf(model.cost.value)| ==> RatesMeet(TiersOf(model.cost.value)[i].rates, f)
    case TierSize(i) =>
      model.cost.Some? && i < |TiersOf(model.cost.value)| ==> IsNew(TiersOf(model.cost.value), i)
    case _ => true
  }

  predicate ProviderMeets(provider: Provider, field: Field) {
    match field
    case Id => provider.id != []
    case Name => provider.name != []
    case Env => provider.env != []
    case Npm => provider.npm != []
    case Doc => provider.doc != []
    case _ => true
  }

  ghost predicate ValidModel(model: Model) {
    forall field :: ModelMeets(model, field)
  }

  ghost predicate ValidProvider(provider: Provider) {
    AllMet(provider) && forall k :: 0 <= k < |provider.models| ==> ValidModel(provider.models[k].1)
  }

  ghost predicate ValidCatalog(catalog: UpstreamCatalog) {
    forall k :: 0 <= k < |catalog| ==> ValidProvider(catalog[k].1)
  }

  /// The order of the checks

  function CostRank(field: CostField): nat {
    match field
    case Input => 0
    case Output => 1
    case Reasoning => 2
    case CacheRead => 3
    case CacheWrite => 4
    case InputAudio => 5
    case OutputAudio => 6
  }

  // The position of a field's check among those of its provider or model.
  function Rank(field: Field): nat {
    match field
    case Id => 0
    case Name => 1
    case Env => 2
    case Npm => 3
    case Doc => 4
    case ContextLimit => 2
    case InputLimit => 3
    case OutputLimit => 4
    case BaseCost(f) => 5 + CostRank(f)
    case TierCost(i, f) => 12 + 8 * i + CostRank(f)
    case TierSize(i) => 12 + 8 * i + 7
  }

  // The field is wrong, and every field that is checked before it is right.
  ghost predicate FirstInModel(model: Model, field: Field) {
    !ModelMeets(model, field) && forall f :: Rank(f) < Rank(field) ==> ModelMeets(model, f)
  }

  ghost predicate FirstInProvider(provider: Provider, field: Field) {
    !ProviderMeets(provider, field) && forall f :: Rank(f) < Rank(field) ==> ProviderMeets(provider, f)
  }

  ghost predicate FirstModelAt(models: Ordered<Model>, k: nat, model: string, field: Field) {
    && k < |models| && models[k].0 == model && FirstInModel(models[k].1, field)
    && forall j :: 0 <= j < k ==> ValidModel(models[j].1)
  }

  ghost predicate AllMet(provider: Provider) {
    forall field :: ProviderMeets(provider, field)
  }

  // The first violation in the order of the maps and of the checks is in the `k`th provider.
  ghost predicate FirstAt(catalog: UpstreamCatalog, k: nat, v: Violation) {
    && k < |catalog| && catalog[k].0 == v.provider
    && (forall j :: 0 <= j < k ==> ValidProvider(catalog[j].1))
    && if AllMet(catalog[k].1) then exists m: nat :: FirstModelAt(catalog[k].1.models, m, v.model, v.field)
       else v.model == v.provider && FirstInProvider(catalog[k].1, v.field)
  }

  ghost predicate First(catalog: UpstreamCatalog, v: Violation) {
    exists k: nat :: FirstAt(catalog, k, v)
  }

  /// The checks

  method ValidateRates(rates: Rates) returns (wrong: Option<CostField>)
    ensures wrong.None? ==> forall f :: RatesMeet(rates, f)
    ensures wrong.Some? ==> !RatesMeet(rates, wrong.value)
    ensures wrong.Some? ==> forall f :: CostRank(f) < CostRank(wrong.value) ==> RatesMeet(rates, f)
  {
    var checks := [(Input, rates.input), (Output, rates.output)];
    for i := 0 to |checks|
      invariant forall f :: CostRank(f) < i ==> RatesMeet(rates, f)
    {
      if !Acceptable(checks[i].1) {
        return Some(checks[i].0);
      }
    }
    var optional := [(Reasoning, rates.reasoning), (CacheRead, rates.cacheRead), (CacheWrite, rates.cacheWrite),
                     (InputAudio, rates.inputAudio), (OutputAudio, rates.outputAudio)];
    for i := 0 to |optional|
      invariant forall f :: CostRank(f) < 2 + i ==> RatesMeet(rates, f)
    {
      if !AcceptableIfAny(optional[i].1) {
        return Some(optional[i].0);
      }
    }
    return None;
  }

  method ValidateTiers(model: Model) returns (wrong: Option<Field>)
    requires model.cost.Some? && forall f :: Rank(f) < 12 ==> ModelMeets(model, f)
    ensures wrong.None? ==> ValidModel(model)
    ensures wrong.Some? ==> FirstInModel(model, wrong.value)
  {
    var tiers := TiersOf(model.cost.value);
    var seenSizes: set<nat> := {};
    for i := 0 to |tiers|
      invariant seenSizes == set j | 0 <= j < i :: tiers[j].size
      invariant forall f :: Rank(f) < 12 + 8 * i ==> ModelMeets(model, f)
    {
      var cost := ValidateRates(tiers[i].rates);
      if cost.Some? {
        return Some(TierCost(i, cost.value));
      }
      if tiers[i].size in seenSizes {
        return Some(TierSize(i));
      }
      seenSizes := seenSizes + {tiers[i].size};
    }
    return None;
  }

  method ValidateModel(model: Model) returns (wrong: Option<Field>)
    ensures wrong.None? ==> ValidModel(model)
    ensures wrong.Some? ==> FirstInModel(model, wrong.value)
  {
    if model.id == [] { return Some(Id); }
    if model.name == [] { return Some(Name); }
    if !Acceptable(model.limit.context) { return Some(ContextLimit); }
    if !AcceptableIfAny(model.limit.input) { return Some(InputLimit); }
    if !Acceptable(model.limit.output) { return Some(OutputLimit); }
    if model.cost.None? { return None; }
    var cost := ValidateRates(model.cost.value.rates);
    if cost.Some? { return Some(BaseCost(cost.value)); }
    wrong := ValidateTiers(model);
  }

  method ValidateProvider(provider: Provider) returns (wrong: Option<Field>)
    ensures wrong.None? ==> AllMet(provider)
    ensures wrong.Some? ==> FirstInProvider(provider, wrong.value)
  {
    if provider.id == [] { return Some(Id); }
    if provider.name == [] { return Some(Name); }
    if provider.env == [] { return Some(Env); }
    if provider.npm == [] { return Some(Npm); }
    if provider.doc == [] { return Some(Doc); }
    return None;
  }

  method ValidateModels(models: Ordered<Model>) returns (wrong: Option<(nat, Field)>)
    ensures wrong.None? ==> forall k :: 0 <= k < |models| ==> ValidModel(models[k].1)
    ensures wrong.Some? ==> wrong.value.0 < |models|
    ensures wrong.Some? ==> FirstModelAt(models, wrong.value.0, models[wrong.value.0].0, wrong.value.1)
  {
    for i := 0 to |models|
      invariant forall k :: 0 <= k < i ==> ValidModel(models[k].1)
    {
      var field := ValidateModel(models[i].1);
      if field.Some? {
        return Some((i, field.value));
      }
    }
    return None;
  }

  lemma FirstIsAViolation(catalog: UpstreamCatalog, k: nat, v: Violation)
    requires FirstAt(catalog, k, v)
    ensures !ValidCatalog(catalog) && !ValidProvider(catalog[k].1)
  {
    if AllMet(catalog[k].1) {
      var models := catalog[k].1.models;
      var m: nat :| FirstModelAt(models, m, v.model, v.field);
      assert !ModelMeets(models[m].1, v.field);
      assert !ValidModel(models[m].1);
    }
    assert !ValidProvider(catalog[k].1);
  }

  // Only fields that are checked can be wrong, and no two of them are checked at once.
  lemma FirstInModelIsUnique(model: Model, f: Field, g: Field)
    requires FirstInModel(model, f) && FirstInModel(model, g)
    ensures f == g
  {
    assert Rank(f) == Rank(g);
  }

  lemma FirstInProviderIsUnique(provider: Provider, f: Field, g: Field)
    requires FirstInProvider(provider, f) && FirstInProvider(provider, g)
    ensures f == g
  {
    assert Rank(f) == Rank(g);
  }

  // The first violation is one only.
  lemma FirstIsUnique(catalog: UpstreamCatalog, v: Violation, w: Violation)
    requires First(catalog, v) && First(catalog, w)
    ensures v == w
  {
    var j: nat :| FirstAt(catalog, j, v);
    var k: nat :| FirstAt(catalog, k, w);
    FirstIsAViolation(catalog, j, v);
    FirstIsAViolation(catalog, k, w);
    assert j == k;
    var provider := catalog[k].1;
    if AllMet(provider) {
      var m: nat :| FirstModelAt(provider.models, m, v.model, v.field);
      var n: nat :| FirstModelAt(provider.models, n, w.model, w.field);
      assert !ModelMeets(provider.models[m].1, v.field) && !ModelMeets(provider.models[n].1, w.field);
      assert m == n;
      FirstInModelIsUnique(provider.models[m].1, v.field, w.field);
    } else {
      FirstInProviderIsUnique(provider, v.field, w.field);
    }
  }

  lemma OnlyOneIsFirst(catalog: UpstreamCatalog, v: Violation)
    requires First(catalog, v)
    ensures forall w :: First(catalog, w) <==> w == v
  {
    forall w | First(catalog, w) ensures w == v {
      FirstIsUnique(catalog, v, w);
    }
  }

  // Ok exactly when the catalog is valid, and otherwise the one violation that is the first.
  method ValidateCatalog(catalog: UpstreamCatalog) returns (r: Result<(), Violation>)
    ensures r.Ok? <==> ValidCatalog(catalog)
    ensures r.Err? ==> forall v :: First(catalog, v) <==> v == r.error
  {
    for i := 0 to |catalog|
      invariant forall k :: 0 <= k < i ==> ValidProvider(catalog[k].1)
    {
      var (providerId, provider) := catalog[i];
      var field := ValidateProvider(provider);
      if field.Some? {
        assert !ProviderMeets(catalog[i].1, field.value);
        r := Err(Violation(providerId, providerId, field.value));
        assert FirstAt(catalog, i, r.error);
        OnlyOneIsFirst(catalog, r.error);
        return;
      }
      var wrong := ValidateModels(provider.models);
      if wrong.Some? {
        r := Err(Violation(providerId, provider.models[wrong.value.0].0, wrong.value.1));
        assert FirstAt(catalog, i, r.error);
        FirstIsAViolation(catalog, i, r.error);
        OnlyOneIsFirst(catalog, r.error);
        return;
      }
    }
    return Ok(());
  }

  /// The context window

  // What the documentation of the validation demands.
  predicate PositiveWindow(model: Model) {
    model.limit.context.Finite? && model.limit.context.r > 0.0
  }

  // The validation accepts one window more, and no other: zero.
  lemma OnlyZeroWindowsDiffer(model: Model)
    requires ValidModel(model)
    ensures !PositiveWindow(model) <==> model.limit.context == Finite(0.0)
    ensures ValidModel(model.(limit := model.limit.(context := Finite(0.0))))
  {
    assert ModelMeets(model, ContextLimit);
    var other := model.(limit := model.limit.(context := Finite(0.0)));
    forall field ensures ModelMeets(other, field) {
      assert ModelMeets(model, field);
    }
  }

  // A model of images, without a window for text.
  const IMAGE_MODEL: Model := Model("gpt-image-1", "GPT Image 1", None, false, false, false, None, None, "", "",
    Modalities([Modality.Text], [Image]), false, Limit(Finite(0.0), None, Finite(0.0)), None, None)

  lemma ZeroWindowIsValid()
    ensures ValidModel(IMAGE_MODEL) && !PositiveWindow(IMAGE_MODEL)
  {
    assert IMAGE_MODEL.id[0] == 'g' && IMAGE_MODEL.name[0] == 'G';
  }
}
