/**
 The validation as one list of checks in the order of the source: what is wrong with a model or a provider
 is the first check of its list that fails.
 */
module SchemaChecks {
  import opened Wrappers
  import opened Decimal
  import opened Catalog
  import opened Schema

  datatype Check = Check(field: Field, passed: bool)

  // A number that is there is finite and not negative.
  predicate Fine(value: Option<F64>) {
    value.Some? ==> value.value.Finite? && 0.0 <= value.value.r
  }

  function RateChecks(at: CostField -> Field, rates: Rates): (checks: seq<Check>)
    ensures |checks| == 7
  {
    [ Check(at(Input), Fine(Some(rates.input))), Check(at(Output), Fine(Some(rates.output))),
      Check(at(Reasoning), Fine(rates.reasoning)), Check(at(CacheRead), Fine(rates.cacheRead)),
      Check(at(CacheWrite), Fine(rates.cacheWrite)), Check(at(InputAudio), Fine(rates.inputAudio)),
      Check(at(OutputAudio), Fine(rates.outputAudio)) ]
  }

  // The costs of a tier, and that no tier before it has its size.
  function TierChecks(tiers: seq<CostTier>, i: nat): (checks: seq<Check>)
    requires i <= |tiers|
    ensures |checks| == 8 * (|tiers| - i)
    decreases |tiers| - i
  {
    if i == |tiers| then [] else
    var newSize := forall j :: 0 <= j < i ==> tiers[j].size != tiers[i].size;
    RateChecks(field => TierCost(i, field), tiers[i].rates) + [Check(TierSize(i), newSize)] + TierChecks(tiers, i + 1)
  }

  function ModelChecks(model: Model): seq<Check> {
    [ Check(Id, model.id != ""), Check(Name, model.name != ""), Check(ContextLimit, Fine(Some(model.limit.context))),
      Check(InputLimit, Fine(model.limit.input)), Check(OutputLimit, Fine(Some(model.limit.output))) ]
    + if model.cost.None? then []
      else
        RateChecks(field => BaseCost(field), model.cost.value.rates)
        + if model.cost.value.tiers.None? then [] else TierChecks(model.cost.value.tiers.value, 0)
  }

  function ProviderChecks(provider: Provider): seq<Check> {
    [ Check(Id, provider.id != ""), Check(Name, provider.name != ""), Check(Env, provider.env != []),
      Check(Npm, provider.npm != ""), Check(Doc, provider.doc != "") ]
  }

  ghost predicate AllPass(checks: seq<Check>) {
    forall k :: 0 <= k < |checks| ==> checks[k].passed
  }

  predicate FailsFirst(checks: seq<Check>, k: nat, field: Field) {
    k < |checks| && checks[k] == Check(field, false) && forall j :: 0 <= j < k ==> checks[j].passed
  }

  /// The position of a check is the rank of its field

  lemma RateAt(at: CostField -> Field, rates: Rates, field: CostField)
    ensures RateChecks(at, rates)[CostRank(field)] == Check(at(field), RatesMeet(rates, field))
  {
  }

  lemma {:induction false} TierAt(tiers: seq<CostTier>, i: nat, index: nat)
    requires i <= index < |tiers|
    ensures var checks, start := TierChecks(tiers, i), 8 * (index - i);
            && (forall field :: checks[start + CostRank(field)]
                                == Check(TierCost(index, field), RatesMeet(tiers[index].rates, field)))
            && checks[start + 7] == Check(TierSize(index), IsNew(tiers, index))
    decreases index - i
  {
    hide RateChecks, RatesMeet, CostRank;
    if i == index {
      forall field ensures CostRank(field) < 7 && RateChecks(f => TierCost(i, f), tiers[i].rates)[CostRank(field)]
                           == Check(TierCost(i, field), RatesMeet(tiers[i].rates, field)) {
        RateAt(f => TierCost(i, f), tiers[i].rates, field);
        RankIsSmall(field);
      }
    } else {
      TierAt(tiers, i + 1, index);
      forall field ensures CostRank(field) < 7 {
        RankIsSmall(field);
      }
    }
  }

  lemma RankIsSmall(field: CostField)
    ensures CostRank(field) < 7
  {
  }

  // Every field a model can be wrong in has its check, at its rank.
  lemma ModelCheckAt(model: Model, field: Field)
    ensures !ModelMeets(model, field) ==>
      Rank(field) < |ModelChecks(model)| && ModelChecks(model)[Rank(field)] == Check(field, false)
  {
    hide RateChecks, TierChecks, RatesMeet, IsNew, CostRank;
    match field
    case BaseCost(f) =>
      RankIsSmall(f);
      if model.cost.Some? {
        RateAt(g => BaseCost(g), model.cost.value.rates, f);
      }
    case TierCost(i, f) =>
      RankIsSmall(f);
      if model.cost.Some? && i < |TiersOf(model.cost.value)| {
        TierAt(TiersOf(model.cost.value), 0, i);
      }
    case TierSize(i) =>
      if model.cost.Some? && i < |TiersOf(model.cost.value)| {
        TierAt(TiersOf(model.cost.value), 0, i);
      }
    case _ =>
  }

  // And every check stands for the field whose rank is its position.
  lemma ModelCheckIs(model: Model, k: nat)
    requires k < |ModelChecks(model)|
    ensures var check := ModelChecks(model)[k]; Rank(check.field) == k && check.passed == ModelMeets(model, check.field)
  {
    hide RateChecks, TierChecks, RatesMeet, IsNew;
    if 5 <= k < 12 {
      var f := FieldAt(k - 5);
      RateAt(g => BaseCost(g), model.cost.value.rates, f);
    } else if k >= 12 {
      var i, c := (k - 12) / 8, (k - 12) % 8;
      TierAt(model.cost.value.tiers.value, 0, i);
      if c < 7 {
        var f := FieldAt(c);
        assert ModelChecks(model)[k] == TierChecks(model.cost.value.tiers.value, 0)[8 * i + CostRank(f)];
      }
    }
  }

  lemma FieldAt(n: nat) returns (field: CostField)
    requires n < 7
    ensures CostRank(field) == n
  {
    var fields := [Input, Output, Reasoning, CacheRead, CacheWrite, InputAudio, OutputAudio];
    return fields[n];
  }

  /// What the validation finds

  // A model is valid when all its checks pass, and its first violation is the first check that fails.
  lemma ModelChecksDecide(model: Model, field: Field)
    ensures ValidModel(model) <==> AllPass(ModelChecks(model))
    ensures FirstInModel(model, field) <==> exists k: nat :: FailsFirst(ModelChecks(model), k, field)
  {
    hide ModelChecks, ModelMeets, Rank;
    var checks := ModelChecks(model);
    forall k: nat | k < |checks|
      ensures Rank(checks[k].field) == k && checks[k].passed == ModelMeets(model, checks[k].field)
    {
      ModelCheckIs(model, k);
    }
    forall f ensures !ModelMeets(model, f) ==> Rank(f) < |checks| && checks[Rank(f)] == Check(f, false) {
      ModelCheckAt(model, f);
    }
    if FirstInModel(model, field) {
      assert FailsFirst(checks, Rank(field), field);
    }
  }

  lemma ProviderChecksDecide(provider: Provider, field: Field)
    ensures AllMet(provider) <==> AllPass(ProviderChecks(provider))
    ensures FirstInProvider(provider, field) <==> exists k: nat :: FailsFirst(ProviderChecks(provider), k, field)
  {
    var checks := ProviderChecks(provider);
    forall k: nat | k < |checks|
      ensures Rank(checks[k].field) == k && checks[k].passed == ProviderMeets(provider, checks[k].field)
    {
    }
    forall f ensures !ProviderMeets(provider, f) ==> Rank(f) < |checks| && checks[Rank(f)] == Check(f, false) {
    }
    hide ProviderChecks, ProviderMeets, Rank;
    if FirstInProvider(provider, field) {
      assert FailsFirst(checks, Rank(field), field);
    }
  }

  // A catalog is valid when every check of every provider and every model passes.
  lemma CatalogChecksDecide(catalog: UpstreamCatalog)
    ensures ValidCatalog(catalog) <==>
            forall k :: 0 <= k < |catalog| ==>
              && AllPass(ProviderChecks(catalog[k].1))
              && forall m :: 0 <= m < |catalog[k].1.models| ==> AllPass(ModelChecks(catalog[k].1.models[m].1))
  {
    hide ValidModel, AllMet, AllPass, ProviderChecks, ModelChecks;
    forall k | 0 <= k < |catalog|
      ensures ValidProvider(catalog[k].1) <==>
              && AllPass(ProviderChecks(catalog[k].1))
              && forall m :: 0 <= m < |catalog[k].1.models| ==> AllPass(ModelChecks(catalog[k].1.models[m].1))
    {
      ProviderChecksDecide(catalog[k].1, Id);
      forall m | 0 <= m < |catalog[k].1.models|
        ensures ValidModel(catalog[k].1.models[m].1) <==> AllPass(ModelChecks(catalog[k].1.models[m].1))
      {
        ModelChecksDecide(catalog[k].1.models[m].1, Id);
      }
    }
  }
}
