/**
 From the upstream catalog to the nested document: rates per token, limits as token counts, tiers sorted
 by threshold; and the tier a run-time lookup picks from them.
 */
module Transform {
  import opened Wrappers
  import opened Decimal
  import opened Catalog
  import opened Schema

  /// The document

  // In the order in which the fields are written.
  datatype Costs = Costs(
    input: F64,
    output: F64,
    cacheRead: Option<F64>,
    cacheCreation: Option<F64>,
    inputAudio: Option<F64>,
    outputAudio: Option<F64>,
    reasoning: Option<F64>)

  datatype PricingTier = PricingTier(minContextTokens: nat, costs: Costs)

  datatype Pricing = Pricing(costs: Costs, tiers: seq<PricingTier>)

  datatype TokenLimits = TokenLimits(context: nat, input: Option<nat>, output: nat)

  datatype ModalityNames = ModalityNames(input: seq<string>, output: seq<string>)

  datatype Capabilities = Capabilities(
    vision: bool,
    functionCalling: bool,
    reasoning: bool,
    structuredOutput: bool,
    audioInput: bool,
    audioOutput: bool,
    promptCaching: bool,
    attachment: bool,
    openWeights: bool)

  datatype ModelEntry = ModelEntry(
    id: string,
    name: string,
    pricing: Option<Pricing>,
    limit: TokenLimits,
    modalities: ModalityNames,
    mode: Option<string>,
    capabilities: Capabilities,
    shape: Option<string>,
    family: Option<string>,
    knowledge: Option<string>,
    releaseDate: string,
    lastUpdated: string)

  datatype ProviderEntry = ProviderEntry(
    name: string,
    env: seq<string>,
    doc: string,
    api: Option<string>,
    npm: string,
    models: Ordered<ModelEntry>)

  type CatalogDocument = Ordered<ProviderEntry>

  /// Numbers

  const TOKENS_PER_UNIT: real := 1_000_000.0
  const U64_MAX: nat := 0xffff_ffff_ffff_ffff

  function PerToken(costPerMillion: F64): F64 {
    match costPerMillion
    case Finite(r) => Finite(r / TOKENS_PER_UNIT)
    case _ => costPerMillion
  }

  function MapOption<A, B>(f: A -> B, a: Option<A>): Option<B> {
    if a.Some? then Some(f(a.value)) else None
  }

  // Rounding half away from zero and a cast that saturates.
  function LimitTokens(value: F64): nat {
    if !Acceptable(value) then 0 else
    var rounded := (value.r + 0.5).Floor;
    if rounded > U64_MAX then U64_MAX else rounded
  }

  // The count nearest to a limit that is finite and not negative, halves up, or the cap.
  predicate Nearest(value: F64, n: nat) {
    && Acceptable(value) && n <= U64_MAX
    && (n < U64_MAX ==> value.r - 0.5 < n as real <= value.r + 0.5)
    && (n == U64_MAX ==> value.r >= U64_MAX as real - 0.5)
  }

  /// Pricing

  function TransformRates(rates: Rates): Costs {
    Costs(PerToken(rates.input), PerToken(rates.output),
          MapOption(PerToken, rates.cacheRead), MapOption(PerToken, rates.cacheWrite),
          MapOption(PerToken, rates.inputAudio), MapOption(PerToken, rates.outputAudio),
          MapOption(PerToken, rates.reasoning))
  }

  function TransformTier(tier: CostTier): PricingTier {
    PricingTier(tier.size, TransformRates(tier.rates))
  }

  function Map<A, B>(f: A -> B, s: seq<A>): (r: seq<B>)
    ensures |r| == |s| && forall k :: 0 <= k < |s| ==> r[k] == f(s[k])
  {
    seq(|s|, k requires 0 <= k < |s| => f(s[k]))
  }

  // In front of the first tier whose threshold is not smaller.
  function Insert(tier: PricingTier, tiers: seq<PricingTier>): (r: seq<PricingTier>)
    ensures |r| == |tiers| + 1
  {
    if tiers == [] || tier.minContextTokens <= tiers[0].minContextTokens then [tier] + tiers
    else [tiers[0]] + Insert(tier, tiers[1..])
  }

  // A stable sort by threshold.
  function SortTiers(tiers: seq<PricingTier>): (r: seq<PricingTier>)
    ensures |r| == |tiers|
  {
    if tiers == [] then [] else Insert(tiers[0], SortTiers(tiers[1..]))
  }

  function TransformPricing(cost: OutputCost): Pricing {
    Pricing(TransformRates(cost.rates), SortTiers(Map(TransformTier, TiersOf(cost))))
  }

  /// Models

  function ModalityName(modality: Modality): string {
    match modality
    case Text => "text"
    case Audio => "audio"
    case Image => "image"
    case Video => "video"
    case Pdf => "pdf"
  }

  function ShapeName(shape: ProviderShape): string {
    match shape
    case Responses => "responses"
    case Completions => "completions"
  }

  function InferMode(modalities: Modalities): Option<string> {
    if Image in modalities.output then Some("image_generation")
    else if Audio in modalities.output then Some("audio_speech")
    else if Audio in modalities.input && modalities.output == [Text] then Some("audio_transcription")
    else if Text in modalities.output then Some("chat")
    else None
  }

  function TransformModel(model: Model): ModelEntry {
    ModelEntry(
      model.id,
      model.name,
      MapOption(TransformPricing, model.cost),
      TokenLimits(LimitTokens(model.limit.context), MapOption(LimitTokens, model.limit.input),
                  LimitTokens(model.limit.output)),
      ModalityNames(Map(ModalityName, model.modalities.input), Map(ModalityName, model.modalities.output)),
      InferMode(model.modalities),
      Capabilities(
        Image in model.modalities.input,
        model.toolCall,
        model.reasoning,
        model.structuredOutput == Some(true),
        Audio in model.modalities.input,
        Audio in model.modalities.output,
        model.cost.Some? && (model.cost.value.rates.cacheRead.Some? || model.cost.value.rates.cacheWrite.Some?),
        model.attachment,
        model.openWeights),
      MapOption(ShapeName, model.shape),
      model.family,
      model.knowledge,
      model.releaseDate,
      model.lastUpdated)
  }

  function TransformProvider(provider: Provider): ProviderEntry {
    ProviderEntry(provider.name, provider.env, provider.doc, provider.api, provider.npm,
                  Map((entry: (string, Model)) => (entry.0, TransformModel(entry.1)), provider.models))
  }

  function TransformCatalog(catalog: UpstreamCatalog): CatalogDocument {
    Map((entry: (string, Provider)) => (entry.0, TransformProvider(entry.1)), catalog)
  }

  // After validation the fallback of zero is taken for no limit of the document.
  lemma LimitsAreNearest(catalog: UpstreamCatalog, k: nat, m: nat)
    requires ValidCatalog(catalog) && k < |catalog| && m < |catalog[k].1.models|
    ensures m < |TransformCatalog(catalog)[k].1.models|
    ensures var upstream, limit := catalog[k].1.models[m].1.limit, TransformCatalog(catalog)[k].1.models[m].1.limit;
            && Nearest(upstream.context, limit.context) && Nearest(upstream.output, limit.output)
            && upstream.input.Some? == limit.input.Some?
            && (upstream.input.Some? ==> Nearest(upstream.input.value, limit.input.value))
  {
    assert ValidProvider(catalog[k].1);
    var model := catalog[k].1.models[m].1;
    assert ModelMeets(model, ContextLimit) && ModelMeets(model, InputLimit) && ModelMeets(model, OutputLimit);
    hide TransformPricing, ModelMeets;
  }

  /// Sorting

  predicate Increasing(tiers: seq<PricingTier>) {
    forall j, k :: 0 <= j < k < |tiers| ==> tiers[j].minContextTokens <= tiers[k].minContextTokens
  }

  predicate StrictlyIncreasing(tiers: seq<PricingTier>) {
    forall j, k :: 0 <= j < k < |tiers| ==> tiers[j].minContextTokens < tiers[k].minContextTokens
  }

  // The tiers with one threshold, in order.
  function WithThreshold(tiers: seq<PricingTier>, n: nat): seq<PricingTier> {
    if tiers == [] then []
    else (if tiers[0].minContextTokens == n then [tiers[0]] else []) + WithThreshold(tiers[1..], n)
  }

  lemma {:induction false} InsertAdds(tier: PricingTier, tiers: seq<PricingTier>)
    ensures multiset(Insert(tier, tiers)) == multiset(tiers) + multiset{tier}
  {
    if !(tiers == [] || tier.minContextTokens <= tiers[0].minContextTokens) {
      InsertAdds(tier, tiers[1..]);
      assert tiers == [tiers[0]] + tiers[1..];
    }
  }

  lemma {:induction false} InsertSorts(tier: PricingTier, tiers: seq<PricingTier>)
    requires Increasing(tiers)
    ensures Increasing(Insert(tier, tiers))
  {
    if !(tiers == [] || tier.minContextTokens <= tiers[0].minContextTokens) {
      InsertSorts(tier, tiers[1..]);
      InsertBounds(tier, tiers[1..], tiers[0].minContextTokens);
    }
  }

  // The inserted tier comes first among those with its threshold.
  lemma {:induction false} InsertIsStable(tier: PricingTier, tiers: seq<PricingTier>, n: nat)
    ensures WithThreshold(Insert(tier, tiers), n) ==
            (if tier.minContextTokens == n then [tier] else []) + WithThreshold(tiers, n)
  {
    if tiers == [] || tier.minContextTokens <= tiers[0].minContextTokens {
      assert ([tier] + tiers)[1..] == tiers;
    } else {
      var rest := Insert(tier, tiers[1..]);
      InsertIsStable(tier, tiers[1..], n);
      assert ([tiers[0]] + rest)[1..] == rest;
      var later := WithThreshold(tiers[1..], n);
      if tier.minContextTokens == n {
        assert [] + ([tier] + later) == [tier] + ([] + later);
      } else {
        assert WithThreshold(rest, n) == later by { assert [] + later == later; }
        assert [] + WithThreshold(tiers, n) == WithThreshold(tiers, n);
      }
    }
  }

  lemma {:induction false} InsertBounds(tier: PricingTier, tiers: seq<PricingTier>, low: nat)
    requires low <= tier.minContextTokens && forall k :: 0 <= k < |tiers| ==> low <= tiers[k].minContextTokens
    ensures forall k :: 0 <= k < |Insert(tier, tiers)| ==> low <= Insert(tier, tiers)[k].minContextTokens
  {
    if !(tiers == [] || tier.minContextTokens <= tiers[0].minContextTokens) {
      InsertBounds(tier, tiers[1..], low);
    }
  }

  // A permutation, in order of the thresholds, and tiers with the same threshold stay in order.
  lemma {:induction false} SortIsStable(tiers: seq<PricingTier>, n: nat)
    ensures multiset(SortTiers(tiers)) == multiset(tiers) && Increasing(SortTiers(tiers))
    ensures WithThreshold(SortTiers(tiers), n) == WithThreshold(tiers, n)
  {
    if tiers != [] {
      SortIsStable(tiers[1..], n);
      InsertAdds(tiers[0], SortTiers(tiers[1..]));
      InsertSorts(tiers[0], SortTiers(tiers[1..]));
      InsertIsStable(tiers[0], SortTiers(tiers[1..]), n);
      assert tiers == [tiers[0]] + tiers[1..];
    }
  }

  lemma SameElements(s: seq<PricingTier>, r: seq<PricingTier>)
    requires multiset(s) == multiset(r)
    ensures |s| == |r| && forall x :: x in s <==> x in r
  {
    assert |s| == |multiset(s)| == |multiset(r)| == |r|;
    forall x ensures x in s <==> x in r {
      assert x in s <==> x in multiset(s);
      assert x in r <==> x in multiset(r);
    }
  }

  lemma FirstsAgree(s: seq<PricingTier>, r: seq<PricingTier>)
    requires multiset(s) == multiset(r) && StrictlyIncreasing(s) && StrictlyIncreasing(r) && s != []
    ensures r != [] && s[0] == r[0] && multiset(s[1..]) == multiset(r[1..])
    ensures StrictlyIncreasing(s[1..]) && StrictlyIncreasing(r[1..])
  {
    SameElements(s, r);
    assert s[0] in r && r[0] in s;
    assert s[0] == r[0];
    hide StrictlyIncreasing;
    WithoutFirst(s);
    WithoutFirst(r);
  }

  lemma WithoutFirst(s: seq<PricingTier>)
    requires s != []
    ensures multiset(s[1..]) == multiset(s) - multiset{s[0]}
    ensures StrictlyIncreasing(s) ==> StrictlyIncreasing(s[1..])
  {
    assert s == [s[0]] + s[1..];
  }

  // Two strictly increasing lists of the same tiers are the same list.
  lemma {:induction false} StrictOrderIsUnique(s: seq<PricingTier>, r: seq<PricingTier>)
    requires multiset(s) == multiset(r) && StrictlyIncreasing(s) && StrictlyIncreasing(r)
    ensures s == r
  {
    hide StrictlyIncreasing;
    if s == [] {
      SameElements(s, r);
    } else {
      FirstsAgree(s, r);
      StrictOrderIsUnique(s[1..], r[1..]);
      assert s == [s[0]] + s[1..] && r == [r[0]] + r[1..];
    }
  }

  lemma {:induction false} NeverTwice(tiers: seq<PricingTier>, n: nat)
    requires forall j, k :: 0 <= j < k < |tiers| ==> tiers[j].minContextTokens != tiers[k].minContextTokens
    ensures |WithThreshold(tiers, n)| <= 1
  {
    if tiers != [] {
      NeverTwice(tiers[1..], n);
      if tiers[0].minContextTokens == n {
        NotThere(tiers[1..], n);
      }
    }
  }

  lemma {:induction false} NotThere(tiers: seq<PricingTier>, n: nat)
    requires forall k :: 0 <= k < |tiers| ==> tiers[k].minContextTokens != n
    ensures WithThreshold(tiers, n) == []
  {
    if tiers != [] {
      NotThere(tiers[1..], n);
    }
  }

  lemma {:induction false} ThereTwice(tiers: seq<PricingTier>, j: nat, k: nat)
    requires j < k < |tiers| && tiers[j].minContextTokens == tiers[k].minContextTokens
    ensures |WithThreshold(tiers, tiers[k].minContextTokens)| >= 2
  {
    if j > 0 {
      ThereTwice(tiers[1..], j - 1, k - 1);
    } else {
      There(tiers[1..], k - 1);
    }
  }

  lemma {:induction false} There(tiers: seq<PricingTier>, k: nat)
    requires k < |tiers|
    ensures WithThreshold(tiers, tiers[k].minContextTokens) != []
  {
    if k > 0 {
      There(tiers[1..], k - 1);
    }
  }

  // The tiers of a model that passed validation come out strictly increasing: no two thresholds coincide.
  lemma ValidTiersAreStrict(model: Model)
    requires ValidModel(model) && model.cost.Some?
    ensures var tiers := Map(TransformTier, TiersOf(model.cost.value));
            && StrictlyIncreasing(TransformPricing(model.cost.value).tiers)
            && multiset(TransformPricing(model.cost.value).tiers) == multiset(tiers)
  {
    var upstream := TiersOf(model.cost.value);
    var tiers := Map(TransformTier, upstream);
    var sorted := SortTiers(tiers);
    forall j, k | 0 <= j < k < |tiers| ensures tiers[j].minContextTokens != tiers[k].minContextTokens {
      assert ModelMeets(model, TierSize(k));
    }
    SortIsStable(tiers, 0);
    forall j, k | 0 <= j < k < |sorted| ensures sorted[j].minContextTokens < sorted[k].minContextTokens {
      if sorted[j].minContextTokens == sorted[k].minContextTokens {
        var n := sorted[k].minContextTokens;
        ThereTwice(sorted, j, k);
        SortIsStable(tiers, n);
        NeverTwice(tiers, n);
      }
    }
  }

  // In whatever order upstream lists them.
  lemma TierOrderDoesNotMatter(a: Model, b: Model)
    requires ValidModel(a) && ValidModel(b) && a.cost.Some? && b.cost.Some?
    requires multiset(Map(TransformTier, TiersOf(a.cost.value))) == multiset(Map(TransformTier, TiersOf(b.cost.value)))
    ensures TransformPricing(a.cost.value).tiers == TransformPricing(b.cost.value).tiers
  {
    ValidTiersAreStrict(a);
    ValidTiersAreStrict(b);
    StrictOrderIsUnique(TransformPricing(a.cost.value).tiers, TransformPricing(b.cost.value).tiers);
  }

  /// Picking a tier

  // `filter(..).max_by_key(..)`: of equal thresholds the last one.
  function SelectTier(tiers: seq<PricingTier>, tokens: nat): Option<PricingTier> {
    if tiers == [] then None else
    var last := tiers[|tiers| - 1];
    var others := SelectTier(tiers[..|tiers| - 1], tokens);
    if last.minContextTokens > tokens then others
    else if others.Some? && others.value.minContextTokens > last.minContextTokens then others
    else Some(last)
  }

  predicate Applies(tier: PricingTier, tokens: nat) {
    tier.minContextTokens <= tokens
  }

  predicate IsGreatest(tier: PricingTier, tiers: seq<PricingTier>, tokens: nat) {
    tier in tiers && Applies(tier, tokens)
    && forall t :: t in tiers && Applies(t, tokens) ==> t.minContextTokens <= tier.minContextTokens
  }

  // One of the tiers that apply, and none of those has a greater threshold; nothing if none applies.
  lemma {:induction false} SelectsTheGreatest(tiers: seq<PricingTier>, tokens: nat)
    ensures var r := SelectTier(tiers, tokens);
            if r.Some? then IsGreatest(r.value, tiers, tokens) else forall t :: t in tiers ==> !Applies(t, tokens)
  {
    if tiers != [] {
      var init, last := tiers[..|tiers| - 1], tiers[|tiers| - 1];
      SelectsTheGreatest(init, tokens);
      assert tiers == init + [last];
      forall t ensures t in tiers <==> t in init || t == last {
      }
    }
  }

  // The tier comes from an upstream tier that applies, and every other one that applies starts earlier.
  predicate IsGreatestUpstream(tier: PricingTier, upstream: seq<CostTier>, k: nat, tokens: nat) {
    && k < |upstream| && tier == TransformTier(upstream[k]) && upstream[k].size <= tokens
    && forall j :: 0 <= j < |upstream| && j != k && upstream[j].size <= tokens ==> upstream[j].size < upstream[k].size
  }

  // The run-time lookup in the generated list finds the one upstream tier with the greatest threshold at
  // or below the token count, and nothing if there is none.
  lemma LookupFindsUpstreamTier(model: Model, tokens: nat)
    requires ValidModel(model) && model.cost.Some?
    ensures var upstream := TiersOf(model.cost.value);
            var r := SelectTier(TransformPricing(model.cost.value).tiers, tokens);
            if r.Some? then exists k: nat :: IsGreatestUpstream(r.value, upstream, k, tokens)
            else forall k :: 0 <= k < |upstream| ==> upstream[k].size > tokens
  {
    var upstream := TiersOf(model.cost.value);
    var sorted := TransformPricing(model.cost.value).tiers;
    var r := SelectTier(sorted, tokens);
    SortedHoldsUpstream(model);
    SelectsTheGreatest(sorted, tokens);
    hide SelectTier, TransformPricing, TransformRates, ValidModel, TiersOf;
    if r.Some? {
      var k :| 0 <= k < |upstream| && r.value == TransformTier(upstream[k]);
      GreatestIsUpstream(model, r.value, k, tokens);
    } else {
      forall k | 0 <= k < |upstream| ensures upstream[k].size > tokens {
        assert !Applies(TransformTier(upstream[k]), tokens);
      }
    }
  }

  lemma SortedHoldsUpstream(model: Model)
    requires ValidModel(model) && model.cost.Some?
    ensures var upstream, sorted := TiersOf(model.cost.value), TransformPricing(model.cost.value).tiers;
            && (forall k :: 0 <= k < |upstream| ==> TransformTier(upstream[k]) in sorted)
            && (forall t :: t in sorted ==> exists k :: 0 <= k < |upstream| && t == TransformTier(upstream[k]))
  {
    var upstream, sorted := TiersOf(model.cost.value), TransformPricing(model.cost.value).tiers;
    var tiers := Map(TransformTier, upstream);
    ValidTiersAreStrict(model);
    hide SortTiers, StrictlyIncreasing, ValidModel, TransformRates, TransformTier;
    SameElements(sorted, tiers);
    forall k | 0 <= k < |upstream| ensures TransformTier(upstream[k]) in sorted {
      assert tiers[k] in tiers;
    }
    forall t | t in sorted ensures exists k :: 0 <= k < |upstream| && t == TransformTier(upstream[k]) {
      assert t in tiers;
      var k :| 0 <= k < |tiers| && tiers[k] == t;
    }
  }

  lemma GreatestIsUpstream(model: Model, tier: PricingTier, k: nat, tokens: nat)
    requires ValidModel(model) && model.cost.Some? && k < |TiersOf(model.cost.value)|
    requires tier == TransformTier(TiersOf(model.cost.value)[k])
    requires IsGreatest(tier, TransformPricing(model.cost.value).tiers, tokens)
    ensures IsGreatestUpstream(tier, TiersOf(model.cost.value), k, tokens)
  {
    var upstream := TiersOf(model.cost.value);
    SortedHoldsUpstream(model);
    hide TransformPricing, TransformRates, ValidModel, TiersOf;
    forall j | 0 <= j < |upstream| && j != k && upstream[j].size <= tokens ensures upstream[j].size < upstream[k].size {
      SizesDiffer(model, j, k);
      assert Applies(TransformTier(upstream[j]), tokens);
    }
  }

  lemma SizesDiffer(model: Model, j: nat, k: nat)
    requires ValidModel(model) && model.cost.Some?
    requires j < |TiersOf(model.cost.value)| && k < |TiersOf(model.cost.value)| && j != k
    ensures TiersOf(model.cost.value)[j].size != TiersOf(model.cost.value)[k].size
  {
    assert ModelMeets(model, TierSize(j)) && ModelMeets(model, TierSize(k));
  }
}
