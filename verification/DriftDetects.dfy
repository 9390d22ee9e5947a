/**
 The drift check misses no difference: a copy that is not reported holds the same providers and models
 by name, with the same rounded costs.
 */
module DriftDetects {
  import opened Wrappers
  import opened Json
  import opened Catalog
  import opened Transform
  import opened CatalogJson
  import opened CatalogBuild
  import opened CatalogRead
  import opened CatalogReadBack
  import opened Drift
  import RenderText

  // A document by the names of its providers and models, whatever their order.
  type ProviderView = (ProviderEntry, map<string, ModelEntry>)

  function ModelsByName(models: Ordered<ModelEntry>): map<string, ModelEntry> {
    if models == [] then map[] else map[models[0].0 := models[0].1] + ModelsByName(models[1..])
  }

  function View(provider: ProviderEntry): ProviderView {
    (provider.(models := []), ModelsByName(provider.models))
  }

  function ByName(catalog: CatalogDocument): map<string, ProviderView> {
    if catalog == [] then map[] else map[catalog[0].0 := View(catalog[0].1)] + ByName(catalog[1..])
  }

  /// The numbers of a document

  ghost function ItemLexemes(items: Items): set<string>
    decreases items
  {
    match items
    case NoItems => {}
    case Item(value, more) => Lexemes(value) + ItemLexemes(more)
  }

  ghost function MemberLexemes(members: Members): set<string>
    decreases members
  {
    match members
    case NoMembers => {}
    case Member(_, value, rest) => Lexemes(value) + MemberLexemes(rest)
  }

  ghost function Lexemes(v: Json): set<string>
    decreases v
  {
    match v
    case Number(lexeme) => {lexeme}
    case Array(items) => ItemLexemes(items)
    case Object(members) => MemberLexemes(members)
    case _ => {}
  }

  // Of these numbers, those that are read alike denote the same number.
  ghost predicate TellsApart<N(!new)>(number: string -> N, a: set<string>, b: set<string>) {
    forall x, y :: x in a && y in b && number(x) == number(y) ==>
      AsCost(Some(Json.Number(x))) == AsCost(Some(Json.Number(y)))
  }

  // Two values that are read alike, by a reader that tells their numbers apart.
  ghost predicate Pair<N(!new)>(number: string -> N, a: Json, b: Json) {
    ValueOf(number, a) == ValueOf(number, b) && TellsApart(number, Lexemes(a), Lexemes(b))
  }

  ghost predicate PairOfItems<N(!new)>(number: string -> N, a: Items, b: Items) {
    ItemValues(number, a) == ItemValues(number, b) && TellsApart(number, ItemLexemes(a), ItemLexemes(b))
  }

  ghost predicate PairOfMembers<N(!new)>(number: string -> N, a: Members, b: Members) {
    MemberValues(number, a) == MemberValues(number, b) && TellsApart(number, MemberLexemes(a), MemberLexemes(b))
  }

  ghost predicate Alike<N(!new)>(number: string -> N, a: Option<Json>, b: Option<Json>) {
    a.Some? == b.Some? && (a.Some? ==> Pair(number, a.value, b.value))
  }

  lemma {:induction false} LookupLexemes(members: Members, name: string)
    requires CatalogRead.Lookup(members, name).Some?
    ensures Lexemes(CatalogRead.Lookup(members, name).value) <= MemberLexemes(members)
  {
    if CatalogRead.Lookup(members.rest, name).Some? {
      LookupLexemes(members.rest, name);
    }
  }

  /// What is read depends on the value only

  lemma MembersAlike<N(!new)>(number: string -> N, a: Members, b: Members, name: string)
    requires PairOfMembers(number, a, b)
    ensures Alike(number, CatalogRead.Lookup(a, name), CatalogRead.Lookup(b, name))
  {
    hide ValueOf, Lexemes, MemberLexemes, CatalogRead.Lookup, AsCost;
    if CatalogRead.Lookup(a, name).Some? {
      LookupLexemes(a, name);
    }
    if CatalogRead.Lookup(b, name).Some? {
      LookupLexemes(b, name);
    }
    MemberLookup(number, a, name);
    MemberLookup(number, b, name);
  }

  lemma GetAlike<N(!new)>(number: string -> N, a: Json, b: Json, key: Key)
    requires Pair(number, a, b)
    ensures Alike(number, Get(a, key), Get(b, key))
  {
    hide Spelling;
    if a.Object? {
      assert b.Object?;
      MembersAlike(number, a.members, b.members, Spelling(key));
    }
  }

  lemma ScalarsAlike<N(!new)>(number: string -> N, a: Option<Json>, b: Option<Json>)
    requires Alike(number, a, b)
    ensures AsString(a) == AsString(b) && AsBool(a) == AsBool(b)
    ensures AsCost(a) == AsCost(b) && AsCount(a) == AsCount(b)
    ensures IfThere(a, AsString) == IfThere(b, AsString) && IfThere(a, AsCost) == IfThere(b, AsCost)
    ensures IfThere(a, AsCount) == IfThere(b, AsCount)
  {
    if a.Some? && a.value.Number? {
      assert b.value.Number?;
      assert AsCost(Some(Json.Number(a.value.lexeme))) == AsCost(Some(Json.Number(b.value.lexeme)));
    }
  }

  lemma {:induction false} StringsAlike<N(!new)>(number: string -> N, a: Items, b: Items)
    requires PairOfItems(number, a, b)
    ensures StringsOf(a) == StringsOf(b)
  {
    if a.Item? {
      ItemsAlike(number, a, b);
      StringsAlike(number, a.more, b.more);
    }
  }

  lemma ItemsAlike<N(!new)>(number: string -> N, a: Items, b: Items)
    requires PairOfItems(number, a, b) && a.Item?
    ensures b.Item? && Pair(number, a.value, b.value) && PairOfItems(number, a.more, b.more)
  {
    hide ValueOf;
    var all, all' := ItemValues(number, a), ItemValues(number, b);
    assert all[1..] == ItemValues(number, a.more);
    assert b.Item? && all'[1..] == ItemValues(number, b.more);
    assert all[0] == all'[0];
  }

  lemma ArraysAlike<N(!new)>(number: string -> N, a: Option<Json>, b: Option<Json>)
    requires Alike(number, a, b)
    ensures AsStrings(a) == AsStrings(b)
  {
    if a.Some? && a.value.Array? {
      StringsAlike(number, a.value.items, b.value.items);
    }
  }

  lemma CostsAlike<N(!new)>(number: string -> N, a: Json, b: Json)
    requires Pair(number, a, b)
    ensures ReadCosts(a) == ReadCosts(b)
  {
    hide ValueOf, Get, AsCost, IfThere, AsString, AsBool, AsCount, Pair, Alike;
    forall key ensures AsCost(Get(a, key)) == AsCost(Get(b, key))
      ensures IfThere(Get(a, key), AsCost) == IfThere(Get(b, key), AsCost)
    {
      GetAlike(number, a, b, key);
      ScalarsAlike(number, Get(a, key), Get(b, key));
    }
  }

  lemma TierAlike<N(!new)>(number: string -> N, a: Json, b: Json)
    requires Pair(number, a, b)
    ensures ReadTier(a) == ReadTier(b)
  {
    hide ValueOf, Get, AsCost, IfThere, AsString, AsBool, AsCount, Pair, Alike, ReadCosts;
    CostsAlike(number, a, b);
    GetAlike(number, a, b, MinContextTokensKey);
    ScalarsAlike(number, Get(a, MinContextTokensKey), Get(b, MinContextTokensKey));
  }

  lemma {:induction false} TiersAlike<N(!new)>(number: string -> N, a: Items, b: Items)
    requires PairOfItems(number, a, b)
    ensures ReadTiers(a) == ReadTiers(b)
  {
    hide ValueOf, ReadTier, TellsApart, Pair;
    if a.Item? {
      ItemsAlike(number, a, b);
      TierAlike(number, a.value, b.value);
      TiersAlike(number, a.more, b.more);
    }
  }

  lemma PricingAlike<N(!new)>(number: string -> N, a: Option<Json>, b: Option<Json>)
    requires Alike(number, a, b)
    ensures AsPricing(a) == AsPricing(b) && IfThere(a, AsPricing) == IfThere(b, AsPricing)
  {
    hide ReadCosts, Get, ReadTiers, TellsApart;
    if a.Some? {
      CostsAlike(number, a.value, b.value);
      GetAlike(number, a.value, b.value, TiersKey);
      var x, y := Get(a.value, TiersKey), Get(b.value, TiersKey);
      if x.Some? && x.value.Array? {
        TiersAlike(number, x.value.items, y.value.items);
      }
    }
  }

  // The members of an object, read as whatever a member can be.
  lemma ScalarMembersAlike<N(!new)>(number: string -> N, a: Json, b: Json, key: Key)
    requires Pair(number, a, b)
    ensures AsString(Get(a, key)) == AsString(Get(b, key)) && AsBool(Get(a, key)) == AsBool(Get(b, key))
    ensures AsCount(Get(a, key)) == AsCount(Get(b, key))
        && IfThere(Get(a, key), AsCount) == IfThere(Get(b, key), AsCount)
    ensures IfThere(Get(a, key), AsString) == IfThere(Get(b, key), AsString)
    ensures AsStrings(Get(a, key)) == AsStrings(Get(b, key))
  {
    hide ValueOf, Get, AsCost, IfThere, AsString, AsBool, AsCount, Pair, Alike, AsStrings;
    GetAlike(number, a, b, key);
    ScalarsAlike(number, Get(a, key), Get(b, key));
    ArraysAlike(number, Get(a, key), Get(b, key));
  }

  lemma PartsAlike<N(!new)>(number: string -> N, a: Option<Json>, b: Option<Json>)
    requires Alike(number, a, b)
    ensures AsLimits(a) == AsLimits(b) && AsModalities(a) == AsModalities(b) && AsCapabilities(a) == AsCapabilities(b)
  {
    hide Pair, Get, IfThere, AsString, AsBool, AsCount, AsStrings;
    if a.Some? {
      forall key
        ensures AsBool(Get(a.value, key)) == AsBool(Get(b.value, key))
        ensures AsCount(Get(a.value, key)) == AsCount(Get(b.value, key))
        ensures IfThere(Get(a.value, key), AsCount) == IfThere(Get(b.value, key), AsCount)
        ensures AsStrings(Get(a.value, key)) == AsStrings(Get(b.value, key))
      {
        ScalarMembersAlike(number, a.value, b.value, key);
      }
    }
  }

  lemma ModelAlike<N(!new)>(number: string -> N, a: Json, b: Json)
    requires Pair(number, a, b)
    ensures ReadModel(a) == ReadModel(b)
  {
    hide ValueOf, Get, IfThere, AsString, AsBool, AsCount, Pair, AsStrings, Alike, AsPricing, AsLimits,
         AsModalities, AsCapabilities;
    forall key
      ensures AsString(Get(a, key)) == AsString(Get(b, key))
      ensures IfThere(Get(a, key), AsString) == IfThere(Get(b, key), AsString)
    {
      ScalarMembersAlike(number, a, b, key);
    }
    GetAlike(number, a, b, PricingKey);
    PricingAlike(number, Get(a, PricingKey), Get(b, PricingKey));
    GetAlike(number, a, b, LimitKey);
    PartsAlike(number, Get(a, LimitKey), Get(b, LimitKey));
    GetAlike(number, a, b, ModalitiesKey);
    PartsAlike(number, Get(a, ModalitiesKey), Get(b, ModalitiesKey));
    GetAlike(number, a, b, CapabilitiesKey);
    PartsAlike(number, Get(a, CapabilitiesKey), Get(b, CapabilitiesKey));
  }

  /// Models and providers by name

  lemma {:induction false} ModelByName(members: Members, name: string)
    requires ReadModels(members).Some?
    ensures var models, found := ModelsByName(ReadModels(members).value), CatalogRead.Lookup(members, name);
            && (name in models <==> found.Some?)
            && (found.Some? ==> ReadModel(found.value) == Some(models[name]))
  {
    hide ReadModel;
    if members.Member? {
      ModelByName(members.rest, name);
      var rest := ReadModels(members.rest).value;
      assert ReadModels(members).value[1..] == rest;
    }
  }

  lemma ModelsAlike<N(!new)>(number: string -> N, a: Members, b: Members)
    requires PairOfMembers(number, a, b)
    requires ReadModels(a).Some? && ReadModels(b).Some?
    ensures ModelsByName(ReadModels(a).value) == ModelsByName(ReadModels(b).value)
  {
    hide ReadModel, ReadModels, ModelsByName, MemberValues, ValueOf, CatalogRead.Lookup, PairOfMembers;
    var x, y := ModelsByName(ReadModels(a).value), ModelsByName(ReadModels(b).value);
    forall name ensures name in x <==> name in y
      ensures name in x ==> x[name] == y[name]
    {
      ModelByName(a, name);
      ModelByName(b, name);
      MembersAlike(number, a, b, name);
      if name in x {
        ModelAlike(number, CatalogRead.Lookup(a, name).value, CatalogRead.Lookup(b, name).value);
      }
    }
  }

  lemma ProviderAlike<N(!new)>(number: string -> N, a: Json, b: Json)
    requires Pair(number, a, b)
    requires ReadProvider(a).Some? && ReadProvider(b).Some?
    ensures View(ReadProvider(a).value) == View(ReadProvider(b).value)
  {
    hide Get, IfThere, AsString, AsBool, AsCount, TellsApart, AsStrings, ReadModels, ModelsByName;
    forall key
      ensures AsString(Get(a, key)) == AsString(Get(b, key))
      ensures IfThere(Get(a, key), AsString) == IfThere(Get(b, key), AsString)
      ensures AsStrings(Get(a, key)) == AsStrings(Get(b, key))
    {
      ScalarMembersAlike(number, a, b, key);
    }
    GetAlike(number, a, b, ModelsKey);
    ModelsAlike(number, Get(a, ModelsKey).value.members, Get(b, ModelsKey).value.members);
  }

  lemma {:induction false} ProviderByName(members: Members, name: string)
    requires ReadProviders(members).Some?
    ensures var providers, found := ByName(ReadProviders(members).value), CatalogRead.Lookup(members, name);
            && (name in providers <==> found.Some?)
            && (found.Some? ==>
                  ReadProvider(found.value).Some? && View(ReadProvider(found.value).value) == providers[name])
  {
    hide ReadProvider, View;
    if members.Member? {
      ProviderByName(members.rest, name);
      var rest := ReadProviders(members.rest).value;
      assert ReadProviders(members).value[1..] == rest;
    }
  }

  lemma ProvidersAlike<N(!new)>(number: string -> N, a: Option<Json>, b: Option<Json>)
    requires Alike(number, a, b) && AsProviders(a).Some? && AsProviders(b).Some?
    ensures ByName(AsProviders(a).value) == ByName(AsProviders(b).value)
  {
    hide ReadProvider, ReadProviders, ByName, View, MemberValues, CatalogRead.Lookup, TellsApart;
    var m, n := a.value.members, b.value.members;
    var x, y := ByName(ReadProviders(m).value), ByName(ReadProviders(n).value);
    assert PairOfMembers(number, m, n);
    forall name ensures name in x <==> name in y
      ensures name in x ==> x[name] == y[name]
    {
      ProviderByName(m, name);
      ProviderByName(n, name);
      MembersAlike(number, m, n, name);
      if name in x {
        ProviderAlike(number, CatalogRead.Lookup(m, name).value, CatalogRead.Lookup(n, name).value);
      }
    }
  }

  /// The check

  lemma ProvidersOf<N>(number: string -> N, catalog: CatalogDocument, provenance: Provenance)
    requires FiniteDocument(catalog)
    ensures Get(DocumentJson(catalog, provenance), ProvidersKey).Some?
    ensures AsProviders(Get(DocumentJson(catalog, provenance), ProvidersKey)) == Some(RoundDocument(catalog))
    ensures Drift.Member(ValueOf(number, DocumentJson(catalog, provenance)), Spelling(ProvidersKey)) ==
            Some(ValueOf(number, Get(DocumentJson(catalog, provenance), ProvidersKey).value))
  {
    hide Spelling, DistinctNames, DocumentTable, ValueOf, Fields, ProviderMembers, Present, ProvenanceTable, Count,
         Drift.Member, AsProviders, FiniteDocument, RoundDocument, Get;
    RenderText.DocumentRows(catalog, provenance);
    DocumentNames(catalog, provenance);
    GetField(DocumentTable(catalog, provenance), 2);
    MemberOfFields(number, DocumentTable(catalog, provenance), 2);
    ProvidersFieldReads(catalog);
  }

  // If what is compared is equal, the two documents have the same providers and models.
  lemma SameContentsSameNames<N(!new)>(number: string -> N, x: CatalogDocument, y: CatalogDocument, a: Provenance,
                                       b: Provenance)
    requires FiniteDocument(x) && FiniteDocument(y)
    requires TellsApart(number, Lexemes(DocumentJson(x, a)), Lexemes(DocumentJson(y, b)))
    requires SameContents(ValueOf(number, DocumentJson(x, a)), ValueOf(number, DocumentJson(y, b)))
    ensures ByName(RoundDocument(x)) == ByName(RoundDocument(y))
  {
    hide DocumentJson, ValueOf, Get, Drift.Member, AsProviders, FiniteDocument, RoundDocument, ByName, Lexemes;
    ProvidersOf(number, x, a);
    ProvidersOf(number, y, b);
    GetLexemes(DocumentJson(x, a), ProvidersKey);
    GetLexemes(DocumentJson(y, b), ProvidersKey);
    ProvidersAlike(number, Get(DocumentJson(x, a), ProvidersKey), Get(DocumentJson(y, b), ProvidersKey));
  }

  lemma GetLexemes(v: Json, key: Key)
    requires Get(v, key).Some?
    ensures Lexemes(Get(v, key).value) <= Lexemes(v)
  {
    hide Spelling;
    LookupLexemes(v.members, Spelling(key));
  }
}
