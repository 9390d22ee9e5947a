/**
 The drift check: which of the committed copies of the document differ from a fresh one, not counting
 where and when it was generated.
 */
module Drift {
  import opened Wrappers
  import opened Json
  import opened JsonLayout
  import opened Catalog
  import opened Schema
  import opened Transform
  import opened CatalogJson
  import opened CatalogBuild
  import opened CatalogRead
  import RenderText

  type Path = string

  // `serde_json::Value`: the members of an object are a map, and `N` is what a number is read as.
  datatype Value<N> =
    | Null
    | Bool(b: bool)
    | Number(n: N)
    | String(s: string)
    | Array(items: seq<Value<N>>)
    | Object(members: map<string, Value<N>>)

  function ItemValues<N>(number: string -> N, items: Items): seq<Value<N>>
    decreases items
  {
    match items
    case NoItems => []
    case Item(value, more) => [ValueOf(number, value)] + ItemValues(number, more)
  }

  // A later member of the same name replaces an earlier one.
  function MemberValues<N>(number: string -> N, members: Members): map<string, Value<N>>
    decreases members
  {
    match members
    case NoMembers => map[]
    case Member(key, value, rest) => map[key := ValueOf(number, value)] + MemberValues(number, rest)
  }

  function ValueOf<N>(number: string -> N, v: Json): Value<N>
    decreases v
  {
    match v
    case Null => Value.Null
    case Bool(b) => Value.Bool(b)
    case Number(lexeme) => Value.Number(number(lexeme))
    case String(s) => Value.String(s)
    case Array(items) => Value.Array(ItemValues(number, items))
    case Object(members) => Value.Object(MemberValues(number, members))
  }

  function Member<N>(v: Value<N>, key: string): Option<Value<N>> {
    if v.Object? && key in v.members then Some(v.members[key]) else None
  }

  // The parts that are compared.
  predicate SameContents<N(==)>(a: Value<N>, b: Value<N>) {
    Member(a, Spelling(ProvidersKey)) == Member(b, Spelling(ProvidersKey))
    && Member(a, Spelling(SchemaVersionKey)) == Member(b, Spelling(SchemaVersionKey))
  }

  // What reading a path gives; nothing if it cannot be read.
  type Disk = Path -> Option<string>

  predicate IsCurrent<N(==)>(number: string -> N, disk: Disk, latest: Value<N>, path: Path) {
    var text := disk(path);
    text.Some? && Parse(text.value).Some? && SameContents(ValueOf(number, Parse(text.value).value), latest)
  }

  function Filter(paths: seq<Path>, keep: Path -> bool): seq<Path> {
    if paths == [] then [] else (if keep(paths[0]) then [paths[0]] else []) + Filter(paths[1..], keep)
  }

  // The stale paths, or an error if the newly generated document is no JSON text.
  function StalePaths<N(==)>(number: string -> N, disk: Disk, paths: seq<Path>, document: string)
    : Result<seq<Path>, GenError>
  {
    var latest := Parse(document);
    if latest.None? then Err(RoundTrip)
    else Ok(Filter(paths, path => !IsCurrent(number, disk, ValueOf(number, latest.value), path)))
  }

  /// What the check finds

  lemma {:induction false} FilterMeans(paths: seq<Path>, keep: Path -> bool)
    ensures forall p :: p in Filter(paths, keep) <==> p in paths && keep(p)
    ensures forall p :: multiset(Filter(paths, keep))[p] == if keep(p) then multiset(paths)[p] else 0
  {
    if paths != [] {
      FilterMeans(paths[1..], keep);
      assert paths == [paths[0]] + paths[1..];
    }
  }

  lemma {:induction false} FilterInOrder(a: seq<Path>, b: seq<Path>, keep: Path -> bool)
    ensures Filter(a + b, keep) == Filter(a, keep) + Filter(b, keep)
  {
    if a == [] {
      assert a + b == b;
    } else {
      assert (a + b)[1..] == a[1..] + b;
      FilterInOrder(a[1..], b, keep);
    }
  }

  lemma StaleUnlessCurrent<N>(number: string -> N, disk: Disk, paths: seq<Path>, document: string, path: Path)
    requires Parse(document).Some? && path in paths
    ensures StalePaths(number, disk, paths, document).Ok?
    ensures path in StalePaths(number, disk, paths, document).value <==>
            !IsCurrent(number, disk, ValueOf(number, Parse(document).value), path)
  {
    hide Parse, ValueOf, IsCurrent;
    var latest := ValueOf(number, Parse(document).value);
    FilterMeans(paths, p => !IsCurrent(number, disk, latest, p));
  }

  // Both values have the member and hold the same there, or neither of them has it.
  predicate Agree<N(==)>(a: Value<N>, b: Value<N>, key: string) {
    && (a.Object? && key in a.members <==> b.Object? && key in b.members)
    && (a.Object? && key in a.members ==> a.members[key] == b.members[key])
  }

  // A path is reported exactly when it cannot be read, or is no JSON text, or differs from the new document in
  // the providers or in the schema version, a missing member included.
  lemma StaleMeans<N>(number: string -> N, disk: Disk, paths: seq<Path>, document: string, path: Path)
    ensures StalePaths(number, disk, paths, document).Ok? <==> Parse(document).Some?
    ensures Parse(document).Some? && path in paths ==>
      (path in StalePaths(number, disk, paths, document).value <==>
        || disk(path).None?
        || Parse(disk(path).value).None?
        || var held, latest := ValueOf(number, Parse(disk(path).value).value), ValueOf(number, Parse(document).value);
           !Agree(held, latest, "providers") || !Agree(held, latest, "$schema_version"))
  {
    hide Parse, ValueOf;
    if Parse(document).Some? && path in paths {
      StaleUnlessCurrent(number, disk, paths, document, path);
      hide StalePaths;
    }
  }

  // The reported paths come in the order given, each as often as it is given.
  lemma StaleInOrder<N>(number: string -> N, disk: Disk, a: seq<Path>, b: seq<Path>, document: string)
    requires Parse(document).Some?
    ensures StalePaths(number, disk, [], document) == Ok([])
    ensures StalePaths(number, disk, a + b, document) ==
            Ok(StalePaths(number, disk, a, document).value + StalePaths(number, disk, b, document).value)
    ensures |a| == 1 ==> |StalePaths(number, disk, a, document).value| <= 1
  {
    hide Parse, ValueOf, IsCurrent;
    var latest := ValueOf(number, Parse(document).value);
    FilterInOrder(a, b, p => !IsCurrent(number, disk, latest, p));
  }

  lemma {:induction false} MemberLookup<N>(number: string -> N, members: Members, name: string)
    ensures name in MemberValues(number, members) <==> Lookup(members, name).Some?
    ensures name in MemberValues(number, members) ==>
            MemberValues(number, members)[name] == ValueOf(number, Lookup(members, name).value)
  {
    hide ValueOf;
    if members.Member? {
      MemberLookup(number, members.rest, name);
    }
  }

  lemma MemberOfFields<N>(number: string -> N, table: Table, k: nat)
    requires k < |table| && DistinctNames(table)
    ensures Member(ValueOf(number, Fields(table)), Spelling(table[k].0)) ==
            if table[k].1.Some? then Some(ValueOf(number, table[k].1.value)) else None
  {
    hide Spelling, DistinctNames, Present, MemberValues;
    GetField(table, k);
    MemberLookup(number, Present(table, 0), Spelling(table[k].0));
  }

  // What is compared does not depend on the provenance.
  lemma ContentsOfDocument<N>(number: string -> N, catalog: CatalogDocument, a: Provenance, b: Provenance)
    ensures SameContents(ValueOf(number, DocumentJson(catalog, a)), ValueOf(number, DocumentJson(catalog, b)))
  {
    hide Spelling, DistinctNames, DocumentTable, ValueOf, Fields, ProviderMembers, Present, ProvenanceTable, Count,
         Member;
    RenderText.DocumentRows(catalog, a);
    RenderText.DocumentRows(catalog, b);
    DocumentNames(catalog, a);
    DocumentNames(catalog, b);
    MemberOfFields(number, DocumentTable(catalog, a), 1);
    MemberOfFields(number, DocumentTable(catalog, b), 1);
    MemberOfFields(number, DocumentTable(catalog, a), 2);
    MemberOfFields(number, DocumentTable(catalog, b), 2);
  }

  lemma {:induction false} NothingKept(paths: seq<Path>, keep: Path -> bool)
    requires forall p :: p in paths ==> !keep(p)
    ensures Filter(paths, keep) == []
  {
    if paths != [] {
      NothingKept(paths[1..], keep);
    }
  }

  // A document that was just written is up to date, for whatever run the check generates its own.
  lemma GenerateThenCheck<N>(number: string -> N, disk: Disk, paths: seq<Path>, catalog: UpstreamCatalog,
                                 written: Provenance, checked: Provenance)
    requires ValidCatalog(catalog)
    requires forall p :: p in paths ==> disk(p) == Some(Document(GeneratedJson(catalog, written)))
    ensures StalePaths(number, disk, paths, Document(GeneratedJson(catalog, checked))) == Ok([])
  {
    hide Parse, Document, DocumentJson, ValueOf, SameContents, ValidCatalog, FiniteDocument, TransformCatalog;
    var document := TransformCatalog(catalog);
    ValidCatalogIsFinite(catalog);
    PrinterRoundTrip(document, written);
    PrinterRoundTrip(document, checked);
    ContentsOfDocument(number, document, written, checked);
    var latest := ValueOf(number, DocumentJson(document, checked));
    forall p | p in paths ensures IsCurrent(number, disk, latest, p) {
    }
    NothingKept(paths, path => !IsCurrent(number, disk, latest, path));
  }
}
