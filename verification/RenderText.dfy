/** Printing providers and the whole document, and the self-check of the printer. */
module RenderText {
  import opened Wrappers
  import opened Json
  import opened JsonText
  import opened JsonLayout
  import opened Decimal
  import opened Catalog
  import opened Transform
  import opened CatalogJson
  import opened Render
  import opened RenderFields

  /// Members written line by line

  lemma {:induction false} EntriesRest(table: Table, i: nat, depth: nat)
    requires i < |table| && table[i].1.Some? && Present(table, i + 1) != NoMembers
    ensures MemberLines(Present(table, i), depth) ==
            (Tag(2 * depth, table[i].0) + Pretty(table[i].1.value, depth) + ",\n")
              + MemberLines(Present(table, i + 1), depth)
  {
    var v := table[i].1.value;
    TagStarts(table[i].0, v, depth);
    var line, rest := Entry(Spelling(table[i].0), v, depth), MemberLines(Present(table, i + 1), depth);
    assert MemberLines(Present(table, i), depth) == line + (",\n" + rest);
    hide *;
    assert line + (",\n" + rest) == (line + ",\n") + rest;
  }

  lemma LastEntry(table: Table, i: nat, depth: nat)
    requires i + 1 == |table| && table[i].1.Some?
    ensures MemberLines(Present(table, i), depth) == Tag(2 * depth, table[i].0) + Pretty(table[i].1.value, depth) + "\n"
  {
    var v := table[i].1.value;
    TagStarts(table[i].0, v, depth);
    var line := Entry(Spelling(table[i].0), v, depth);
    assert MemberLines(Present(table, i), depth) == line + ("\n" + []);
    hide *;
    assert line + ("\n" + []) == line + "\n";
  }

  // The line of member `i`, and the text behind the members.
  lemma WriteEntry(out: string, table: Table, i: nat, depth: nat, value: string, rest: string, text: string)
    requires i < |table| && table[i].1.Some? && Present(table, i + 1) != NoMembers
    requires value == Pretty(table[i].1.value, depth)
    requires Left(out, MemberLines(Present(table, i), depth) + rest, text)
    ensures Left(out + (Tag(2 * depth, table[i].0) + value + ",\n"), MemberLines(Present(table, i + 1), depth) + rest,
                 text)
  {
    hide *;
    EntriesRest(table, i, depth);
    var line, more := Tag(2 * depth, table[i].0) + value + ",\n", MemberLines(Present(table, i + 1), depth);
    assert (line + more) + rest == line + (more + rest);
    Write(out, line, more + rest, text);
  }

  /// Providers

  lemma ProviderRows(p: ProviderEntry)
    ensures var table := ProviderTable(p);
            && |table| == 6
            && table[0] == (NameKey, Some(String(p.name))) && table[1] == (EnvKey, Some(Strings(p.env)))
            && table[2] == (DocKey, Some(String(p.doc))) && table[3] == (ApiKey, OptionalString(p.api))
            && table[4] == (NpmKey, Some(String(p.npm)))
            && table[5] == (ModelsKey, Some(Object(ModelMembers(p.models, 0))))
            && Present(table, 1) != NoMembers && Present(table, 2) != NoMembers && Present(table, 3) != NoMembers
            && Present(table, 4) != NoMembers && Present(table, 5) != NoMembers
            && (p.api.None? ==> Present(table, 3) == Present(table, 4))
  {
    hide ModelMembers, Strings, Spelling;
    var table := ProviderTable(p);
    assert Present(table, 5) != NoMembers;
    assert Present(table, 4) != NoMembers;
    assert Present(table, 3) != NoMembers;
    assert Present(table, 2) != NoMembers;
  }

  lemma StringValue(s: string, depth: nat)
    ensures Pretty(String(s), depth) == Quote(s)
  {
  }

  function ModelLine(models: Ordered<ModelEntry>, i: nat): string
    requires i < |models|
  {
    Entry(models[i].0, Fields(ModelTable(models[i].1)), 4) + LineEnd(i + 1 == |models|)
  }

  lemma ModelLines(models: Ordered<ModelEntry>, i: nat)
    ensures i >= |models| ==> MemberLines(ModelMembers(models, i), 4) == []
    ensures i < |models| ==>
      MemberLines(ModelMembers(models, i), 4) == ModelLine(models, i) + MemberLines(ModelMembers(models, i + 1), 4)
  {
    hide *;
    if i < |models| {
      var line, end := Entry(models[i].0, Fields(ModelTable(models[i].1)), 4), LineEnd(i + 1 == |models|);
      var rest := MemberLines(ModelMembers(models, i + 1), 4);
      NextModel(models, i);
      FirstMember(models[i].0, Fields(ModelTable(models[i].1)), ModelMembers(models, i + 1), 4);
      ModelLineParts(models, i);
      assert line + (end + rest) == line + end + rest;
    } else {
      NoModel(models, i);
    }
  }

  lemma NextModel(models: Ordered<ModelEntry>, i: nat)
    requires i < |models|
    ensures ModelMembers(models, i) == Member(models[i].0, Fields(ModelTable(models[i].1)), ModelMembers(models, i + 1))
    ensures ModelMembers(models, i + 1).NoMembers? <==> i + 1 == |models|
  {
    hide Fields, ModelTable;
  }

  lemma NoModel(models: Ordered<ModelEntry>, i: nat)
    requires i >= |models|
    ensures MemberLines(ModelMembers(models, i), 4) == []
  {
    hide Fields, ModelTable;
  }

  lemma FirstMember(key: string, value: Json, rest: Members, depth: nat)
    ensures MemberLines(Member(key, value, rest), depth) ==
            Entry(key, value, depth) + (LineEnd(rest.NoMembers?) + MemberLines(rest, depth))
  {
    hide Entry;
  }

  method RenderModels(buffer: string, models: Ordered<ModelEntry>) returns (out: string)
    ensures out == buffer + MemberLines(ModelMembers(models, 0), 4)
  {
    hide *;
    ghost var text := buffer + MemberLines(ModelMembers(models, 0), 4);
    out := buffer;
    NothingWritten(out, MemberLines(ModelMembers(models, 0), 4));
    for i := 0 to |models|
      invariant Left(out, MemberLines(ModelMembers(models, i), 4), text)
    {
      ModelLines(models, i);
      ModelLineParts(models, i);
      Write(out, ModelLine(models, i), MemberLines(ModelMembers(models, i + 1), 4), text);
      out := RenderModel(out, models[i].0, models[i].1, i + 1 == |models|);
    }
    ModelLines(models, |models|);
    AllWritten(out, text);
  }

  lemma ModelLineParts(models: Ordered<ModelEntry>, i: nat)
    requires i < |models|
    ensures ModelLine(models, i) == Entry(models[i].0, Fields(ModelTable(models[i].1)), 4) + LineEnd(i + 1 == |models|)
  {
    hide Entry, Fields, ModelTable, LineEnd;
  }

  // What stands between the braces of a provider.
  method ProviderBody(buffer: string, provider: ProviderEntry) returns (out: string)
    ensures out == buffer + MemberLines(Present(ProviderTable(provider), 0), 3)
  {
    hide *;
    ghost var table := ProviderTable(provider);
    ghost var text := buffer + MemberLines(Present(table, 0), 3);
    ProviderRows(provider);
    BodyStarts(buffer, MemberLines(Present(table, 0), 3));
    out := buffer;
    StringValue(provider.name, 3);
    WriteEntry(out, table, 0, 3, Quote(provider.name), [], text);
    out := out + (Tag(6, NameKey) + Quote(provider.name) + ",\n");
    StringArrayIsPretty(provider.env, 3);
    WriteEntry(out, table, 1, 3, JsonStringArray(provider.env), [], text);
    out := out + (Tag(6, EnvKey) + JsonStringArray(provider.env) + ",\n");
    StringValue(provider.doc, 3);
    WriteEntry(out, table, 2, 3, Quote(provider.doc), [], text);
    out := out + (Tag(6, DocKey) + Quote(provider.doc) + ",\n");
    if provider.api.Some? {
      OptionalValue(provider.api.value, 3);
      WriteEntry(out, table, 3, 3, Quote(provider.api.value), [], text);
      out := out + (Tag(6, ApiKey) + Quote(provider.api.value) + ",\n");
    }
    StringValue(provider.npm, 3);
    WriteEntry(out, table, 4, 3, Quote(provider.npm), [], text);
    out := out + (Tag(6, NpmKey) + Quote(provider.npm) + ",\n");
    ghost var before := out;
    out := out + (Tag(6, ModelsKey) + "{\n");
    out := RenderModels(out, provider.models);
    out := out + (Spaces(6) + "}\n");
    ModelsBlock(before, provider, text);
  }

  lemma BodyStarts(out: string, rest: string)
    ensures Left(out, rest + [], out + rest)
  {
    assert rest + [] == rest;
  }

  lemma OptionalValue(s: string, depth: nat)
    ensures OptionalString(Some(s)) == Some(String(s)) && Pretty(String(s), depth) == Quote(s)
  {
  }

  lemma ModelsBlock(out: string, provider: ProviderEntry, text: string)
    requires Left(out, MemberLines(Present(ProviderTable(provider), 5), 3) + [], text)
    ensures out + (Tag(6, ModelsKey) + "{\n") + MemberLines(ModelMembers(provider.models, 0), 4) + (Spaces(6) + "}\n")
        == text
  {
    hide *;
    ProviderRows(provider);
    LastEntry(ProviderTable(provider), 5, 3);
    var members := ModelMembers(provider.models, 0);
    ObjectText(members, 3, 6);
    var tag, lines, end := Tag(6, ModelsKey), MemberLines(members, 4), Spaces(6);
    var block := tag + ("{\n" + lines + end + "}") + "\n";
    assert out + (tag + "{\n") + lines + (end + "}\n") == out + block;
    LeftIsAll(out, block, text);
  }

  lemma LeftIsAll(out: string, block: string, text: string)
    requires Left(out, block + [], text)
    ensures out + block == text
  {
    assert block + [] == block;
  }

  lemma ObjectText(members: Members, depth: nat, indent: nat)
    requires indent == 2 * depth
    ensures Pretty(Object(members), depth) == "{\n" + MemberLines(members, depth + 1) + Spaces(indent) + "}"
  {
  }

  method RenderProvider(buffer: string, providerId: string, provider: ProviderEntry, isLast: bool) returns (out: string)
    ensures out == buffer + (Entry(providerId, Fields(ProviderTable(provider)), 2) + LineEnd(isLast))
  {
    hide *;
    out := buffer + (Spaces(4) + Quote(providerId) + ": {\n");
    out := ProviderBody(out, provider);
    out := out + (Spaces(4) + "}" + Suffix(isLast) + "\n");
    ProviderBlock(buffer, providerId, provider, isLast);
  }

  lemma ProviderBlock(out: string, id: string, provider: ProviderEntry, isLast: bool)
    ensures out + (Spaces(4) + Quote(id) + ": {\n") + MemberLines(Present(ProviderTable(provider), 0), 3)
            + (Spaces(4) + "}" + Suffix(isLast) + "\n")
            == out + (Entry(id, Fields(ProviderTable(provider)), 2) + LineEnd(isLast))
  {
    hide *;
    SuffixEndsLine(isLast);
    var v := Fields(ProviderTable(provider));
    var lines := MemberLines(Present(ProviderTable(provider), 0), 3);
    ObjectText(Present(ProviderTable(provider), 0), 2, 4);
    FieldsAre(ProviderTable(provider));
    EntryText(id, v, 2, 4);
    var start, end, suffix := Spaces(4) + Quote(id), Spaces(4), Suffix(isLast);
    assert ": {\n" == ": " + "{\n";
    assert out + (start + ": {\n") + lines + (end + "}" + suffix + "\n")
           == out + (start + ": " + ("{\n" + lines + end + "}") + (suffix + "\n"));
  }

  lemma FieldsAre(table: Table)
    ensures Fields(table) == Object(Present(table, 0))
  {
  }

  lemma EntryText(key: string, v: Json, depth: nat, indent: nat)
    requires indent == 2 * depth
    ensures Entry(key, v, depth) == Spaces(indent) + Quote(key) + ": " + Pretty(v, depth)
  {
  }

  /// The document

  function ProviderLine(catalog: CatalogDocument, i: nat): string
    requires i < |catalog|
  {
    Entry(catalog[i].0, Fields(ProviderTable(catalog[i].1)), 2) + LineEnd(i + 1 == |catalog|)
  }

  lemma ProviderLines(catalog: CatalogDocument, i: nat)
    ensures i >= |catalog| ==> MemberLines(ProviderMembers(catalog, i), 2) == []
    ensures i < |catalog| ==>
      MemberLines(ProviderMembers(catalog, i), 2) == ProviderLine(catalog, i)
        + MemberLines(ProviderMembers(catalog, i + 1), 2)
    ensures i < |catalog| ==>
      ProviderLine(catalog, i) == Entry(catalog[i].0, Fields(ProviderTable(catalog[i].1)), 2)
        + LineEnd(i + 1 == |catalog|)
  {
    hide *;
    if i < |catalog| {
      var line, end := Entry(catalog[i].0, Fields(ProviderTable(catalog[i].1)), 2), LineEnd(i + 1 == |catalog|);
      var rest := MemberLines(ProviderMembers(catalog, i + 1), 2);
      NextProvider(catalog, i);
      FirstMember(catalog[i].0, Fields(ProviderTable(catalog[i].1)), ProviderMembers(catalog, i + 1), 2);
      LineOfProvider(catalog, i);
      assert line + (end + rest) == line + end + rest;
    } else {
      NoProvider(catalog, i);
    }
  }

  lemma NextProvider(catalog: CatalogDocument, i: nat)
    requires i < |catalog|
    ensures ProviderMembers(catalog, i) ==
            Member(catalog[i].0, Fields(ProviderTable(catalog[i].1)), ProviderMembers(catalog, i + 1))
    ensures ProviderMembers(catalog, i + 1).NoMembers? <==> i + 1 == |catalog|
  {
    hide Fields, ProviderTable;
  }

  lemma NoProvider(catalog: CatalogDocument, i: nat)
    requires i >= |catalog|
    ensures MemberLines(ProviderMembers(catalog, i), 2) == []
  {
    hide Fields, ProviderTable;
  }

  lemma LineOfProvider(catalog: CatalogDocument, i: nat)
    requires i < |catalog|
    ensures ProviderLine(catalog, i) == Entry(catalog[i].0, Fields(ProviderTable(catalog[i].1)), 2)
        + LineEnd(i + 1 == |catalog|)
  {
    hide Entry, Fields, ProviderTable, LineEnd;
  }

  method RenderProviders(buffer: string, catalog: CatalogDocument) returns (out: string)
    ensures out == buffer + MemberLines(ProviderMembers(catalog, 0), 2)
  {
    hide *;
    ghost var text := buffer + MemberLines(ProviderMembers(catalog, 0), 2);
    out := buffer;
    NothingWritten(out, MemberLines(ProviderMembers(catalog, 0), 2));
    for i := 0 to |catalog|
      invariant Left(out, MemberLines(ProviderMembers(catalog, i), 2), text)
    {
      ProviderLines(catalog, i);
      Write(out, ProviderLine(catalog, i), MemberLines(ProviderMembers(catalog, i + 1), 2), text);
      out := RenderProvider(out, catalog[i].0, catalog[i].1, i + 1 == |catalog|);
    }
    ProviderLines(catalog, |catalog|);
    AllWritten(out, text);
  }

  lemma ProvenanceRows(p: Provenance)
    ensures var table := ProvenanceTable(p);
            && |table| == 4
            && table[0] == (SourceKey, Some(String(p.source)))
            && table[1] == (SourceSha256Key, Some(String(p.sourceSha256)))
            && table[2] == (FetchedKey, Some(String(p.fetched)))
            && table[3] == (LibraryVersionKey, Some(String(p.libraryVersion)))
            && Present(table, 1) != NoMembers && Present(table, 2) != NoMembers && Present(table, 3) != NoMembers
  {
    hide Spelling;
  }

  method RenderProvenance(buffer: string, provenance: Provenance) returns (out: string)
    ensures out == buffer + (Tag(2, ProvenanceKey) + Pretty(Fields(ProvenanceTable(provenance)), 1) + ",\n")
  {
    hide *;
    ghost var table := ProvenanceTable(provenance);
    ProvenanceRows(provenance);
    out := buffer + (Tag(2, ProvenanceKey) + "{\n");
    ghost var start := out;
    ghost var text := out + MemberLines(Present(table, 0), 2);
    BodyStarts(out, MemberLines(Present(table, 0), 2));
    StringValue(provenance.source, 2);
    WriteEntry(out, table, 0, 2, Quote(provenance.source), [], text);
    out := out + (Tag(4, SourceKey) + Quote(provenance.source) + ",\n");
    StringValue(provenance.sourceSha256, 2);
    WriteEntry(out, table, 1, 2, Quote(provenance.sourceSha256), [], text);
    out := out + (Tag(4, SourceSha256Key) + Quote(provenance.sourceSha256) + ",\n");
    StringValue(provenance.fetched, 2);
    WriteEntry(out, table, 2, 2, Quote(provenance.fetched), [], text);
    out := out + (Tag(4, FetchedKey) + Quote(provenance.fetched) + ",\n");
    StringValue(provenance.libraryVersion, 2);
    LastEntry(table, 3, 2);
    LeftIsAll(out, Tag(4, LibraryVersionKey) + Quote(provenance.libraryVersion) + "\n", text);
    out := out + (Tag(4, LibraryVersionKey) + Quote(provenance.libraryVersion) + "\n");
    out := out + (Spaces(2) + "},\n");
    ProvenanceBlock(buffer, provenance);
  }

  lemma ProvenanceBlock(out: string, provenance: Provenance)
    ensures out + (Tag(2, ProvenanceKey) + "{\n") + MemberLines(Present(ProvenanceTable(provenance), 0), 2)
        + (Spaces(2) + "},\n")
            == out + (Tag(2, ProvenanceKey) + Pretty(Fields(ProvenanceTable(provenance)), 1) + ",\n")
  {
    hide *;
    FieldsAre(ProvenanceTable(provenance));
    ObjectText(Present(ProvenanceTable(provenance), 0), 1, 2);
    var tag, end := Tag(2, ProvenanceKey), Spaces(2);
    var lines := MemberLines(Present(ProvenanceTable(provenance), 0), 2);
    assert "},\n" == "}" + ",\n";
    assert out + (tag + "{\n") + lines + (end + "},\n") == out + (tag + ("{\n" + lines + end + "}") + ",\n");
  }

  lemma DocumentRows(catalog: CatalogDocument, provenance: Provenance)
    ensures var table := DocumentTable(catalog, provenance);
            && |table| == 3
            && table[0] == (ProvenanceKey, Some(Fields(ProvenanceTable(provenance))))
            && table[1] == (SchemaVersionKey, Some(Count(SCHEMA_VERSION_NUMBER)))
            && table[2] == (ProvidersKey, Some(Object(ProviderMembers(catalog, 0))))
            && Present(table, 1) != NoMembers && Present(table, 2) != NoMembers
            && DocumentJson(catalog, provenance) == Object(Present(table, 0))
  {
    hide Spelling, ProviderMembers, ProvenanceTable;
  }

  lemma CountText(n: nat, depth: nat)
    ensures Pretty(Count(n), depth) == Digits(n)
  {
  }

  // Everything up to the self-check.
  method DocumentText(catalog: CatalogDocument, provenance: Provenance) returns (out: string)
    ensures out == Document(DocumentJson(catalog, provenance))
  {
    hide *;
    ghost var table := DocumentTable(catalog, provenance);
    ghost var text := "{\n" + MemberLines(Present(table, 0), 1);
    DocumentRows(catalog, provenance);
    out := "{\n";
    BodyStarts(out, MemberLines(Present(table, 0), 1));
    WriteEntry(out, table, 0, 1, Pretty(Fields(ProvenanceTable(provenance)), 1), [], text);
    out := RenderProvenance(out, provenance);
    CountText(SCHEMA_VERSION_NUMBER, 1);
    WriteEntry(out, table, 1, 1, Digits(SCHEMA_VERSION_NUMBER), [], text);
    out := out + (Tag(2, SchemaVersionKey) + Digits(SCHEMA_VERSION_NUMBER) + ",\n");
    ghost var before := out;
    out := out + (Tag(2, ProvidersKey) + "{\n");
    out := RenderProviders(out, catalog);
    out := out + (Spaces(2) + "}\n");
    ProvidersBlock(before, catalog, provenance, text);
    out := out + "}\n";
    DocumentEnds(catalog, provenance, text);
  }

  lemma ProvidersBlock(out: string, catalog: CatalogDocument, provenance: Provenance, text: string)
    requires Left(out, MemberLines(Present(DocumentTable(catalog, provenance), 2), 1) + [], text)
    ensures out + (Tag(2, ProvidersKey) + "{\n") + MemberLines(ProviderMembers(catalog, 0), 2) + (Spaces(2) + "}\n")
        == text
  {
    hide *;
    DocumentRows(catalog, provenance);
    LastEntry(DocumentTable(catalog, provenance), 2, 1);
    var members := ProviderMembers(catalog, 0);
    ObjectText(members, 1, 2);
    var tag, lines, end := Tag(2, ProvidersKey), MemberLines(members, 2), Spaces(2);
    var block := tag + ("{\n" + lines + end + "}") + "\n";
    assert out + (tag + "{\n") + lines + (end + "}\n") == out + block;
    LeftIsAll(out, block, text);
  }

  lemma DocumentEnds(catalog: CatalogDocument, provenance: Provenance, text: string)
    requires text == "{\n" + MemberLines(Present(DocumentTable(catalog, provenance), 0), 1)
    ensures text + "}\n" == Document(DocumentJson(catalog, provenance))
  {
    hide Present, MemberLines, DocumentTable;
    var members := Present(DocumentTable(catalog, provenance), 0);
    ObjectText(members, 0, 0);
    assert "}\n" == "}" + "\n" && text + Spaces(0) == text;
    assert Document(DocumentJson(catalog, provenance)) == (text + Spaces(0) + "}") + "\n";
  }
}
