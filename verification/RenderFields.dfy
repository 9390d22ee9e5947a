/** Printing one model: its fields, each in its place, joined by commas. */
module RenderFields {
  import opened Wrappers
  import opened Json
  import opened JsonText
  import opened Decimal
  import opened Transform
  import opened CatalogJson
  import opened Render

  method LimitField(limit: TokenLimits) returns (out: string)
    ensures out == Entry(Spelling(LimitKey), Fields(LimitTable(limit)), 5)
  {
    hide *;
    ghost var table := LimitTable(limit);
    LimitRows(limit);
    PushOne([], table, 0, 6, Tag(12, ContextKey) + Digits(limit.context));
    var fields := [Tag(12, ContextKey) + Digits(limit.context)];
    assert [] + fields == fields;
    if limit.input.Some? {
      PushOne(fields, table, 1, 6, Tag(12, InputKey) + Digits(limit.input.value));
      fields := fields + [Tag(12, InputKey) + Digits(limit.input.value)];
    } else {
      PushNone(fields, table, 1, 6);
    }
    PushOne(fields, table, 2, 6, Tag(12, OutputKey) + Digits(limit.output));
    fields := fields + [Tag(12, OutputKey) + Digits(limit.output)];
    out := Tag(10, LimitKey) + "{\n";
    out := out + Join(fields, ",\n");
    out := out + "\n";
    out := out + (Spaces(10) + "}");
    BracesAround(table, 5, fields);
    BlockPieces(LimitKey, table, 5, Spaces(10), Join(fields, ",\n"));
  }

  lemma LimitRows(limit: TokenLimits)
    ensures var table := LimitTable(limit);
            && |table| == 3 && Pushed([], table, 0, 6)
            && table[0] == (ContextKey, Some(Count(limit.context)))
            && table[1].0 == InputKey && (limit.input.None? ==> table[1].1.None?)
            && (limit.input.Some? ==> table[1].1 == Some(Count(limit.input.value)))
            && table[2] == (OutputKey, Some(Count(limit.output)))
    ensures forall n :: Pretty(Count(n), 6) == Digits(n)
  {
    hide Lines;
    assert [] + Lines(LimitTable(limit), 0, 6) == Lines(LimitTable(limit), 0, 6);
  }

  method ModalitiesField(modalities: ModalityNames) returns (out: string)
    ensures out == Entry(Spelling(ModalitiesKey), Fields(ModalitiesTable(modalities)), 5)
  {
    hide *;
    out := Tag(10, ModalitiesKey) + "{\n";
    out := out + (Tag(12, InputKey) + JsonStringArray(modalities.input) + ",\n");
    out := out + (Tag(12, OutputKey) + JsonStringArray(modalities.output) + "\n");
    out := out + (Spaces(10) + "}");
    ModalitiesPieces(modalities);
  }

  lemma ModalitiesPieces(modalities: ModalityNames)
    ensures Tag(10, ModalitiesKey) + "{\n" + (Tag(12, InputKey) + JsonStringArray(modalities.input) + ",\n")
            + (Tag(12, OutputKey) + JsonStringArray(modalities.output) + "\n") + (Spaces(10) + "}")
            == Entry(Spelling(ModalitiesKey), Fields(ModalitiesTable(modalities)), 5)
  {
    hide *;
    var table := ModalitiesTable(modalities);
    var input := Tag(12, InputKey) + JsonStringArray(modalities.input);
    var output := Tag(12, OutputKey) + JsonStringArray(modalities.output);
    ModalitiesRows(modalities);
    PushOne([], table, 0, 6, input);
    assert [] + [input] == [input];
    PushOne([input], table, 1, 6, output);
    assert [input] + [output] == [input, output];
    BracesAround(table, 5, [input, output]);
    BlockPieces(ModalitiesKey, table, 5, Spaces(10), Join([input, output], ",\n"));
    JoinTwo(input, output);
    var tag := Tag(10, ModalitiesKey) + "{\n";
    assert tag + (input + ",\n") + (output + "\n") == tag + (input + ",\n" + output) + "\n";
  }

  lemma JoinTwo(a: string, b: string)
    ensures Join([a, b], ",\n") == a + ",\n" + b
  {
    assert [a, b][1..] == [b];
  }

  lemma ModalitiesRows(modalities: ModalityNames)
    ensures var table := ModalitiesTable(modalities);
            && |table| == 2 && Pushed([], table, 0, 6)
            && table[0] == (InputKey, Some(Strings(modalities.input)))
            && table[1] == (OutputKey, Some(Strings(modalities.output)))
    ensures Pretty(Strings(modalities.input), 6) == JsonStringArray(modalities.input)
    ensures Pretty(Strings(modalities.output), 6) == JsonStringArray(modalities.output)
  {
    hide Lines, Strings, JsonStringArray;
    assert [] + Lines(ModalitiesTable(modalities), 0, 6) == Lines(ModalitiesTable(modalities), 0, 6);
    StringArrayIsPretty(modalities.input, 6);
    StringArrayIsPretty(modalities.output, 6);
  }

  lemma CapabilityRows(c: Capabilities)
    ensures var table, flags := CapabilitiesTable(c), CapabilityFlags(c);
            && |table| == |flags| > 0 && Pushed([], table, 0, 6)
            && forall k :: 0 <= k < |flags| ==> table[k] == (flags[k].0, Some(Bool(flags[k].1)))
  {
    hide Lines, CapabilityFlags;
    assert [] + Lines(CapabilitiesTable(c), 0, 6) == Lines(CapabilitiesTable(c), 0, 6);
  }

  lemma FlagText(b: bool)
    ensures Pretty(Bool(b), 6) == BoolText(b)
  {
  }

  method CapabilitiesField(capabilities: Capabilities) returns (out: string)
    ensures out == Entry(Spelling(CapabilitiesKey), Fields(CapabilitiesTable(capabilities)), 5)
  {
    hide *;
    var flags := CapabilityFlags(capabilities);
    ghost var table := CapabilitiesTable(capabilities);
    CapabilityRows(capabilities);
    var rendered: seq<string> := [];
    for i := 0 to |flags|
      invariant Pushed(rendered, table, i, 6) && |rendered| == i
    {
      FlagText(flags[i].1);
      PushOne(rendered, table, i, 6, Tag(12, flags[i].0) + BoolText(flags[i].1));
      rendered := rendered + [Tag(12, flags[i].0) + BoolText(flags[i].1)];
    }
    out := Tag(10, CapabilitiesKey) + "{\n";
    out := out + Join(rendered, ",\n");
    out := out + "\n";
    out := out + (Spaces(10) + "}");
    BracesAround(table, 5, rendered);
    BlockPieces(CapabilitiesKey, table, 5, Spaces(10), Join(rendered, ",\n"));
  }

  /// The model

  lemma PushString(fields: seq<string>, table: Table, i: nat, s: string)
    requires Pushed(fields, table, i, 5) && i < |table| && table[i].1 == Some(String(s))
    ensures Pushed(fields + [Tag(10, table[i].0) + Quote(s)], table, i + 1, 5)
  {
    assert Pretty(String(s), 5) == Quote(s);
    hide *;
    PushOne(fields, table, i, 5, Tag(10, table[i].0) + Quote(s));
  }

  method PushOptionalString(fields: seq<string>, name: Key, value: Option<string>, ghost table: Table, ghost i: nat)
    returns (r: seq<string>)
    requires Pushed(fields, table, i, 5) && i < |table| && table[i] == (name, OptionalString(value))
    ensures Pushed(r, table, i + 1, 5)
    ensures r == if value.Some? then fields + [Tag(10, name) + Quote(value.value)] else fields
  {
    hide Pushed, Spelling, Tag, Quote;
    r := fields;
    if value.Some? {
      PushString(fields, table, i, value.value);
      r := r + [Tag(10, name) + Quote(value.value)];
    } else {
      PushNone(fields, table, i, 5);
    }
  }

  // A field that comes with its indentation and name.
  lemma PushField(fields: seq<string>, table: Table, i: nat, v: Json)
    requires Pushed(fields, table, i, 5) && i < |table| && table[i].1 == Some(v)
    ensures Pushed(fields + [Entry(Spelling(table[i].0), v, 5)], table, i + 1, 5)
  {
    hide *;
    TagStarts(table[i].0, v, 5);
    PushOne(fields, table, i, 5, Entry(Spelling(table[i].0), v, 5));
  }

  lemma ModelRows(m: ModelEntry)
    ensures var table := ModelTable(m);
            && |table| == 12 && Pushed([], table, 0, 5)
            && table[0] == (IdKey, Some(String(m.id))) && table[1] == (NameKey, Some(String(m.name)))
            && table[2].0 == PricingKey && (m.pricing.None? ==> table[2].1.None?)
            && (m.pricing.Some? ==> table[2].1 == Some(Fields(PricingTable(m.pricing.value))))
            && table[3] == (LimitKey, Some(Fields(LimitTable(m.limit))))
            && table[4] == (ModalitiesKey, Some(Fields(ModalitiesTable(m.modalities))))
            && table[5] == (ModeKey, OptionalString(m.mode))
            && table[6] == (CapabilitiesKey, Some(Fields(CapabilitiesTable(m.capabilities))))
            && table[7] == (ShapeKey, OptionalString(m.shape)) && table[8] == (FamilyKey, OptionalString(m.family))
            && table[9] == (KnowledgeKey, OptionalString(m.knowledge))
            && table[10] == (ReleaseDateKey, Some(String(m.releaseDate)))
            && table[11] == (LastUpdatedKey, Some(String(m.lastUpdated)))
  {
    hide Lines, PricingTable, LimitTable, ModalitiesTable, CapabilitiesTable, Fields;
    assert [] + Lines(ModelTable(m), 0, 5) == Lines(ModelTable(m), 0, 5);
  }

  method ModelFields(model: ModelEntry) returns (fields: seq<string>)
    ensures Pushed(fields, ModelTable(model), |ModelTable(model)|, 5) && fields != []
  {
    hide *;
    ghost var table := ModelTable(model);
    ModelRows(model);
    fields := [];
    PushString(fields, table, 0, model.id);
    fields := fields + [Tag(10, IdKey) + Quote(model.id)];
    PushString(fields, table, 1, model.name);
    fields := fields + [Tag(10, NameKey) + Quote(model.name)];
    if model.pricing.Some? {
      var pricing := PricingField(model.pricing.value);
      PushField(fields, table, 2, Fields(PricingTable(model.pricing.value)));
      fields := fields + [pricing];
    } else {
      PushNone(fields, table, 2, 5);
    }
    var limit := LimitField(model.limit);
    PushField(fields, table, 3, Fields(LimitTable(model.limit)));
    fields := fields + [limit];
    var modalities := ModalitiesField(model.modalities);
    PushField(fields, table, 4, Fields(ModalitiesTable(model.modalities)));
    fields := fields + [modalities];
    fields := PushOptionalString(fields, ModeKey, model.mode, table, 5);
    var capabilities := CapabilitiesField(model.capabilities);
    PushField(fields, table, 6, Fields(CapabilitiesTable(model.capabilities)));
    fields := fields + [capabilities];
    fields := PushOptionalString(fields, ShapeKey, model.shape, table, 7);
    fields := PushOptionalString(fields, FamilyKey, model.family, table, 8);
    fields := PushOptionalString(fields, KnowledgeKey, model.knowledge, table, 9);
    PushString(fields, table, 10, model.releaseDate);
    fields := fields + [Tag(10, ReleaseDateKey) + Quote(model.releaseDate)];
    PushString(fields, table, 11, model.lastUpdated);
    fields := fields + [Tag(10, LastUpdatedKey) + Quote(model.lastUpdated)];
  }

  // One model's lines: its id and its fields, and a comma unless it is the last one.
  method RenderModel(buffer: string, modelId: string, model: ModelEntry, isLast: bool) returns (out: string)
    ensures out == buffer + (Entry(modelId, Fields(ModelTable(model)), 4) + LineEnd(isLast))
  {
    hide *;
    out := buffer + (Spaces(8) + Quote(modelId) + ": {\n");
    var fields := ModelFields(model);
    out := out + Join(fields, ",\n");
    out := out + "\n";
    out := out + (Spaces(8) + "}" + Suffix(isLast) + "\n");
    BracesAround(ModelTable(model), 4, fields);
    SuffixEndsLine(isLast);
    NamedBlock(buffer, modelId, Fields(ModelTable(model)), 4, Spaces(8), Join(fields, ",\n"), Suffix(isLast));
  }

  lemma NamedBlock(out: string, name: string, v: Json, depth: nat, indent: string, body: string, suffix: string)
    requires "{\n" + body + "\n" + indent + "}" == Pretty(v, depth) && indent == Spaces(2 * depth)
    ensures out + (indent + Quote(name) + ": {\n") + body + "\n" + (indent + "}" + suffix + "\n")
            == out + (Entry(name, v, depth) + (suffix + "\n"))
  {
    hide Quote, Pretty, Spaces;
    assert Entry(name, v, depth) == indent + Quote(name) + ": " + Pretty(v, depth);
    hide *;
    Blocks(out, indent + Quote(name), body, indent, suffix);
  }

  lemma Blocks(out: string, start: string, body: string, indent: string, suffix: string)
    ensures out + (start + ": {\n") + body + "\n" + (indent + "}" + suffix + "\n")
            == out + (start + ": " + ("{\n" + body + "\n" + indent + "}") + (suffix + "\n"))
  {
    assert ": {\n" == ": " + "{\n";
  }
}
