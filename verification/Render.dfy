/**
 The hand-rolled printer of the catalog: strings pushed piece by piece, commas and indentation placed by
 hand. Every method is proved against the uniform layout of the document's JSON value.
 */
module Render {
  import opened Wrappers
  import opened Json
  import opened JsonText
  import opened Decimal
  import opened Transform
  import opened CatalogJson

  /// Pure pieces

  function Join(parts: seq<string>, separator: string): string {
    if parts == [] then [] else if |parts| == 1 then parts[0] else parts[0] + separator + Join(parts[1..], separator)
  }

  function JsonStringArray(values: seq<string>): string {
    "[" + Join(Map(Quote, values), ", ") + "]"
  }

  // The indentation and the name in front of a member's value.
  function Tag(indent: nat, name: Key): string {
    Spaces(indent) + ("\"" + Spelling(name) + "\"") + ": "
  }

  function BoolText(b: bool): string {
    if b then "true" else "false"
  }

  lemma PlainCharacter(c: char)
    requires c >= ' ' && c != '"' && c != '\\'
    ensures Escaped(c) == [c]
  {
  }

  lemma {:induction false} NothingEscaped(s: string)
    requires NeedsNoEscape(s)
    ensures EscapedAll(s) == s
  {
    hide Escaped;
    if s != [] {
      NothingEscaped(s[1..]);
      PlainCharacter(s[0]);
      assert s == [s[0]] + s[1..];
    }
  }

  lemma TagStarts(name: Key, value: Json, depth: nat)
    ensures Entry(Spelling(name), value, depth) == Tag(2 * depth, name) + Pretty(value, depth)
  {
    NothingEscaped(Spelling(name));
    hide Pretty, EscapedAll, Spaces;
  }

  lemma {:induction false} InlineIsJoin(values: seq<string>, i: nat, depth: nat)
    requires i < |values|
    ensures Inline(StringItems(values, i), depth) == Join(Map(Quote, values)[i..], ", ")
    decreases |values| - i
  {
    var parts := Map(Quote, values);
    assert parts[i..][0] == Quote(values[i]);
    if i + 1 < |values| {
      InlineIsJoin(values, i + 1, depth);
      assert parts[i..][1..] == parts[i + 1..];
      hide Quote;
    }
  }

  lemma {:induction false} OnlyStrings(values: seq<string>, i: nat)
    ensures AllStrings(StringItems(values, i))
    decreases |values| - i
  {
    if i < |values| {
      OnlyStrings(values, i + 1);
    }
  }

  lemma StringArrayIsPretty(values: seq<string>, depth: nat)
    ensures Pretty(Strings(values), depth) == JsonStringArray(values)
  {
    OnlyStrings(values, 0);
    if values != [] {
      InlineIsJoin(values, 0, depth);
      assert Map(Quote, values)[0..] == Map(Quote, values);
    }
    hide AllStrings, Inline, Join, Quote;
  }

  /// Fields that are joined

  // One line for each member that is there.
  function Lines(table: Table, i: nat, depth: nat): seq<string>
    decreases |table| - i
  {
    if i >= |table| then []
    else if table[i].1.None? then Lines(table, i + 1, depth)
    else [Entry(Spelling(table[i].0), table[i].1.value, depth)] + Lines(table, i + 1, depth)
  }

  lemma {:induction false} JoinedLines(table: Table, i: nat, depth: nat)
    requires Lines(table, i, depth) != []
    ensures Join(Lines(table, i, depth), ",\n") + "\n" == MemberLines(Present(table, i), depth)
    decreases |table| - i
  {
    hide Entry;
    if table[i].1.None? {
      JoinedLines(table, i + 1, depth);
    } else {
      var first := Entry(Spelling(table[i].0), table[i].1.value, depth);
      var rest := Lines(table, i + 1, depth);
      assert ([first] + rest)[1..] == rest;
      NoLinesLeft(table, i + 1, depth);
      if rest != [] {
        JoinedLines(table, i + 1, depth);
        assert first + ",\n" + Join(rest, ",\n") + "\n" == first + (",\n" + (Join(rest, ",\n") + "\n"));
      } else {
        assert first + "\n" == first + ("\n" + []);
      }
    }
  }

  lemma {:induction false} NoLinesLeft(table: Table, i: nat, depth: nat)
    ensures Lines(table, i, depth) == [] <==> Present(table, i) == NoMembers
    decreases |table| - i
  {
    if i < |table| {
      NoLinesLeft(table, i + 1, depth);
    }
  }

  // The lines of the members in front of `i` have been pushed.
  ghost predicate Pushed(fields: seq<string>, table: Table, i: nat, depth: nat) {
    fields + Lines(table, i, depth) == Lines(table, 0, depth)
  }

  lemma PushOne(fields: seq<string>, table: Table, i: nat, depth: nat, line: string)
    requires Pushed(fields, table, i, depth) && i < |table| && table[i].1.Some?
    requires line == Tag(2 * depth, table[i].0) + Pretty(table[i].1.value, depth)
    ensures Pushed(fields + [line], table, i + 1, depth)
  {
    TagStarts(table[i].0, table[i].1.value, depth);
    var rest := Lines(table, i + 1, depth);
    assert Lines(table, i, depth) == [line] + rest;
    assert fields + [line] + rest == fields + ([line] + rest);
  }

  lemma PushNone(fields: seq<string>, table: Table, i: nat, depth: nat)
    requires Pushed(fields, table, i, depth) && i < |table| && table[i].1.None?
    ensures Pushed(fields, table, i + 1, depth)
  {
  }

  lemma AllPushed(fields: seq<string>, table: Table, depth: nat)
    requires Pushed(fields, table, |table|, depth)
    ensures fields == Lines(table, 0, depth)
  {
    assert fields + [] == fields;
  }

  // Joined lines between braces are the object.
  lemma BracesAround(table: Table, depth: nat, fields: seq<string>)
    requires Pushed(fields, table, |table|, depth + 1) && fields != []
    ensures "{\n" + Join(fields, ",\n") + "\n" + Spaces(2 * depth) + "}" == Pretty(Fields(table), depth)
  {
    AllPushed(fields, table, depth + 1);
    JoinedLines(table, 0, depth + 1);
    var body := Join(fields, ",\n");
    assert "{\n" + body + "\n" == "{\n" + (body + "\n");
    hide Join, Present, Lines, MemberLines, Spaces;
  }

  /// Costs

  // The rows of the costs inside a larger table.
  ghost predicate HoldsCosts(table: Table, start: nat, costs: Costs) {
    start + 7 <= |table| && forall k :: 0 <= k < 7 ==> table[start + k] == CostTable(costs)[k]
  }

  lemma CostRows(table: Table, start: nat, costs: Costs)
    requires HoldsCosts(table, start, costs)
    ensures table[start] == (InputCostKey, Some(CostNumber(costs.input)))
    ensures table[start + 1] == (OutputCostKey, Some(CostNumber(costs.output)))
    ensures table[start + 2] == (CacheReadCostKey, OptionalCost(costs.cacheRead))
    ensures table[start + 3] == (CacheCreationCostKey, OptionalCost(costs.cacheCreation))
    ensures table[start + 4] == (InputAudioCostKey, OptionalCost(costs.inputAudio))
    ensures table[start + 5] == (OutputAudioCostKey, OptionalCost(costs.outputAudio))
    ensures table[start + 6] == (ReasoningCostKey, OptionalCost(costs.reasoning))
  {
    var rows := CostTable(costs);
    assert table[start + 0] == rows[0] && table[start + 1] == rows[1] && table[start + 2] == rows[2];
    assert table[start + 3] == rows[3] && table[start + 4] == rows[4];
    assert table[start + 5] == rows[5] && table[start + 6] == rows[6];
  }

  lemma CostValue(value: F64, depth: nat)
    ensures Pretty(CostNumber(value), depth) == FormatCost(value)
        && OptionalCost(Some(value)) == Some(CostNumber(value))
  {
  }

  lemma PushedCost(fields: seq<string>, table: Table, i: nat, depth: nat, value: F64)
    requires Pushed(fields, table, i, depth) && i < |table| && table[i].1 == Some(CostNumber(value))
    ensures Pushed(fields + [Tag(2 * depth, table[i].0) + FormatCost(value)], table, i + 1, depth)
  {
    CostValue(value, depth);
    hide *;
    PushOne(fields, table, i, depth, Tag(2 * depth, table[i].0) + FormatCost(value));
  }

  method PushOptionalCost(fields: seq<string>, name: Key, value: Option<F64>, indent: nat,
                          ghost table: Table, ghost i: nat, ghost depth: nat) returns (r: seq<string>)
    requires Pushed(fields, table, i, depth) && i < |table| && table[i] == (name, OptionalCost(value))
        && indent == 2 * depth
    ensures r == if value.Some? then fields + [Tag(indent, name) + FormatCost(value.value)] else fields
    ensures Pushed(r, table, i + 1, depth)
  {
    hide Pushed, Spelling, Tag, FormatCost;
    r := fields;
    if value.Some? {
      PushedCost(fields, table, i, depth, value.value);
      r := r + [Tag(indent, name) + FormatCost(value.value)];
    } else {
      PushNone(fields, table, i, depth);
    }
  }

  // The pushes that a price and a tier have in common.
  method PushCosts(start: seq<string>, costs: Costs, indent: nat, ghost table: Table, ghost i: nat, ghost depth: nat)
    returns (fields: seq<string>)
    requires Pushed(start, table, i, depth) && HoldsCosts(table, i, costs) && indent == 2 * depth
    ensures Pushed(fields, table, i + 7, depth) && fields != []
  {
    CostRows(table, i, costs);
    assert i + 7 <= |table|;
    hide *;
    PushedCost(start, table, i, depth, costs.input);
    fields := start + [Tag(indent, InputCostKey) + FormatCost(costs.input)];
    PushedCost(fields, table, i + 1, depth, costs.output);
    fields := fields + [Tag(indent, OutputCostKey) + FormatCost(costs.output)];
    fields := PushOptionalCost(fields, CacheReadCostKey, costs.cacheRead, indent, table, i + 2, depth);
    fields := PushOptionalCost(fields, CacheCreationCostKey, costs.cacheCreation, indent, table, i + 3, depth);
    fields := PushOptionalCost(fields, InputAudioCostKey, costs.inputAudio, indent, table, i + 4, depth);
    fields := PushOptionalCost(fields, OutputAudioCostKey, costs.outputAudio, indent, table, i + 5, depth);
    fields := PushOptionalCost(fields, ReasoningCostKey, costs.reasoning, indent, table, i + 6, depth);
  }

  // The comma behind every line but the last.
  function Suffix(last: bool): string {
    if last then "" else ","
  }

  lemma SuffixEndsLine(last: bool)
    ensures Suffix(last) + "\n" == LineEnd(last)
  {
  }

  /// Tiers

  lemma TierItemsLast(tiers: seq<PricingTier>, i: nat)
    requires i < |tiers|
    ensures TierItems(tiers, i) == Item(Fields(TierTable(tiers[i])), TierItems(tiers, i + 1))
    ensures TierItems(tiers, i + 1).NoItems? <==> i + 1 == |tiers|
  {
  }

  // What has been written, and what is still to be written of a text.
  ghost predicate Left(out: string, rest: string, text: string) {
    out + rest == text
  }

  lemma Write(out: string, piece: string, rest: string, text: string)
    requires Left(out, piece + rest, text)
    ensures Left(out + piece, rest, text)
  {
    assert out + piece + rest == out + (piece + rest);
  }

  lemma NothingWritten(out: string, rest: string)
    ensures Left(out, rest, out + rest)
  {
  }

  lemma AllWritten(out: string, text: string)
    requires Left(out, [], text)
    ensures out == text
  {
    assert out + [] == out;
  }

  function TierLine(tiers: seq<PricingTier>, i: nat): string
    requires i < |tiers|
  {
    Spaces(14) + Pretty(Fields(TierTable(tiers[i])), 7) + LineEnd(i + 1 == |tiers|)
  }

  lemma Regrouped(a: string, b: string, c: string, d: string)
    ensures a + (b + (c + d)) == a + b + c + d
  {
  }

  lemma TierLines(tiers: seq<PricingTier>, i: nat)
    ensures i >= |tiers| ==> ItemLines(TierItems(tiers, i), 7) == []
    ensures i < |tiers| ==>
      ItemLines(TierItems(tiers, i), 7) == TierLine(tiers, i) + ItemLines(TierItems(tiers, i + 1), 7)
  {
    if i < |tiers| {
      TierItemsLast(tiers, i);
      var tier, end := Pretty(Fields(TierTable(tiers[i])), 7), LineEnd(i + 1 == |tiers|);
      var rest := ItemLines(TierItems(tiers, i + 1), 7);
      assert ItemLines(TierItems(tiers, i), 7) == Indent(7) + (tier + (end + rest)) && Indent(7) == Spaces(14);
      assert TierLine(tiers, i) == Spaces(14) + tier + end;
      hide *;
      Regrouped(Spaces(14), tier, end, rest);
    }
  }

  lemma TiersAreLines(tiers: seq<PricingTier>)
    requires tiers != []
    ensures Pretty(Array(TierItems(tiers, 0)), 6) == "[\n" + ItemLines(TierItems(tiers, 0), 7) + Spaces(12) + "]"
  {
    hide ItemLines, Spaces, TierTable;
  }

  lemma TiersLayout(tiers: seq<PricingTier>)
    requires tiers != []
    ensures Entry(Spelling(TiersKey), Array(TierItems(tiers, 0)), 6) ==
            Tag(12, TiersKey) + "[\n" + ItemLines(TierItems(tiers, 0), 7) + (Spaces(12) + "]")
  {
    hide *;
    TagStarts(TiersKey, Array(TierItems(tiers, 0)), 6);
    TiersAreLines(tiers);
    var tag, lines, end := Tag(12, TiersKey), ItemLines(TierItems(tiers, 0), 7), Spaces(12);
    assert tag + ("[\n" + lines + end + "]") == tag + "[\n" + lines + (end + "]");
  }

  lemma TierRows(tier: PricingTier)
    ensures HoldsCosts(TierTable(tier), 1, tier.costs) && |TierTable(tier)| == 8
    ensures TierTable(tier)[0] == (MinContextTokensKey, Some(Count(tier.minContextTokens)))
    ensures Pretty(Count(tier.minContextTokens), 8) == Digits(tier.minContextTokens)
    ensures Pushed([], TierTable(tier), 0, 8)
  {
  }

  method TierFields(tier: PricingTier) returns (fields: seq<string>)
    ensures Pushed(fields, TierTable(tier), |TierTable(tier)|, 8) && fields != []
  {
    hide *;
    TierRows(tier);
    fields := [Tag(16, MinContextTokensKey) + Digits(tier.minContextTokens)];
    assert [] + fields == fields;
    PushOne([], TierTable(tier), 0, 8, Tag(16, MinContextTokensKey) + Digits(tier.minContextTokens));
    fields := PushCosts(fields, tier.costs, 16, TierTable(tier), 1, 8);
  }

  method TiersField(tiers: seq<PricingTier>) returns (out: string)
    requires tiers != []
    ensures out == Entry(Spelling(TiersKey), Array(TierItems(tiers, 0)), 6)
  {
    hide *;
    out := Tag(12, TiersKey) + "[\n";
    ghost var text := out + ItemLines(TierItems(tiers, 0), 7);
    NothingWritten(out, ItemLines(TierItems(tiers, 0), 7));
    for i := 0 to |tiers|
      invariant Left(out, ItemLines(TierItems(tiers, i), 7), text)
    {
      ghost var before := out;
      out := out + (Spaces(14) + "{\n");
      var fields := TierFields(tiers[i]);
      out := out + Join(fields, ",\n");
      out := out + "\n";
      out := out + (Spaces(14) + "}" + Suffix(i + 1 == |tiers|) + "\n");
      TierPieces(before, tiers, i, fields);
      TierLines(tiers, i);
      Write(before, TierLine(tiers, i), ItemLines(TierItems(tiers, i + 1), 7), text);
    }
    TierLines(tiers, |tiers|);
    AllWritten(out, text);
    TiersLayout(tiers);
    out := out + (Spaces(12) + "]");
  }

  lemma TierPieces(out: string, tiers: seq<PricingTier>, i: nat, fields: seq<string>)
    requires i < |tiers| && Pushed(fields, TierTable(tiers[i]), |TierTable(tiers[i])|, 8) && fields != []
    ensures out + (Spaces(14) + "{\n") + Join(fields, ",\n") + "\n"
            + (Spaces(14) + "}" + Suffix(i + 1 == |tiers|) + "\n") == out + TierLine(tiers, i)
  {
    hide Pushed, Join, Spaces, Pretty, Fields, TierTable, LineEnd, Suffix;
    BracesAround(TierTable(tiers[i]), 7, fields);
    SuffixEndsLine(i + 1 == |tiers|);
    LinePieces(out, Spaces(14), Join(fields, ",\n"), Suffix(i + 1 == |tiers|));
  }

  // The pieces pushed for an object on lines of its own.
  lemma LinePieces(out: string, indent: string, body: string, suffix: string)
    ensures out + (indent + "{\n") + body + "\n" + (indent + "}" + suffix + "\n")
            == out + (indent + ("{\n" + body + "\n" + indent + "}") + (suffix + "\n"))
  {
  }

  /// Pricing

  lemma PricingRows(pricing: Pricing)
    ensures var table := PricingTable(pricing);
            && HoldsCosts(table, 0, pricing.costs) && |table| == 8 && Pushed([], table, 0, 6)
            && table[7] == (TiersKey, if pricing.tiers == [] then None else Some(Array(TierItems(pricing.tiers, 0))))
  {
  }

  method PricingField(pricing: Pricing) returns (out: string)
    ensures out == Entry(Spelling(PricingKey), Fields(PricingTable(pricing)), 5)
  {
    hide *;
    PricingRows(pricing);
    ghost var table := PricingTable(pricing);
    var fields := PushCosts([], pricing.costs, 12, table, 0, 6);
    if pricing.tiers != [] {
      var tiers := TiersField(pricing.tiers);
      TagStarts(TiersKey, Array(TierItems(pricing.tiers, 0)), 6);
      PushOne(fields, table, 7, 6, tiers);
      fields := fields + [tiers];
    } else {
      PushNone(fields, table, 7, 6);
    }
    out := Tag(10, PricingKey) + "{\n";
    out := out + Join(fields, ",\n");
    out := out + "\n";
    out := out + (Spaces(10) + "}");
    BracesAround(table, 5, fields);
    BlockPieces(PricingKey, table, 5, Spaces(10), Join(fields, ",\n"));
  }

  lemma BlockPieces(name: Key, table: Table, depth: nat, indent: string, body: string)
    requires "{\n" + body + "\n" + indent + "}" == Pretty(Fields(table), depth)
    ensures Tag(2 * depth, name) + "{\n" + body + "\n" + (indent + "}") == Entry(Spelling(name), Fields(table), depth)
  {
    hide *;
    TagStarts(name, Fields(table), depth);
    var tag := Tag(2 * depth, name);
    assert tag + "{\n" + body + "\n" + (indent + "}") == tag + ("{\n" + body + "\n" + indent + "}");
  }
}
