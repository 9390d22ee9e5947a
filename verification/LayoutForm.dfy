/** The look of the generated file: indentation, commas, lists on one line, and the escapes of a string. */
module LayoutForm {
  import opened Json
  import opened JsonText
  import opened JsonLayout

  predicate Blank(s: string, width: nat) {
    |s| == width && forall k :: 0 <= k < width ==> s[k] == ' '
  }

  lemma {:induction false} SpacesAre(s: string, width: nat)
    requires Blank(s, width)
    ensures Spaces(width) == s
  {
    if width > 0 {
      SpacesAre(s[1..], width - 1);
      assert s == [' '] + s[1..];
    }
  }

  lemma Flat(p: string, x: string, q: string, y: string, n: string, o: string, c: string)
    ensures p + (x + (q + (y + (n + [])))) + o + c == p + x + q + y + n + o + c
  {
  }

  lemma EntryIs(a: string, v: Json, depth: nat, inner: string)
    requires Blank(inner, 2 * depth)
    ensures Entry(a, v, depth) == inner + Quote(a) + ": " + Pretty(v, depth)
  {
    SpacesAre(inner, 2 * depth);
    hide Quote, Spaces, Pretty;
  }

  lemma LinesOfMembers(key: string, value: Json, rest: Members, depth: nat)
    ensures MemberLines(NoMembers, depth) == []
    ensures MemberLines(Member(key, value, rest), depth)
         == Entry(key, value, depth) + ((if rest == NoMembers then "\n" else ",\n") + MemberLines(rest, depth))
  {
    hide Entry;
  }

  lemma LinesOfItems(v: Json, more: Items, depth: nat, inner: string)
    requires Blank(inner, 2 * depth)
    ensures ItemLines(NoItems, depth) == []
    ensures ItemLines(Item(v, more), depth)
         == (inner + Pretty(v, depth)) + ((if more == NoItems then "\n" else ",\n") + ItemLines(more, depth))
  {
    SpacesAre(inner, 2 * depth);
    hide Spaces;
  }

  lemma Bracketed(members: Members, items: Items, depth: nat, outer: string)
    requires Blank(outer, 2 * depth)
    ensures Pretty(Object(members), depth) == "{\n" + MemberLines(members, depth + 1) + outer + "}"
    ensures items.Item? && items.value.Object? ==>
      Pretty(Array(items), depth) == "[\n" + ItemLines(items, depth + 1) + outer + "]"
  {
    SpacesAre(outer, 2 * depth);
    hide Spaces, MemberLines, ItemLines;
  }

  // Two members, two objects in a list and two strings in a list, as they look in the file: two spaces more on
  // each level, a comma behind all but the last, a list of strings on one line.
  lemma TwoMembers(a: string, v: Json, b: string, w: Json, depth: nat, inner: string, outer: string)
    requires Blank(outer, 2 * depth) && Blank(inner, 2 * depth + 2)
    ensures var first, second := inner + Quote(a) + ": " + Pretty(v, depth + 1),
                inner + Quote(b) + ": " + Pretty(w, depth + 1);
            Pretty(Object(Member(a, v, Member(b, w, NoMembers))), depth)
            == "{\n" + first + ",\n" + second + "\n" + outer + "}"
  {
    hide *;
    var first, second := Entry(a, v, depth + 1), Entry(b, w, depth + 1);
    EntryIs(a, v, depth + 1, inner);
    EntryIs(b, w, depth + 1, inner);
    LinesOfMembers(b, w, NoMembers, depth + 1);
    LinesOfMembers(a, v, Member(b, w, NoMembers), depth + 1);
    Bracketed(Member(a, v, Member(b, w, NoMembers)), NoItems, depth, outer);
    Flat("{\n", first, ",\n", second, "\n", outer, "}");
  }

  lemma TwoItems(v: Json, w: Json, depth: nat, inner: string, outer: string)
    requires Blank(outer, 2 * depth) && Blank(inner, 2 * depth + 2) && v.Object?
    ensures var first, second := inner + Pretty(v, depth + 1), inner + Pretty(w, depth + 1);
            Pretty(Array(Item(v, Item(w, NoItems))), depth)
            == "[\n" + first + ",\n" + second + "\n" + outer + "]"
  {
    hide *;
    var first, second := inner + Pretty(v, depth + 1), inner + Pretty(w, depth + 1);
    LinesOfItems(w, NoItems, depth + 1, inner);
    LinesOfItems(v, Item(w, NoItems), depth + 1, inner);
    Bracketed(NoMembers, Item(v, Item(w, NoItems)), depth, outer);
    Flat("[\n", first, ",\n", second, "\n", outer, "]");
  }

  lemma TwoStrings(s: string, t: string, depth: nat)
    ensures Pretty(Array(Item(String(s), Item(String(t), NoItems))), depth) == "[" + Quote(s) + ", " + Quote(t) + "]"
  {
    hide Quote;
    var items := Item(String(s), Item(String(t), NoItems));
    assert AllStrings(NoItems) && AllStrings(items.more) && AllStrings(items);
    assert Pretty(String(s), depth) == Quote(s) && Pretty(String(t), depth) == Quote(t);
    assert Inline(items.more, depth) == Quote(t);
    assert Inline(items, depth) == Quote(s) + ", " + Quote(t);
  }

  // A file ends with one newline behind the value.
  lemma EndsWithNewline(v: Json)
    ensures Document(v) == Pretty(v, 0) + "\n"
  {
    hide Pretty;
  }

  lemma QuotedCharacter(c: char)
    ensures Quote([c]) == "\"" + Escaped(c) + "\""
  {
    hide Escaped;
    assert EscapedAll([]) == [];
    assert EscapedAll([c]) == Escaped(c) + EscapedAll([]);
  }

  lemma ShortEscapes()
    ensures Escaped('"') == "\\\"" && Escaped('\\') == "\\\\" && Escaped('\n') == "\\n" && Escaped('\r') == "\\r"
    ensures Escaped('\t') == "\\t" && Escaped('\U{8}') == "\\b" && Escaped('\U{c}') == "\\f"
  {
  }

  lemma LongEscape()
    ensures Escaped('\U{1f}') == "\\u001f"
  {
    assert HexDigit(1) == '1' && HexDigit(15) == 'f';
  }

  // Quote, backslash and control characters are escaped, in the short form where there is one.
  lemma EscapesInStrings()
    ensures Quote(['"']) == "\"" + "\\\"" + "\"" && Quote(['\\']) == "\"" + "\\\\" + "\""
    ensures Quote(['\n']) == "\"" + "\\n" + "\"" && Quote(['\r']) == "\"" + "\\r" + "\""
    ensures Quote(['\t']) == "\"" + "\\t" + "\"" && Quote(['\U{8}']) == "\"" + "\\b" + "\""
    ensures Quote(['\U{c}']) == "\"" + "\\f" + "\"" && Quote(['\U{1f}']) == "\"" + "\\u001f" + "\""
  {
    hide *;
    ShortEscapes();
    LongEscape();
    QuotedCharacter('"');
    QuotedCharacter('\\');
    QuotedCharacter('\n');
    QuotedCharacter('\r');
    QuotedCharacter('\t');
    QuotedCharacter('\U{8}');
    QuotedCharacter('\U{c}');
    QuotedCharacter('\U{1f}');
  }
}
