/**
 The layout of the generated catalog, two spaces a level, for any JSON value; and the proof that a JSON
 parser reads the value back from it.
 */
module JsonText {
  import opened Wrappers
  import opened Json

  /// Strings

  function HexDigit(n: nat): char
    requires n < 16
  {
    if n < 10 then ('0' as int + n) as char else ('a' as int + n - 10) as char
  }

  // How `serde_json` writes one character of a string.
  function Escaped(c: char): string {
    match c
    case '"' => "\\\""
    case '\\' => "\\\\"
    case '\U{8}' => "\\b"
    case '\U{c}' => "\\f"
    case '\n' => "\\n"
    case '\r' => "\\r"
    case '\t' => "\\t"
    case _ =>
      if c < ' ' then "\\u00" + [HexDigit(c as int / 16), HexDigit(c as int % 16)] else [c]
  }

  function EscapedAll(s: string): string {
    if s == [] then [] else Escaped(s[0]) + EscapedAll(s[1..])
  }

  function Quote(s: string): string {
    "\"" + EscapedAll(s) + "\""
  }

  /// Layout

  function Spaces(n: nat): (r: string)
    ensures |r| == n
  {
    if n == 0 then [] else [' '] + Spaces(n - 1)
  }

  function Indent(depth: nat): string {
    Spaces(2 * depth)
  }

  // The end of a line: a comma unless it is the last one.
  function LineEnd(last: bool): string {
    if last then "\n" else ",\n"
  }

  predicate AllStrings(items: Items) {
    items.Item? ==> items.value.String? && AllStrings(items.more)
  }

  function Inline(items: Items, depth: nat): string
    decreases items
  {
    match items
    case NoItems => []
    case Item(value, NoItems) => Pretty(value, depth)
    case Item(value, more) => Pretty(value, depth) + ", " + Inline(more, depth)
  }

  function ItemLines(items: Items, depth: nat): string
    decreases items
  {
    match items
    case NoItems => []
    case Item(value, more) =>
      Indent(depth) + (Pretty(value, depth) + (LineEnd(more.NoItems?) + ItemLines(more, depth)))
  }

  function Entry(key: string, value: Json, depth: nat): string
    decreases value, 1
  {
    Indent(depth) + Quote(key) + ": " + Pretty(value, depth)
  }

  function MemberLines(members: Members, depth: nat): string
    decreases members
  {
    match members
    case NoMembers => []
    case Member(key, value, rest) =>
      Entry(key, value, depth) + (LineEnd(rest.NoMembers?) + MemberLines(rest, depth))
  }

  // One line per member and item; an array of strings stays on its line.
  function Pretty(v: Json, depth: nat): string
    decreases v, 0
  {
    match v
    case Null => "null"
    case Bool(b) => if b then "true" else "false"
    case Number(lexeme) => lexeme
    case String(s) => Quote(s)
    case Array(items) =>
      if AllStrings(items) then "[" + Inline(items, depth) + "]"
      else "[\n" + ItemLines(items, depth + 1) + Indent(depth) + "]"
    case Object(members) => "{\n" + MemberLines(members, depth + 1) + Indent(depth) + "}"
  }

  /// Tokens

  function Separator(last: bool): seq<Token> {
    if last then [] else [Comma]
  }

  function ItemTokens(items: Items): seq<Token>
    decreases items
  {
    match items
    case NoItems => []
    case Item(value, more) => Tokens(value) + (Separator(more.NoItems?) + ItemTokens(more))
  }

  function MemberTokens(members: Members): seq<Token>
    decreases members
  {
    match members
    case NoMembers => []
    case Member(key, value, rest) =>
      [Word(String(key)), Colon] + Tokens(value) + (Separator(rest.NoMembers?) + MemberTokens(rest))
  }

  function Tokens(v: Json): seq<Token>
    decreases v
  {
    match v
    case Array(items) => [LBracket] + ItemTokens(items) + [RBracket]
    case Object(members) => [LBrace] + MemberTokens(members) + [RBrace]
    case _ => [Word(v)]
  }

  lemma WholeArray(ts: seq<Token>, i: nat, items: Items, end: nat)
    requires i + 1 < |ts| && ts[i] == LBracket && ts[i + 1] != RBracket && ItemsAt(ts, i + 1) == Some(Scan(items, end))
    ensures ValueAt(ts, i) == Some(Scan(Array(items), end))
  {
  }

  lemma WholeObject(ts: seq<Token>, i: nat, members: Members, end: nat)
    requires i + 1 < |ts| && ts[i] == LBrace && ts[i + 1] != RBrace && MembersAt(ts, i + 1) == Some(Scan(members, end))
    ensures ValueAt(ts, i) == Some(Scan(Object(members), end))
  {
  }

  lemma EmptyPair(ts: seq<Token>, i: nat)
    requires i + 1 < |ts|
    ensures ts[i] == LBrace && ts[i + 1] == RBrace ==> ValueAt(ts, i) == Some(Scan(Object(NoMembers), i + 2))
    ensures ts[i] == LBracket && ts[i + 1] == RBracket ==> ValueAt(ts, i) == Some(Scan(Array(NoItems), i + 2))
  {
  }

  lemma ArrayParts(items: Items)
    ensures Tokens(Array(items)) == [LBracket] + (ItemTokens(items) + [RBracket])
    ensures items.NoItems? ==> ItemTokens(items) == [] && ItemTokens(items) + [RBracket] == [RBracket]
  {
  }

  lemma ObjectParts(members: Members)
    ensures Tokens(Object(members)) == [LBrace] + (MemberTokens(members) + [RBrace])
    ensures members.NoMembers? ==> MemberTokens(members) == [] && MemberTokens(members) + [RBrace] == [RBrace]
  {
  }

  lemma {:induction false} ReadsValue(ts: seq<Token>, i: nat, v: Json)
    requires At(ts, i, Tokens(v))
    ensures ValueAt(ts, i) == Some(Scan(v, i + |Tokens(v)|))
    decreases v
  {
    hide At, ItemsAt, MembersAt;
    match v
    case Array(items) =>
      hide ValueAt, Tokens;
      ArrayParts(items);
      AtFirst(ts, i, LBracket, ItemTokens(items) + [RBracket]);
      if items.NoItems? {
        AtOne(ts, i + 1, RBracket);
        EmptyPair(ts, i);
      } else {
        ReadsItems(ts, i + 1, items);
        WholeArray(ts, i, items, i + |Tokens(v)|);
      }
    case Object(members) =>
      hide ValueAt, Tokens;
      ObjectParts(members);
      AtFirst(ts, i, LBrace, MemberTokens(members) + [RBrace]);
      if members.NoMembers? {
        AtOne(ts, i + 1, RBrace);
        EmptyPair(ts, i);
      } else {
        ReadsMembers(ts, i + 1, members);
        WholeObject(ts, i, members, i + |Tokens(v)|);
      }
    case _ =>
      AtOne(ts, i, Word(v));
  }

  lemma OneItem(ts: seq<Token>, i: nat, v: Json, end: nat)
    requires ValueAt(ts, i) == Some(Scan(v, end)) && end < |ts| && ts[end] == RBracket
    ensures ItemsAt(ts, i) == Some(Scan(Item(v, NoItems), end + 1))
  {
  }

  lemma MoreItems(ts: seq<Token>, i: nat, v: Json, end: nat, more: Items, end': nat)
    requires ValueAt(ts, i) == Some(Scan(v, end)) && end < |ts| && ts[end] == Comma
    requires ItemsAt(ts, end + 1) == Some(Scan(more, end'))
    ensures ItemsAt(ts, i) == Some(Scan(Item(v, more), end'))
  {
  }

  lemma ItemParts(value: Json, more: Items)
    ensures ItemTokens(Item(value, more)) + [RBracket] ==
            Tokens(value) + if more.NoItems? then [RBracket] else [Comma] + (ItemTokens(more) + [RBracket])
    ensures |ItemTokens(Item(value, more))| ==
            |Tokens(value)| + if more.NoItems? then 0 else 1 + |ItemTokens(more)|
  {
    var comma, ts, ms := Separator(more.NoItems?), Tokens(value), ItemTokens(more);
    assert more.NoItems? ==> ms == [] && comma + (ms + [RBracket]) == [RBracket];
    assert ItemTokens(Item(value, more)) == ts + (comma + ms);
    hide *;
    assert ts + (comma + ms) + [RBracket] == ts + (comma + (ms + [RBracket]));
  }

  lemma {:induction false} ReadsItems(ts: seq<Token>, i: nat, items: Items)
    requires items.Item? && At(ts, i, ItemTokens(items) + [RBracket])
    ensures i < |ts| && ts[i] != RBracket
    ensures ItemsAt(ts, i) == Some(Scan(items, i + |ItemTokens(items)| + 1))
    decreases items
  {
    hide *;
    var Item(value, more) := items;
    ItemParts(value, more);
    var end := i + |Tokens(value)|;
    var tail := ItemTokens(more) + [RBracket];
    AtSplit(ts, i, Tokens(value), if more.NoItems? then [RBracket] else [Comma] + tail);
    ReadsValue(ts, i, value);
    NotABracket(ts, i);
    if more.NoItems? {
      AtOne(ts, end, RBracket);
      OneItem(ts, i, value, end);
    } else {
      AtFirst(ts, end, Comma, tail);
      ReadsItems(ts, end + 1, more);
      MoreItems(ts, i, value, end, more, end + 1 + |ItemTokens(more)| + 1);
    }
  }

  lemma NotABracket(ts: seq<Token>, i: nat)
    requires ValueAt(ts, i).Some?
    ensures i < |ts| && ts[i] != RBracket
  {
  }

  lemma OneMember(ts: seq<Token>, i: nat, key: string, v: Json, end: nat)
    requires i + 1 < |ts| && ts[i] == Word(String(key)) && ts[i + 1] == Colon
    requires ValueAt(ts, i + 2) == Some(Scan(v, end)) && end < |ts| && ts[end] == RBrace
    ensures MembersAt(ts, i) == Some(Scan(Member(key, v, NoMembers), end + 1))
  {
  }

  lemma MoreMembers(ts: seq<Token>, i: nat, key: string, v: Json, end: nat, rest: Members, end': nat)
    requires i + 1 < |ts| && ts[i] == Word(String(key)) && ts[i + 1] == Colon
    requires ValueAt(ts, i + 2) == Some(Scan(v, end)) && end < |ts| && ts[end] == Comma
    requires MembersAt(ts, end + 1) == Some(Scan(rest, end'))
    ensures MembersAt(ts, i) == Some(Scan(Member(key, v, rest), end'))
  {
  }

  lemma Regroup(x: Token, y: Token, value: seq<Token>, comma: seq<Token>, rest: seq<Token>, z: Token)
    ensures [x, y] + value + (comma + rest) + [z] == [x] + ([y] + (value + (comma + (rest + [z]))))
  {
  }

  lemma MemberParts(key: string, value: Json, rest: Members)
    ensures MemberTokens(Member(key, value, rest)) + [RBrace] == [Word(String(key))] + ([Colon] + (Tokens(value) +
            if rest.NoMembers? then [RBrace] else [Comma] + (MemberTokens(rest) + [RBrace])))
    ensures |MemberTokens(Member(key, value, rest))| ==
            2 + |Tokens(value)| + if rest.NoMembers? then 0 else 1 + |MemberTokens(rest)|
  {
    var comma := if rest.NoMembers? then [] else [Comma];
    var k, ts, ms := Word(String(key)), Tokens(value), MemberTokens(rest);
    assert rest.NoMembers? ==> ms == [] && comma + (ms + [RBrace]) == [RBrace];
    assert MemberTokens(Member(key, value, rest)) == [k, Colon] + ts + (comma + ms);
    hide *;
    Regroup(k, Colon, ts, comma, ms, RBrace);
  }

  lemma {:induction false} ReadsMembers(ts: seq<Token>, i: nat, members: Members)
    requires members.Member? && At(ts, i, MemberTokens(members) + [RBrace])
    ensures i < |ts| && ts[i] != RBrace
    ensures MembersAt(ts, i) == Some(Scan(members, i + |MemberTokens(members)| + 1))
    decreases members
  {
    hide *;
    var Member(key, value, rest) := members;
    MemberParts(key, value, rest);
    var end := i + 2 + |Tokens(value)|;
    var tail := MemberTokens(rest) + [RBrace];
    var behind := if rest.NoMembers? then [RBrace] else [Comma] + tail;
    AtFirst(ts, i, Word(String(key)), [Colon] + (Tokens(value) + behind));
    AtFirst(ts, i + 1, Colon, Tokens(value) + behind);
    AtSplit(ts, i + 2, Tokens(value), behind);
    ReadsValue(ts, i + 2, value);
    if rest.NoMembers? {
      AtOne(ts, end, RBrace);
      OneMember(ts, i, key, value, end);
    } else {
      AtFirst(ts, end, Comma, tail);
      ReadsMembers(ts, end + 1, rest);
      MoreMembers(ts, i, key, value, end, rest, end + 1 + |MemberTokens(rest)| + 1);
    }
  }

  // The parser reads a value from its tokens.
  lemma ReadsTokens(v: Json)
    ensures ValueAt(Tokens(v), 0) == Some(Scan(v, |Tokens(v)|))
  {
    hide Tokens, ValueAt;
    assert Tokens(v)[0..0 + |Tokens(v)|] == Tokens(v);
    ReadsValue(Tokens(v), 0, v);
  }
}
