/**
 Lexing laid-out JSON: the layout of a value is read as exactly the tokens of that value, wherever it
 stands in a text.
 */
module JsonLayout {
  import opened Wrappers
  import opened Json
  import opened JsonText

  /// Strings

  lemma HexDigits(n: nat)
    requires n < 16
    ensures HexValue(HexDigit(n)) == Some(n)
  {
  }

  lemma ControlReads(t: string, i: nat, c: char)
    requires c < ' ' && At(t, i, "\\u00" + [HexDigit(c as int / 16), HexDigit(c as int % 16)])
    ensures CharAt(t, i) == Some(Scan(c, i + 6))
  {
    var w := "\\u00" + [HexDigit(c as int / 16), HexDigit(c as int % 16)];
    assert forall k :: 0 <= k < 6 ==> t[i..i + 6][k] == w[k];
    assert t[i] == w[0] && t[i + 1] == w[1] && t[i + 2] == w[2] && t[i + 3] == w[3] && t[i + 4] == w[4]
        && t[i + 5] == w[5];
    HexDigits(c as int / 16);
    HexDigits(c as int % 16);
    hide HexDigit, HexValue;
    assert HexValue('0') == Some(0) by { HexDigits(0); ZeroDigit(); }
    assert HexAt(t, i + 2) == Some(c as int);
  }

  lemma ZeroDigit()
    ensures HexDigit(0) == '0'
  {
  }

  lemma CharReads(t: string, i: nat, c: char)
    requires At(t, i, Escaped(c))
    ensures i < |t| && t[i] != '"' && CharAt(t, i) == Some(Scan(c, i + |Escaped(c)|))
  {
    if c < ' ' && c != '\U{8}' && c != '\U{c}' && c != '\n' && c != '\r' && c != '\t' {
      ControlReads(t, i, c);
      assert t[i] == t[i..i + 6][0];
    } else {
      hide HexDigit;
      assert t[i] == Escaped(c)[0] by { assert t[i] == t[i..i + |Escaped(c)|][0]; }
      if |Escaped(c)| > 1 {
        assert t[i + 1] == Escaped(c)[1] by { assert t[i + 1] == t[i..i + |Escaped(c)|][1]; }
      }
    }
  }

  lemma EscapedParts(s: string)
    requires s != []
    ensures EscapedAll(s) + "\"" == Escaped(s[0]) + (EscapedAll(s[1..]) + "\"")
    ensures |EscapedAll(s)| == |Escaped(s[0])| + |EscapedAll(s[1..])|
  {
  }

  lemma {:induction false} StringReads(t: string, i: nat, s: string)
    requires At(t, i, EscapedAll(s) + "\"")
    ensures StringAt(t, i) == Some(Scan(s, i + |EscapedAll(s)| + 1))
    decreases |s|
  {
    hide At, CharAt, Escaped;
    if s == [] {
      assert EscapedAll(s) + "\"" == ['"'];
      AtOne(t, i, '"');
    } else {
      EscapedParts(s);
      AtSplit(t, i, Escaped(s[0]), EscapedAll(s[1..]) + "\"");
      CharReads(t, i, s[0]);
      StringReads(t, i + |Escaped(s[0])|, s[1..]);
      assert s == [s[0]] + s[1..];
    }
  }

  lemma QuoteReads(t: string, i: nat, s: string)
    requires At(t, i, Quote(s))
    ensures Lex(t, i) == Put([Word(String(s))], Lex(t, i + |Quote(s)|))
  {
    hide At, StringAt, EscapedAll;
    assert Quote(s) == ['"'] + (EscapedAll(s) + "\"");
    AtFirst(t, i, '"', EscapedAll(s) + "\"");
    StringReads(t, i + 1, s);
  }

  /// Numbers

  lemma NumberIsOneRun(s: string)
    requires IsNumber(s)
    ensures s != [] && (Digit(s[0]) || s[0] == '-')
    ensures forall k :: 0 <= k < |s| ==> NumberChar(s[k])
  {
  }

  lemma {:induction false} RunReads(t: string, i: nat, j: nat)
    requires i <= j <= |t| && (forall k :: i <= k < j ==> NumberChar(t[k])) && (j < |t| ==> !NumberChar(t[j]))
    ensures NumberEnd(t, i) == j
    decreases j - i
  {
    if i < j {
      RunReads(t, i + 1, j);
    }
  }

  // The text of a number ends where no number character follows.
  predicate Ends(t: string, i: nat) {
    i < |t| ==> !NumberChar(t[i])
  }

  lemma RunIsNumber(t: string, i: nat, end: nat)
    requires i < end <= |t| && NumberEnd(t, i) == end && IsNumber(t[i..end]) && (Digit(t[i]) || t[i] == '-')
    ensures Lex(t, i) == Put([Word(Number(t[i..end]))], Lex(t, end))
  {
    LiteralStarts(t, i);
    hide IsNumber, NumberEnd, At;
  }

  lemma NumberReads(t: string, i: nat, s: string)
    requires At(t, i, s) && IsNumber(s) && Ends(t, i + |s|)
    ensures Lex(t, i) == Put([Word(Number(s))], Lex(t, i + |s|))
  {
    NumberIsOneRun(s);
    assert t[i..i + |s|] == s && i + |s| <= |t|;
    hide IsNumber, Lex, NumberEnd, NumberChar, At;
    forall k | i <= k < i + |s| ensures NumberChar(t[k]) {
      assert t[k] == t[i..i + |s|][k - i];
    }
    assert t[i] == t[i..i + |s|][0] == s[0];
    RunReads(t, i, i + |s|);
    RunIsNumber(t, i, i + |s|);
  }

  lemma LiteralStarts(t: string, i: nat)
    requires i < |t|
    ensures At(t, i, "true") ==> t[i] == 't'
    ensures At(t, i, "false") ==> t[i] == 'f'
    ensures At(t, i, "null") ==> t[i] == 'n'
  {
    if At(t, i, "true") {
      assert t[i..i + 4][0] == 't';
    }
    if At(t, i, "false") {
      assert t[i..i + 5][0] == 'f';
    }
    if At(t, i, "null") {
      assert t[i..i + 4][0] == 'n';
    }
  }

  // What `format_cost` writes for a number that is not finite.
  const NON_FINITE: set<string> := {"NaN.0", "inf.0", "-inf.0"}

  lemma NonFiniteFails(t: string, i: nat, s: string)
    requires At(t, i, s) && s in NON_FINITE
    ensures Lex(t, i) == None
  {
    var w := t[i..i + |s|];
    assert t[i] == w[0] == s[0];
    if s == "-inf.0" {
      assert t[i + 1] == w[1] == 'i';
      RunReads(t, i, i + 1);
      assert t[i..i + 1] == "-" && !IsNumber("-");
    } else {
      RunReads(t, i, i);
    }
    LiteralStarts(t, i);
  }

  /// Pieces of layout

  lemma {:induction false} SpacesRead(t: string, i: nat, n: nat)
    requires At(t, i, Spaces(n))
    ensures Lex(t, i) == Lex(t, i + n)
    decreases n
  {
    hide At;
    if n > 0 {
      AtFirst(t, i, ' ', Spaces(n - 1));
      SpacesRead(t, i + 1, n - 1);
    }
  }

  lemma MarkReads(t: string, i: nat, c: char)
    requires At(t, i, [c]) && Structural(c).Some?
    ensures Lex(t, i) == Put([Structural(c).value], Lex(t, i + 1))
  {
    AtOne(t, i, c);
  }

  lemma BlankReads(t: string, i: nat, c: char)
    requires At(t, i, [c]) && Whitespace(c)
    ensures Lex(t, i) == Lex(t, i + 1)
  {
    AtOne(t, i, c);
  }

  // A mark and the blank behind it.
  lemma PairReads(t: string, i: nat, mark: char, blank: char)
    requires At(t, i, [mark, blank]) && Structural(mark).Some? && Whitespace(blank)
    ensures Lex(t, i) == Put([Structural(mark).value], Lex(t, i + 2))
  {
    assert [mark, blank] == [mark] + [blank];
    AtSplit(t, i, [mark], [blank]);
    hide *;
    MarkReads(t, i, mark);
    BlankReads(t, i + 1, blank);
  }

  lemma PutTwice(a: seq<Token>, b: seq<Token>, r: Option<seq<Token>>)
    ensures Put(a, Put(b, r)) == Put(a + b, r)
  {
    if r.Some? {
      assert a + (b + r.value) == (a + b) + r.value;
    }
  }

  /// Values

  // Every number in the value is one by the grammar.
  predicate Numeric(v: Json)
    decreases v
  {
    match v
    case Number(lexeme) => IsNumber(lexeme)
    case Array(items) => NumericItems(items)
    case Object(members) => NumericMembers(members)
    case _ => true
  }

  predicate NumericItems(items: Items)
    decreases items
  {
    items.Item? ==> Numeric(items.value) && NumericItems(items.more)
  }

  predicate NumericMembers(members: Members)
    decreases members
  {
    members.Member? ==> Numeric(members.value) && NumericMembers(members.rest)
  }

  // Every number is one by the grammar or is spelled like a float that is not finite.
  predicate Spelled(v: Json)
    decreases v
  {
    match v
    case Number(lexeme) => IsNumber(lexeme) || lexeme in NON_FINITE
    case Array(items) => SpelledItems(items)
    case Object(members) => SpelledMembers(members)
    case _ => true
  }

  predicate SpelledItems(items: Items)
    decreases items
  {
    items.Item? ==> Spelled(items.value) && SpelledItems(items.more)
  }

  predicate SpelledMembers(members: Members)
    decreases members
  {
    members.Member? ==> Spelled(members.value) && SpelledMembers(members.rest)
  }

  // What lexing gives when tokens, if they can be read at all, stand in front of the rest.
  function Before(readable: bool, tokens: seq<Token>, r: Option<seq<Token>>): Option<seq<Token>> {
    if readable then Put(tokens, r) else None
  }

  lemma LiteralReads(t: string, i: nat, v: Json, d: nat)
    requires v.Null? || v.Bool?
    requires At(t, i, Pretty(v, d))
    ensures Lex(t, i) == Put([Word(v)], Lex(t, i + |Pretty(v, d)|))
  {
    var w := Pretty(v, d);
    assert t[i] == t[i..i + |w|][0] == w[0];
    LiteralStarts(t, i);
    hide At, NumberEnd, IsNumber;
  }

  lemma BeforeTwice(p: bool, a: seq<Token>, q: bool, b: seq<Token>, r: Option<seq<Token>>)
    ensures Before(p, a, Before(q, b, r)) == Before(p && q, a + b, r)
    ensures Put(a, Before(q, b, r)) == Before(q, a + b, r)
    ensures Before(p, a, Put(b, r)) == Before(p, a + b, r)
  {
    PutTwice(a, b, r);
  }

  lemma EntryParts(key: string, v: Json, d: nat)
    ensures Entry(key, v, d) == Indent(d) + (Quote(key) + ([':', ' '] + Pretty(v, d)))
  {
  }

  lemma {:induction false} EntryReads(t: string, i: nat, key: string, v: Json, d: nat)
    requires At(t, i, Entry(key, v, d)) && Spelled(v) && Ends(t, i + |Entry(key, v, d)|)
    ensures Lex(t, i) == Before(Numeric(v), [Word(String(key)), Colon] + Tokens(v), Lex(t, i + |Entry(key, v, d)|))
    decreases v, 3
  {
    hide *;
    EntryParts(key, v, d);
    var body := [':', ' '] + Pretty(v, d);
    var j := i + |Indent(d)|;
    var k := j + |Quote(key)|;
    AtSplit(t, i, Indent(d), Quote(key) + body);
    AtSplit(t, j, Quote(key), body);
    AtSplit(t, k, [':', ' '], Pretty(v, d));
    IndentReads(t, i, d);
    QuoteReads(t, j, key);
    ColonReads(t, k);
    ValueReads(t, k + 2, v, d);
    var rest := Lex(t, k + 2 + |Pretty(v, d)|);
    BeforeTwice(true, [Colon], Numeric(v), Tokens(v), rest);
    BeforeTwice(true, [Word(String(key))], Numeric(v), [Colon] + Tokens(v), rest);
    assert [Word(String(key))] + ([Colon] + Tokens(v)) == [Word(String(key)), Colon] + Tokens(v);
  }

  lemma IndentReads(t: string, i: nat, d: nat)
    requires At(t, i, Indent(d))
    ensures Lex(t, i) == Lex(t, i + |Indent(d)|)
  {
    hide At, Lex;
    SpacesRead(t, i, 2 * d);
  }

  lemma ColonReads(t: string, i: nat)
    requires At(t, i, [':', ' '])
    ensures Lex(t, i) == Put([Colon], Lex(t, i + 2))
  {
    hide At, Lex;
    PairReads(t, i, ':', ' ');
  }

  lemma LineEndReads(t: string, i: nat, last: bool)
    requires At(t, i, LineEnd(last))
    ensures Lex(t, i) == Put(Separator(last), Lex(t, i + |LineEnd(last)|))
    ensures Ends(t, i)
  {
    hide At, Lex;
    if last {
      AtOne(t, i, '\n');
      BlankReads(t, i, '\n');
      PutNothing(Lex(t, i + 1));
    } else {
      assert LineEnd(last) == [','] + ['\n'];
      AtFirst(t, i, ',', ['\n']);
      PairReads(t, i, ',', '\n');
    }
  }

  lemma PutNothing(r: Option<seq<Token>>)
    ensures Put([], r) == r
  {
    assert r.Some? ==> [] + r.value == r.value;
  }

  lemma MemberLineParts(key: string, v: Json, rest: Members, d: nat)
    ensures var members := Member(key, v, rest);
            && MemberLines(members, d) == Entry(key, v, d) + (LineEnd(rest.NoMembers?) + MemberLines(rest, d))
            && MemberTokens(members) == [Word(String(key)), Colon] + Tokens(v)
              + (Separator(rest.NoMembers?) + MemberTokens(rest))
            && NumericMembers(members) == (Numeric(v) && NumericMembers(rest))
            && SpelledMembers(members) == (Spelled(v) && SpelledMembers(rest))
  {
  }

  lemma {:induction false} MembersRead(t: string, i: nat, members: Members, d: nat)
    requires At(t, i, MemberLines(members, d)) && SpelledMembers(members)
    ensures Lex(t, i) == Before(NumericMembers(members), MemberTokens(members), Lex(t, i + |MemberLines(members, d)|))
    decreases members, 0
  {
    hide *;
    if members.NoMembers? {
      NoLines(t, i, d);
    } else {
      var key, v, rest := members.key, members.value, members.rest;
      MemberLineParts(key, v, rest, d);
      var last := rest.NoMembers?;
      var j := i + |Entry(key, v, d)|;
      AtSplit(t, i, Entry(key, v, d), LineEnd(last) + MemberLines(rest, d));
      AtSplit(t, j, LineEnd(last), MemberLines(rest, d));
      LineEndReads(t, j, last);
      EntryReads(t, i, key, v, d);
      MembersRead(t, j + |LineEnd(last)|, rest, d);
      MemberStep(t, i, key, v, rest, d);
    }
  }

  lemma NoLines(t: string, i: nat, d: nat)
    ensures Lex(t, i) == Before(NumericMembers(NoMembers), MemberTokens(NoMembers),
                                Lex(t, i + |MemberLines(NoMembers, d)|))
    ensures Lex(t, i) == Before(NumericItems(NoItems), ItemTokens(NoItems), Lex(t, i + |ItemLines(NoItems, d)|))
  {
    PutNothing(Lex(t, i));
  }

  lemma MemberStep(t: string, i: nat, key: string, v: Json, rest: Members, d: nat)
    requires var j := i + |Entry(key, v, d)|;
             var k := j + |LineEnd(rest.NoMembers?)|;
             && Lex(t, i) == Before(Numeric(v), [Word(String(key)), Colon] + Tokens(v), Lex(t, j))
             && Lex(t, j) == Put(Separator(rest.NoMembers?), Lex(t, k))
             && Lex(t, k) == Before(NumericMembers(rest), MemberTokens(rest), Lex(t, k + |MemberLines(rest, d)|))
    ensures var members := Member(key, v, rest);
            Lex(t, i) == Before(NumericMembers(members), MemberTokens(members), Lex(t, i + |MemberLines(members, d)|))
  {
    hide *;
    MemberLineParts(key, v, rest, d);
    var separator, tokens := Separator(rest.NoMembers?), MemberTokens(rest);
    var end := Lex(t, i + |MemberLines(Member(key, v, rest), d)|);
    BeforeTwice(true, separator, NumericMembers(rest), tokens, end);
    BeforeTwice(Numeric(v), [Word(String(key)), Colon] + Tokens(v), NumericMembers(rest), separator + tokens, end);
  }

  lemma ObjectLayout(members: Members, d: nat)
    ensures Pretty(Object(members), d) == ['{', '\n'] + (MemberLines(members, d + 1) + (Indent(d) + ['}']))
    ensures Tokens(Object(members)) == [LBrace] + (MemberTokens(members) + [RBrace])
    ensures Numeric(Object(members)) == NumericMembers(members) && Spelled(Object(members)) == SpelledMembers(members)
  {
  }

  // Behind the members: the closing brace, or bracket, on a line of its own.
  lemma ClosingReads(t: string, i: nat, d: nat, c: char)
    requires At(t, i, Indent(d) + [c]) && Structural(c).Some?
    ensures Lex(t, i) == Put([Structural(c).value], Lex(t, i + |Indent(d)| + 1))
  {
    hide *;
    AtSplit(t, i, Indent(d), [c]);
    IndentReads(t, i, d);
    MarkReads(t, i + |Indent(d)|, c);
  }

  lemma OpeningReads(t: string, i: nat, c: char)
    requires At(t, i, [c, '\n']) && Structural(c).Some?
    ensures Lex(t, i) == Put([Structural(c).value], Lex(t, i + 2))
  {
    hide At, Lex;
    PairReads(t, i, c, '\n');
  }

  lemma Marks()
    ensures Structural('{') == Some(LBrace) && Structural('}') == Some(RBrace)
    ensures Structural('[') == Some(LBracket) && Structural(']') == Some(RBracket)
  {
  }

  lemma {:induction false} ObjectReads(t: string, i: nat, members: Members, d: nat)
    requires At(t, i, Pretty(Object(members), d)) && SpelledMembers(members)
    ensures Lex(t, i) ==
            Before(Numeric(Object(members)), Tokens(Object(members)), Lex(t, i + |Pretty(Object(members), d)|))
    decreases members, 1
  {
    hide *;
    ObjectLayout(members, d);
    Marks();
    var closing := Indent(d) + ['}'];
    var j := i + 2 + |MemberLines(members, d + 1)|;
    AtSplit(t, i, ['{', '\n'], MemberLines(members, d + 1) + closing);
    AtSplit(t, i + 2, MemberLines(members, d + 1), closing);
    OpeningReads(t, i, '{');
    MembersRead(t, i + 2, members, d + 1);
    ClosingReads(t, j, d, '}');
    var rest := Lex(t, j + |Indent(d)| + 1);
    BeforeTwice(NumericMembers(members), MemberTokens(members), true, [RBrace], rest);
    BeforeTwice(true, [LBrace], NumericMembers(members), MemberTokens(members) + [RBrace], rest);
  }

  lemma ItemLineParts(v: Json, more: Items, d: nat)
    ensures var items := Item(v, more);
            && ItemLines(items, d) == Indent(d) + (Pretty(v, d) + (LineEnd(more.NoItems?) + ItemLines(more, d)))
            && ItemTokens(items) == Tokens(v) + (Separator(more.NoItems?) + ItemTokens(more))
            && NumericItems(items) == (Numeric(v) && NumericItems(more))
            && SpelledItems(items) == (Spelled(v) && SpelledItems(more))
  {
  }

  lemma {:induction false} ItemsRead(t: string, i: nat, items: Items, d: nat)
    requires At(t, i, ItemLines(items, d)) && SpelledItems(items)
    ensures Lex(t, i) == Before(NumericItems(items), ItemTokens(items), Lex(t, i + |ItemLines(items, d)|))
    decreases items, 0
  {
    hide *;
    if items.NoItems? {
      NoLines(t, i, d);
    } else {
      var v, more := items.value, items.more;
      ItemLineParts(v, more, d);
      var last := more.NoItems?;
      var j := i + |Indent(d)|;
      var k := j + |Pretty(v, d)|;
      AtSplit(t, i, Indent(d), Pretty(v, d) + (LineEnd(last) + ItemLines(more, d)));
      AtSplit(t, j, Pretty(v, d), LineEnd(last) + ItemLines(more, d));
      AtSplit(t, k, LineEnd(last), ItemLines(more, d));
      IndentReads(t, i, d);
      LineEndReads(t, k, last);
      ValueReads(t, j, v, d);
      ItemsRead(t, k + |LineEnd(last)|, more, d);
      ItemStep(t, i, v, more, d);
    }
  }

  lemma ItemStep(t: string, i: nat, v: Json, more: Items, d: nat)
    requires var j := i + |Indent(d)| + |Pretty(v, d)|;
             var k := j + |LineEnd(more.NoItems?)|;
             && Lex(t, i) == Before(Numeric(v), Tokens(v), Lex(t, j))
             && Lex(t, j) == Put(Separator(more.NoItems?), Lex(t, k))
             && Lex(t, k) == Before(NumericItems(more), ItemTokens(more), Lex(t, k + |ItemLines(more, d)|))
    ensures var items := Item(v, more);
            Lex(t, i) == Before(NumericItems(items), ItemTokens(items), Lex(t, i + |ItemLines(items, d)|))
  {
    hide *;
    ItemLineParts(v, more, d);
    var separator, tokens := Separator(more.NoItems?), ItemTokens(more);
    var end := Lex(t, i + |ItemLines(Item(v, more), d)|);
    BeforeTwice(true, separator, NumericItems(more), tokens, end);
    BeforeTwice(Numeric(v), Tokens(v), NumericItems(more), separator + tokens, end);
  }

  lemma ColumnLayout(items: Items, d: nat)
    requires !AllStrings(items)
    ensures Pretty(Array(items), d) == ['[', '\n'] + (ItemLines(items, d + 1) + (Indent(d) + [']']))
    ensures Tokens(Array(items)) == [LBracket] + (ItemTokens(items) + [RBracket])
    ensures Numeric(Array(items)) == NumericItems(items)
  {
  }

  lemma {:induction false} ColumnReads(t: string, i: nat, items: Items, d: nat)
    requires At(t, i, Pretty(Array(items), d)) && SpelledItems(items) && !AllStrings(items)
    ensures Lex(t, i) == Before(Numeric(Array(items)), Tokens(Array(items)), Lex(t, i + |Pretty(Array(items), d)|))
    decreases items, 1
  {
    hide *;
    ColumnLayout(items, d);
    Marks();
    var closing := Indent(d) + [']'];
    var j := i + 2 + |ItemLines(items, d + 1)|;
    AtSplit(t, i, ['[', '\n'], ItemLines(items, d + 1) + closing);
    AtSplit(t, i + 2, ItemLines(items, d + 1), closing);
    OpeningReads(t, i, '[');
    ItemsRead(t, i + 2, items, d + 1);
    ClosingReads(t, j, d, ']');
    var rest := Lex(t, j + |Indent(d)| + 1);
    BeforeTwice(NumericItems(items), ItemTokens(items), true, [RBracket], rest);
    BeforeTwice(true, [LBracket], NumericItems(items), ItemTokens(items) + [RBracket], rest);
  }

  lemma RowParts(s: string, more: Items, d: nat)
    ensures Inline(Item(String(s), more), d) ==
            Quote(s) + if more.NoItems? then [] else [',', ' '] + Inline(more, d)
    ensures ItemTokens(Item(String(s), more)) ==
            [Word(String(s))] + if more.NoItems? then [] else [Comma] + ItemTokens(more)
  {
  }

  lemma {:induction false} InlineReads(t: string, i: nat, items: Items, d: nat)
    requires At(t, i, Inline(items, d)) && AllStrings(items) && items.Item?
    ensures Lex(t, i) == Put(ItemTokens(items), Lex(t, i + |Inline(items, d)|))
    decreases items, 0
  {
    hide *;
    RowOfStrings(items);
    var s, more := items.value.s, items.more;
    RowParts(s, more, d);
    if more.NoItems? {
      LastOfRow(t, i, s, d);
    } else {
      var j := i + |Quote(s)|;
      AtSplit(t, i, Quote(s), [',', ' '] + Inline(more, d));
      AtSplit(t, j, [',', ' '], Inline(more, d));
      QuoteReads(t, i, s);
      CommaReads(t, j);
      InlineReads(t, j + 2, more, d);
      RowStep(t, i, s, more, d);
    }
  }

  lemma RowOfStrings(items: Items)
    requires AllStrings(items) && items.Item?
    ensures items.value.String? && items == Item(String(items.value.s), items.more) && AllStrings(items.more)
  {
  }

  lemma LastOfRow(t: string, i: nat, s: string, d: nat)
    requires At(t, i, Inline(Item(String(s), NoItems), d))
    ensures Lex(t, i) == Put(ItemTokens(Item(String(s), NoItems)), Lex(t, i + |Inline(Item(String(s), NoItems), d)|))
  {
    hide *;
    RowParts(s, NoItems, d);
    assert Quote(s) + [] == Quote(s) && [Word(String(s))] + [] == [Word(String(s))];
    QuoteReads(t, i, s);
  }

  lemma RowStep(t: string, i: nat, s: string, more: Items, d: nat)
    requires more.Item?
    requires var j := i + |Quote(s)|;
             && Lex(t, i) == Put([Word(String(s))], Lex(t, j)) && Lex(t, j) == Put([Comma], Lex(t, j + 2))
             && Lex(t, j + 2) == Put(ItemTokens(more), Lex(t, j + 2 + |Inline(more, d)|))
    ensures var items := Item(String(s), more);
            Lex(t, i) == Put(ItemTokens(items), Lex(t, i + |Inline(items, d)|))
  {
    hide *;
    RowParts(s, more, d);
    var end := Lex(t, i + |Inline(Item(String(s), more), d)|);
    PutTwice([Comma], ItemTokens(more), end);
    PutTwice([Word(String(s))], [Comma] + ItemTokens(more), end);
  }

  lemma CommaReads(t: string, i: nat)
    requires At(t, i, [',', ' '])
    ensures Lex(t, i) == Put([Comma], Lex(t, i + 2))
  {
    hide At, Lex;
    PairReads(t, i, ',', ' ');
  }

  lemma RowLayout(items: Items, d: nat)
    requires AllStrings(items)
    ensures Pretty(Array(items), d) == ['['] + (Inline(items, d) + [']'])
    ensures Tokens(Array(items)) == [LBracket] + (ItemTokens(items) + [RBracket])
    ensures items.NoItems? ==> Inline(items, d) == [] && ItemTokens(items) == []
  {
  }

  lemma {:induction false} RowIsNumeric(items: Items)
    requires AllStrings(items)
    ensures NumericItems(items) && Numeric(Array(items))
  {
    if items.Item? {
      RowIsNumeric(items.more);
    }
  }

  lemma RowReads(t: string, i: nat, items: Items, d: nat)
    requires At(t, i, Pretty(Array(items), d)) && AllStrings(items)
    ensures Lex(t, i) == Before(Numeric(Array(items)), Tokens(Array(items)), Lex(t, i + |Pretty(Array(items), d)|))
  {
    hide *;
    RowIsNumeric(items);
    RowLayout(items, d);
    Marks();
    var j := i + 1 + |Inline(items, d)|;
    AtSplit(t, i, ['['], Inline(items, d) + [']']);
    AtSplit(t, i + 1, Inline(items, d), [']']);
    MarkReads(t, i, '[');
    MarkReads(t, j, ']');
    if items.Item? {
      InlineReads(t, i + 1, items, d);
    } else {
      PutNothing(Lex(t, i + 1));
    }
    PutTwice(ItemTokens(items), [RBracket], Lex(t, j + 1));
    PutTwice([LBracket], ItemTokens(items) + [RBracket], Lex(t, j + 1));
    BeforeAlways(Tokens(Array(items)), Lex(t, j + 1));
  }

  lemma BeforeAlways(tokens: seq<Token>, r: Option<seq<Token>>)
    ensures Before(true, tokens, r) == Put(tokens, r)
  {
  }

  lemma {:induction false} ValueReads(t: string, i: nat, v: Json, d: nat)
    requires At(t, i, Pretty(v, d)) && Spelled(v) && Ends(t, i + |Pretty(v, d)|)
    ensures Lex(t, i) == Before(Numeric(v), Tokens(v), Lex(t, i + |Pretty(v, d)|))
    decreases v, 2
  {
    hide At, Lex, IsNumber, Ends, Put, AllStrings;
    match v
    case Number(lexeme) =>
      if IsNumber(lexeme) {
        NumberReads(t, i, lexeme);
      } else {
        NonFiniteFails(t, i, lexeme);
      }
    case String(s) =>
      QuoteReads(t, i, s);
    case Array(items) =>
      hide Pretty, Tokens;
      if AllStrings(items) {
        RowReads(t, i, items, d);
      } else {
        ColumnReads(t, i, items, d);
      }
    case Object(members) =>
      hide Pretty, Tokens;
      ObjectReads(t, i, members, d);
    case _ =>
      LiteralReads(t, i, v, d);
  }

  // The value laid out as a document of its own.
  function Document(v: Json): string {
    Pretty(v, 0) + "\n"
  }

  lemma DocumentTokens(v: Json)
    requires Spelled(v)
    ensures Lex(Document(v), 0) == if Numeric(v) then Some(Tokens(v)) else None
  {
    var t := Document(v);
    var end := |Pretty(v, 0)|;
    assert At(t, 0, Pretty(v, 0)) && Ends(t, end);
    assert Lex(t, end) == Lex(t, end + 1) == Some([]);
    hide Lex, Pretty, Numeric, At;
    ValueReads(t, 0, v, 0);
    assert Tokens(v) + [] == Tokens(v);
  }

  // Parsing a laid-out value gives it back, and fails when a number in it is none.
  lemma LayoutRoundTrip(v: Json)
    requires Spelled(v)
    ensures Parse(Document(v)) == if Numeric(v) then Some(v) else None
  {
    hide Lex, Document, Numeric, Tokens, ValueAt;
    DocumentTokens(v);
    if Numeric(v) {
      ReadsTokens(v);
    }
  }
}
