/**
 JSON texts (RFC 8259, sections 2 to 7): values, tokens, a lexer and a parser. Both work on positions of
 one fixed sequence.
 */
module Json {
  import opened Wrappers

  // Members and items in the order of the text. A number is kept as it is written.
  datatype Json =
    | Null
    | Bool(b: bool)
    | Number(lexeme: string)
    | String(s: string)
    | Array(items: Items)
    | Object(members: Members)

  datatype Items = NoItems | Item(value: Json, more: Items)

  datatype Members = NoMembers | Member(key: string, value: Json, rest: Members)

  datatype Token = LBrace | RBrace | LBracket | RBracket | Colon | Comma | Word(value: Json)

  /// Positions

  // `w` stands in `t` at position `i`.
  predicate At<T(==)>(t: seq<T>, i: nat, w: seq<T>) {
    i + |w| <= |t| && t[i..i + |w|] == w
  }

  lemma AtSplit<T>(t: seq<T>, i: nat, v: seq<T>, w: seq<T>)
    requires At(t, i, v + w)
    ensures At(t, i, v) && At(t, i + |v|, w)
  {
    assert t[i..i + |v + w|] == v + w;
    assert t[i..i + |v|] == (v + w)[..|v|];
    assert t[i + |v|..i + |v| + |w|] == (v + w)[|v|..];
  }

  lemma AtFirst<T>(t: seq<T>, i: nat, x: T, w: seq<T>)
    requires At(t, i, [x] + w)
    ensures i < |t| && t[i] == x && At(t, i + 1, w)
  {
    AtSplit(t, i, [x], w);
    assert t[i..i + 1][0] == x;
  }

  lemma AtOne<T>(t: seq<T>, i: nat, x: T)
    requires At(t, i, [x])
    ensures i < |t| && t[i] == x
  {
    assert t[i..i + 1][0] == x;
  }

  /// Strings (section 7)

  // Characters read, and where reading stopped.
  datatype Scan<T> = Scan(read: T, end: nat)

  function HexValue(c: char): Option<nat> {
    if '0' <= c <= '9' then Some(c as int - '0' as int)
    else if 'a' <= c <= 'f' then Some(c as int - 'a' as int + 10)
    else if 'A' <= c <= 'F' then Some(c as int - 'A' as int + 10)
    else None
  }

  // Four hexadecimal digits.
  function HexAt(t: string, i: nat): (r: Option<nat>)
    ensures r.Some? ==> i + 4 <= |t|
  {
    if i + 4 > |t| then None else
    var d0, d1, d2, d3 := HexValue(t[i]), HexValue(t[i + 1]), HexValue(t[i + 2]), HexValue(t[i + 3]);
    if d0.Some? && d1.Some? && d2.Some? && d3.Some?
    then Some(((d0.value * 16 + d1.value) * 16 + d2.value) * 16 + d3.value)
    else None
  }

  // The code point behind `\u`: one unit, or two that form a surrogate pair.
  function UnicodeAt(t: string, i: nat): (r: Option<Scan<char>>)
    ensures r.Some? ==> i < r.value.end <= |t|
  {
    var high := HexAt(t, i);
    if high.None? then None
    else if high.value < 0xd800 || 0xe000 <= high.value <= 0xffff then Some(Scan(high.value as char, i + 4))
    else if high.value >= 0xdc00 || i + 5 >= |t| || t[i + 4] != '\\' || t[i + 5] != 'u' then None else
    var low := HexAt(t, i + 6);
    if low.None? || !(0xdc00 <= low.value < 0xe000) then None
    else Some(Scan((0x10000 + (high.value - 0xd800) * 0x400 + (low.value - 0xdc00)) as char, i + 10))
  }

  // The character behind a backslash.
  function EscapeAt(t: string, i: nat): (r: Option<Scan<char>>)
    ensures r.Some? ==> i < r.value.end <= |t|
  {
    if i >= |t| then None else
    match t[i]
    case '"' => Some(Scan('"', i + 1))
    case '\\' => Some(Scan('\\', i + 1))
    case '/' => Some(Scan('/', i + 1))
    case 'b' => Some(Scan('\U{8}', i + 1))
    case 'f' => Some(Scan('\U{c}', i + 1))
    case 'n' => Some(Scan('\n', i + 1))
    case 'r' => Some(Scan('\r', i + 1))
    case 't' => Some(Scan('\t', i + 1))
    case 'u' => UnicodeAt(t, i + 1)
    case _ => None
  }

  // One character of a string, escaped or not. Control characters have to be escaped.
  function CharAt(t: string, i: nat): (r: Option<Scan<char>>)
    ensures r.Some? ==> i < r.value.end <= |t|
  {
    if i >= |t| || t[i] < ' ' || t[i] == '"' then None
    else if t[i] == '\\' then EscapeAt(t, i + 1)
    else Some(Scan(t[i], i + 1))
  }

  // The rest of a string up to and including its closing quote.
  function StringAt(t: string, i: nat): (r: Option<Scan<string>>)
    ensures r.Some? ==> i < r.value.end <= |t|
    decreases |t| - i
  {
    if i < |t| && t[i] == '"' then Some(Scan([], i + 1)) else
    var first := CharAt(t, i);
    if first.None? then None else
    var others := StringAt(t, first.value.end);
    if others.None? then None else Some(Scan([first.value.read] + others.value.read, others.value.end))
  }

  /// Numbers (section 6)

  predicate Digit(c: char) {
    '0' <= c <= '9'
  }

  predicate NumberChar(c: char) {
    Digit(c) || c == '-' || c == '+' || c == '.' || c == 'e' || c == 'E'
  }

  function DigitsEnd(s: string, i: nat): (end: nat)
    requires i <= |s|
    ensures i <= end <= |s|
    ensures forall k :: i <= k < end ==> Digit(s[k])
    ensures end < |s| ==> !Digit(s[end])
    decreases |s| - i
  {
    if i < |s| && Digit(s[i]) then DigitsEnd(s, i + 1) else i
  }

  // `int = zero / ( digit1-9 *DIGIT )`
  function IntegerEnd(s: string, i: nat): (end: Option<nat>)
    requires i <= |s|
    ensures end.Some? ==> i < end.value <= |s|
  {
    if i == |s| || !Digit(s[i]) then None
    else if s[i] == '0' then Some(i + 1)
    else Some(DigitsEnd(s, i + 1))
  }

  // `frac = decimal-point 1*DIGIT`, if there is one.
  function FractionEnd(s: string, i: nat): (end: Option<nat>)
    requires i <= |s|
    ensures end.Some? ==> i <= end.value <= |s|
  {
    if i == |s| || s[i] != '.' then Some(i)
    else if DigitsEnd(s, i + 1) == i + 1 then None
    else Some(DigitsEnd(s, i + 1))
  }

  // `exp = e [ minus / plus ] 1*DIGIT`, if there is one.
  function ExponentEnd(s: string, i: nat): (end: Option<nat>)
    requires i <= |s|
    ensures end.Some? ==> i <= end.value <= |s|
  {
    if i == |s| || (s[i] != 'e' && s[i] != 'E') then Some(i) else
    var start := if i + 1 < |s| && (s[i + 1] == '+' || s[i + 1] == '-') then i + 2 else i + 1;
    if DigitsEnd(s, start) == start then None else Some(DigitsEnd(s, start))
  }

  // `number = [ minus ] int [ frac ] [ exp ]`
  predicate IsNumber(s: string) {
    var integer := IntegerEnd(s, if s != [] && s[0] == '-' then 1 else 0);
    integer.Some? &&
    var fraction := FractionEnd(s, integer.value);
    fraction.Some? && ExponentEnd(s, fraction.value) == Some(|s|)
  }

  function NumberEnd(t: string, i: nat): (end: nat)
    requires i <= |t|
    ensures i <= end <= |t|
    decreases |t| - i
  {
    if i < |t| && NumberChar(t[i]) then NumberEnd(t, i + 1) else i
  }

  /// Tokens (section 2)

  predicate Whitespace(c: char) {
    c == ' ' || c == '\t' || c == '\n' || c == '\r'
  }

  function Structural(c: char): Option<Token> {
    match c
    case '{' => Some(LBrace)
    case '}' => Some(RBrace)
    case '[' => Some(LBracket)
    case ']' => Some(RBracket)
    case ':' => Some(Colon)
    case ',' => Some(Comma)
    case _ => None
  }

  // A string, a number or one of the three literal names.
  function WordAt(t: string, i: nat): (r: Option<Scan<Json>>)
    requires i < |t|
    ensures r.Some? ==> i < r.value.end <= |t|
  {
    if t[i] == '"' then
      var text := StringAt(t, i + 1);
      if text.None? then None else Some(Scan(String(text.value.read), text.value.end))
    else if At(t, i, "true") then Some(Scan(Bool(true), i + 4))
    else if At(t, i, "false") then Some(Scan(Bool(false), i + 5))
    else if At(t, i, "null") then Some(Scan(Null, i + 4))
    else
      var end := NumberEnd(t, i);
      if end > i && IsNumber(t[i..end]) then Some(Scan(Number(t[i..end]), end)) else None
  }

  function Put(tokens: seq<Token>, r: Option<seq<Token>>): Option<seq<Token>> {
    if r.None? then None else Some(tokens + r.value)
  }

  // Two words next to each other are never a JSON text, so it does not matter where the first one ends.
  function Lex(t: string, i: nat): Option<seq<Token>>
    decreases |t| - i
  {
    if i >= |t| then Some([])
    else if Whitespace(t[i]) then Lex(t, i + 1)
    else if Structural(t[i]).Some? then Put([Structural(t[i]).value], Lex(t, i + 1))
    else
      var word := WordAt(t, i);
      if word.None? then None else Put([Word(word.value.read)], Lex(t, word.value.end))
  }

  /// Values (sections 3 to 5)

  function ValueAt(ts: seq<Token>, i: nat): (r: Option<Scan<Json>>)
    ensures r.Some? ==> i < r.value.end <= |ts|
    decreases |ts| - i, 1
  {
    if i >= |ts| then None else
    match ts[i]
    case Word(value) => Some(Scan(value, i + 1))
    case LBrace =>
      if i + 1 < |ts| && ts[i + 1] == RBrace then Some(Scan(Object(NoMembers), i + 2)) else
      var members := MembersAt(ts, i + 1);
      if members.None? then None else Some(Scan(Object(members.value.read), members.value.end))
    case LBracket =>
      if i + 1 < |ts| && ts[i + 1] == RBracket then Some(Scan(Array(NoItems), i + 2)) else
      var items := ItemsAt(ts, i + 1);
      if items.None? then None else Some(Scan(Array(items.value.read), items.value.end))
    case _ => None
  }

  // At least one member, and the closing brace.
  function MembersAt(ts: seq<Token>, i: nat): (r: Option<Scan<Members>>)
    ensures r.Some? ==> i < r.value.end <= |ts|
    decreases |ts| - i, 0
  {
    if i + 1 >= |ts| || !ts[i].Word? || !ts[i].value.String? || ts[i + 1] != Colon then None else
    var value := ValueAt(ts, i + 2);
    if value.None? || value.value.end >= |ts| then None else
    var end := value.value.end;
    if ts[end] == RBrace then Some(Scan(Member(ts[i].value.s, value.value.read, NoMembers), end + 1))
    else if ts[end] != Comma then None else
    var rest := MembersAt(ts, end + 1);
    if rest.None? then None
    else Some(Scan(Member(ts[i].value.s, value.value.read, rest.value.read), rest.value.end))
  }

  // At least one item, and the closing bracket.
  function ItemsAt(ts: seq<Token>, i: nat): (r: Option<Scan<Items>>)
    ensures r.Some? ==> i < r.value.end <= |ts|
    decreases |ts| - i, 2
  {
    var value := ValueAt(ts, i);
    if value.None? || value.value.end >= |ts| then None else
    var end := value.value.end;
    if ts[end] == RBracket then Some(Scan(Item(value.value.read, NoItems), end + 1))
    else if ts[end] != Comma then None else
    var more := ItemsAt(ts, end + 1);
    if more.None? then None else Some(Scan(Item(value.value.read, more.value.read), more.value.end))
  }

  // One value and nothing else.
  function Parse(text: string): Option<Json> {
    var tokens := Lex(text, 0);
    if tokens.None? then None else
    var value := ValueAt(tokens.value, 0);
    if value.None? || value.value.end != |tokens.value| then None else Some(value.value.read)
  }
}
