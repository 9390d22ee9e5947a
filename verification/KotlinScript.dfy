/**
 A script with both declarations, whatever its versions: the release check accepts it, and synchronizing it
 succeeds and only exchanges the version.
 */
module KotlinScript {
  import opened Wrappers
  import opened KotlinComments
  import opened KotlinSplice
  import opened KotlinCoordinates
  import opened KotlinAccepted
  import opened KotlinRelease

  // Nothing between `i` and `j` that begins a comment or a string, and no colon.
  predicate Quiet(t: string, i: nat, j: nat) {
    i <= j <= |t| && forall k :: i <= k < j ==> t[k] != '/' && t[k] != '"' && t[k] != ':'
  }

  // A string of plain characters between two quotes.
  predicate QuotedPlain(t: string, i: nat, j: nat) {
    i + 1 < j < |t| && t[i] == '"' && t[j] == '"' && forall k :: i < k < j ==> PlainChar(t[k])
  }

  /// Reading such a text

  lemma {:induction false} QuietIsKept(t: string, i: nat, j: nat)
    requires Quiet(t, i, j)
    ensures Strip(t, i) == Prepend(t[i..j], Strip(t, j))
    decreases j - i
  {
    if i < j {
      QuietIsKept(t, i + 1, j);
      assert NextToken(t, i) == Ok(Token(Code, i + 1));
      assert t[i..j] == t[i..i + 1] + t[i + 1..j];
      PrependTwice(t[i..i + 1], t[i + 1..j], Strip(t, j));
    } else {
      assert Strip(t, i).Ok? ==> t[i..i] + Strip(t, i).value == Strip(t, i).value;
    }
  }

  lemma {:induction false} QuotedRuns(t: string, i: nat, j: nat)
    requires i <= j < |t| && t[j] == '"' && forall k :: i <= k < j ==> PlainChar(t[k])
    ensures QuotedEnd(t, i) == Some(j + 1)
    decreases j - i
  {
    hide IsSpace;
    if i < j {
      QuotedRuns(t, i + 1, j);
    }
  }

  lemma QuotedIsAString(t: string, i: nat, j: nat)
    requires QuotedPlain(t, i, j)
    ensures i < |t| && StringEnd(t, i) == Some(j + 1) && t[i] == '"' && !Opens(t, i) && !OpensLine(t, i)
  {
    hide IsSpace, RawEnd;
    QuotedRuns(t, i + 1, j);
    assert PlainChar(t[i + 1]);
    hide QuotedEnd;
  }

  lemma QuotedIsKept(t: string, i: nat, j: nat)
    requires QuotedPlain(t, i, j)
    ensures j < |t| && Strip(t, i) == Prepend(t[i..j + 1], Strip(t, j + 1))
  {
    QuotedIsAString(t, i, j);
    hide StringEnd, Opens, OpensLine, CommentEnd, LineEnd, PlainChar;
  }

  // No coordinate begins in a quiet stretch that ends the text or comes to a quote.
  lemma {:induction false} QuietHasNoPin(p: Pin, t: string, i: nat, j: nat)
    requires Quiet(t, i, j) && (j < |t| ==> t[j] == '"')
    ensures FindPins(p, t, i) == FindPins(p, t, j)
    decreases j - i
  {
    if i < j {
      if HasAt(t, i, p) {
        NoPinIsQuiet(p, t, i, j);
        assert false;
      }
      QuietHasNoPin(p, t, i + 1, j);
    }
  }

  lemma NoPinIsQuiet(p: Pin, t: string, i: nat, j: nat)
    requires i < j <= |t| && Quiet(t, i, j) && (j < |t| ==> t[j] == '"')
    ensures !HasAt(t, i, p)
  {
    if HasAt(t, i, p) {
      NoQuoteInPin(p, t, i);
      ColonAtEnd(p, t, i);
    }
  }

  lemma ColonAtEnd(p: Pin, t: string, i: nat)
    requires HasAt(t, i, p)
    ensures t[i + |p| - 1] == ':'
  {
    assert t[i + (|p| - 1)] == p[|p| - 1];
  }

  lemma QuotedPin(p: Pin, t: string, i: nat, j: nat, span: Span)
    requires WritesQuoted(p, t, span, i) && span.end == j
    ensures FindPins(p, t, i) == [span] + FindPins(p, t, j)
  {
    hide IsSpace;
    RunIs(t, span.start, j);
    NoPinAtQuote(p, t, i);
    FirstPin(p, t, i);
    FirstPin(p, t, i + 1);
  }

  lemma NoPinAtQuote(p: Pin, t: string, i: nat)
    requires i < |t| && t[i] == '"'
    ensures !PinAt(p, t, i)
  {
    if PinAt(p, t, i) {
      NoQuoteInPin(p, t, i);
    }
  }

  lemma PinAtClosingQuote(p: Pin, t: string, j: nat)
    requires j < |t| && t[j] == '"'
    ensures FindPins(p, t, j) == FindPins(p, t, j + 1)
  {
    NoPinAtQuote(p, t, j);
    FirstPin(p, t, j);
  }

  /// Two quoted coordinates and quiet text around them

  ghost predicate TwoQuoted(p: Pin, t: string, a: Span, b: Span) {
    && |p| < a.start && |p| < b.start && a.end < b.start - 1 - |p| && b.end < |t|
    && Quiet(t, 0, a.start - 1 - |p|) && WritesQuoted(p, t, a, a.start - 1 - |p|)
    && QuotedPlain(t, a.start - 1 - |p|, a.end)
    && Quiet(t, a.end + 1, b.start - 1 - |p|) && WritesQuoted(p, t, b, b.start - 1 - |p|)
    && QuotedPlain(t, b.start - 1 - |p|, b.end)
    && Quiet(t, b.end + 1, |t|)
  }

  lemma KeptOn(t: string, i: nat, j: nat, k: nat)
    requires i <= j <= k <= |t|
    requires Strip(t, i) == Prepend(t[i..j], Strip(t, j)) && Strip(t, j) == Prepend(t[j..k], Strip(t, k))
    ensures Strip(t, i) == Prepend(t[i..k], Strip(t, k))
  {
    hide Strip, Prepend;
    assert t[i..k] == t[i..j] + t[j..k];
    PrependTwice(t[i..j], t[j..k], Strip(t, k));
  }

  lemma TwoQuotedAreRead(p: Pin, t: string, a: Span, b: Span)
    requires TwoQuoted(p, t, a, b)
    ensures Strip(t, 0) == Ok(t) && Pins(p, t) == [a, b]
  {
    hide Strip, FindPins, Quiet, QuotedPlain, WritesQuoted, HasAt, Prepend;
    var q, r := a.start - 1 - |p|, b.start - 1 - |p|;
    OpeningQuote(p, t, a, q);
    OpeningQuote(p, t, b, r);
    QuietIsKept(t, 0, q);
    QuotedIsKept(t, q, a.end);
    QuietIsKept(t, a.end + 1, r);
    QuotedIsKept(t, r, b.end);
    QuietIsKept(t, b.end + 1, |t|);
    KeptOn(t, 0, q, a.end + 1);
    KeptOn(t, 0, a.end + 1, r);
    KeptOn(t, 0, r, b.end + 1);
    KeptOn(t, 0, b.end + 1, |t|);
    AtTheEnd(p, t);
    QuietHasNoPin(p, t, 0, q);
    QuotedPin(p, t, q, a.end, a);
    PinAtClosingQuote(p, t, a.end);
    QuietHasNoPin(p, t, a.end + 1, r);
    QuotedPin(p, t, r, b.end, b);
    PinAtClosingQuote(p, t, b.end);
    QuietHasNoPin(p, t, b.end + 1, |t|);
  }

  lemma OpeningQuote(p: Pin, t: string, span: Span, quote: nat)
    requires WritesQuoted(p, t, span, quote)
    ensures quote < span.end < |t| && t[quote] == '"' && t[span.end] == '"'
  {
  }

  lemma AtTheEnd(p: Pin, t: string)
    ensures Prepend(t[0..|t|], Strip(t, |t|)) == Ok(t) && FindPins(p, t, |t|) == []
  {
    assert t[0..|t|] + [] == t;
  }

  /// The script

  function Quoted(p: Pin, v: string): string {
    "\"" + p + v + "\""
  }

  const CONSTANT := "val aarCoord = "
  const DEPENDENCY := "\n" + "implementation("

  // The two declarations as a build script has them.
  function Script(p: Pin, v: string): string {
    CONSTANT + Quoted(p, v) + DEPENDENCY + Quoted(p, v) + ")"
  }

  // Where the two versions are.
  function First(p: Pin, v: string): Span {
    Span(16 + |p|, 16 + |p| + |v|)
  }

  function Second(p: Pin, v: string): Span {
    Span(34 + 2 * |p| + |v|, 34 + 2 * |p| + 2 * |v|)
  }

  // The pieces of the script, in their places.
  lemma Pieces(p: Pin, v: string)
    ensures var t := Script(p, v);
            && |t| == 36 + 2 * |p| + 2 * |v|
            && t[..15] == CONSTANT && t[15..17 + |p| + |v|] == Quoted(p, v)
            && t[17 + |p| + |v|..33 + |p| + |v|] == DEPENDENCY
            && t[33 + |p| + |v|..35 + 2 * |p| + 2 * |v|] == Quoted(p, v)
            && t[35 + 2 * |p| + 2 * |v|] == ')'
  {
    var quoted := Quoted(p, v);
    assert |CONSTANT| == 15 && |DEPENDENCY| == 16 && |quoted| == 2 + |p| + |v|;
  }

  lemma SliceStands(t: string, i: nat, j: nat, w: string, k: nat)
    requires i <= j <= |t| && t[i..j] == w && k < |w|
    ensures i + k < |t| && t[i + k] == w[k]
  {
    assert t[i..j][k] == w[k];
  }

  lemma QuotedStands(p: Pin, v: string, t: string, quote: nat)
    requires Plain(v) && quote + 2 + |p| + |v| <= |t| && t[quote..quote + 2 + |p| + |v|] == Quoted(p, v)
    ensures var span := Span(quote + 1 + |p|, quote + 1 + |p| + |v|);
            WritesQuoted(p, t, span, quote) && QuotedPlain(t, quote, span.end) && t[span.start..span.end] == v
  {
    hide IsSpace;
    var w, end := Quoted(p, v), quote + 2 + |p| + |v|;
    forall k | 0 <= k < |w| ensures t[quote + k] == w[k] {
      SliceStands(t, quote, end, w, k);
    }
    forall k | 0 <= k < |p| ensures t[quote + 1 + k] == p[k] {
      assert t[quote + (1 + k)] == w[1 + k] == p[k];
    }
    forall k | 0 <= k < |v| ensures t[quote + 1 + |p| + k] == v[k] {
      assert t[quote + (1 + |p| + k)] == w[1 + |p| + k] == v[k];
    }
    assert t[quote + 0] == w[0] == '"' && t[quote + (|w| - 1)] == w[|w| - 1] == '"';
    forall k | quote + 1 + |p| <= k < quote + 1 + |p| + |v| ensures PlainChar(t[k]) {
      assert t[quote + 1 + |p| + (k - quote - 1 - |p|)] == v[k - quote - 1 - |p|];
    }
    forall k | quote < k < quote + 1 + |p| ensures PlainChar(t[k]) {
      assert t[quote + 1 + (k - quote - 1)] == p[k - quote - 1];
    }
  }

  // The stretch of `t` from `i` on is this text, in which nothing is loud.
  lemma QuietStands(t: string, i: nat, w: string)
    requires i + |w| <= |t| && t[i..i + |w|] == w
    requires forall k :: 0 <= k < |w| ==> w[k] != '/' && w[k] != '"' && w[k] != ':'
    ensures Quiet(t, i, i + |w|)
  {
    forall k | i <= k < i + |w| ensures t[k] == w[k - i] {
      SliceStands(t, i, i + |w|, w, k - i);
    }
  }

  lemma PartStands(t: string, i: nat, w: string, from: nat, to: nat, part: string)
    requires i + |w| <= |t| && t[i..i + |w|] == w && from <= to <= |w| && w[from..to] == part
    ensures HasAt(t, i + from, part)
  {
    forall k | 0 <= k < |part| ensures t[i + from + k] == part[k] {
      SliceStands(t, i, i + |w|, w, from + k);
      assert w[from..to][k] == part[k];
    }
  }

  lemma WordsOfConstant()
    ensures |CONSTANT| == 15
    ensures CONSTANT[0..3] == "val" && CONSTANT[4..12] == "aarCoord" && CONSTANT[13..14] == "="
    ensures CONSTANT[3] == ' ' && CONSTANT[12] == ' ' && CONSTANT[14] == ' '
    ensures forall k :: 0 <= k < 15 ==> CONSTANT[k] != '/' && CONSTANT[k] != '"' && CONSTANT[k] != ':'
  {
  }

  lemma WordOfDependency()
    ensures |DEPENDENCY| == 16 && DEPENDENCY[1..16] == "implementation("
    ensures forall k :: 0 <= k < 16 ==> DEPENDENCY[k] != '/' && DEPENDENCY[k] != '"' && DEPENDENCY[k] != ':'
  {
    var word := "implementation(";
    assert |word| == 15 && forall k :: 0 <= k < 15 ==> word[k] != '/' && word[k] != '"' && word[k] != ':';
    assert DEPENDENCY == "\n" + word;
    assert ("\n" + word)[1..] == word;
  }

  lemma ScriptIsTwoQuoted(p: Pin, v: string)
    requires Plain(v)
    ensures TwoQuoted(p, Script(p, v), First(p, v), Second(p, v))
    ensures Selects(Script(p, v), First(p, v), v) && Selects(Script(p, v), Second(p, v), v)
  {
    hide Script, Quiet, QuotedPlain, WritesQuoted, PlainChar, Quoted;
    var t, n := Script(p, v), |p| + |v|;
    assert v != [] && p != [] by { NotEmpty(p, v); }
    Pieces(p, v);
    WordsOfConstant();
    WordOfDependency();
    QuietStands(t, 0, CONSTANT);
    QuotedStands(p, v, t, 15);
    QuietStands(t, 17 + n, DEPENDENCY);
    QuotedStands(p, v, t, 33 + n);
    assert t[35 + 2 * n..36 + 2 * n] == ")";
    QuietStands(t, 35 + 2 * n, ")");
  }

  lemma NotEmpty(p: Pin, v: string)
    requires Plain(v)
    ensures v != [] && p != []
  {
  }

  lemma SpaceStands(t: string, i: nat)
    requires i < |t| && t[i] == ' '
    ensures Spaces(t, i, i + 1)
  {
  }

  lemma ScriptDeclaresConstant(p: Pin, v: string)
    requires Plain(v)
    ensures Written(p, AarCoord, Script(p, v), First(p, v))
  {
    hide Script, WritesQuoted, PlainChar, Quoted, Spaces, HasAt;
    var t := Script(p, v);
    Pieces(p, v);
    WordsOfConstant();
    QuotedStands(p, v, t, 15);
    PartStands(t, 0, CONSTANT, 0, 3, "val");
    PartStands(t, 0, CONSTANT, 4, 12, "aarCoord");
    PartStands(t, 0, CONSTANT, 13, 14, "=");
    SliceStands(t, 0, 15, CONSTANT, 3);
    SliceStands(t, 0, 15, CONSTANT, 12);
    SliceStands(t, 0, 15, CONSTANT, 14);
    SpaceStands(t, 3);
    SpaceStands(t, 12);
    SpaceStands(t, 14);
    assert WritesConstant(p, t, First(p, v), Places(0, 4, 13, 15));
  }

  lemma WordStands(t: string, i: nat)
    requires i + 16 <= |t| && t[i..i + 16] == DEPENDENCY
    ensures HasAt(t, i + 1, "implementation(")
  {
    hide *;
    WordOfDependency();
    PartStands(t, i, DEPENDENCY, 1, 16, "implementation(");
  }

  lemma ScriptDeclaresDependency(p: Pin, v: string)
    requires Plain(v)
    ensures Written(p, Implementation, Script(p, v), Second(p, v))
  {
    hide Script, WritesQuoted, PlainChar, Quoted, HasAt;
    var t, n := Script(p, v), |p| + |v|;
    Pieces(p, v);
    QuotedStands(p, v, t, 33 + n);
    WordStands(t, 17 + n);
    assert WritesDependency(p, t, Second(p, v), 18 + n);
  }

  // The check accepts the script with its version.
  lemma ScriptIsAccepted(p: Pin, v: string)
    requires Plain(v)
    ensures Verify(p, Script(p, v), v).Ok?
  {
    hide *;
    var t := Script(p, v);
    ScriptIsTwoQuoted(p, v);
    TwoQuotedAreRead(p, t, First(p, v), Second(p, v));
    ScriptDeclaresConstant(p, v);
    ScriptDeclaresDependency(p, v);
    assert Pinned(p, t, Second(p, v), First(p, v)) by { BothPinned(p, t, Second(p, v), First(p, v)); }
    AcceptedExactlyWhenPinned(p, t, v);
  }

  lemma BothPinned(p: Pin, t: string, dependency: Span, constant: Span)
    requires Pins(p, t) == [constant, dependency]
    requires Written(p, Implementation, t, dependency) && Written(p, AarCoord, t, constant)
    ensures Pinned(p, t, dependency, constant)
  {
    hide Pins, Written;
  }

  // Synchronizing the script with one version gives the script with the other.
  lemma ScriptIsSynchronized(p: Pin, was: string, v: string)
    requires Plain(was) && Plain(v)
    ensures Synchronize(p, Script(p, was), v) == Ok(Script(p, v))
  {
    hide *;
    var t := Script(p, was);
    ScriptIsTwoQuoted(p, was);
    TwoQuotedAreRead(p, t, First(p, was), Second(p, was));
    Rewrites(p, t, t, First(p, was), Second(p, was), v);
    RewrittenScript(p, was, v);
    ScriptIsAccepted(p, v);
  }

  lemma RewrittenScript(p: Pin, was: string, v: string)
    requires Apart(First(p, was), Second(p, was), |Script(p, was)|)
    ensures Rewritten(Script(p, was), First(p, was), Second(p, was), v) == Script(p, v)
  {
    hide *;
    var x, y, z := CONSTANT + "\"" + p, "\"" + DEPENDENCY + "\"" + p, "\")";
    ScriptInFive(p, was);
    ScriptInFive(p, v);
    Exchange(x, y, z, was, v, First(p, was), Second(p, was));
  }

  lemma ScriptInFive(p: Pin, v: string)
    ensures var x, y, z := CONSTANT + "\"" + p, "\"" + DEPENDENCY + "\"" + p, "\")";
            && Script(p, v) == x + v + y + v + z
            && First(p, v) == Span(|x|, |x| + |v|) && Second(p, v) == Span(|x| + |v| + |y|, |x| + |v| + |y| + |v|)
  {
    var q, c, d := "\"", CONSTANT, DEPENDENCY;
    assert |c| == 15 && |d| == 16 && |q| == 1;
    assert Script(p, v) == c + (q + p + v + q) + d + (q + p + v + q) + ")";
    assert "\")" == q + ")";
    FiveOfNine(c, q, p, v, d, ")");
  }

  lemma FiveOfNine(c: string, q: string, p: string, v: string, d: string, e: string)
    ensures c + (q + p + v + q) + d + (q + p + v + q) + e == (c + q + p) + v + (q + d + q + p) + v + (q + e)
  {
  }

  lemma Exchange(x: string, y: string, z: string, was: string, v: string, first: Span, second: Span)
    requires first == Span(|x|, |x| + |was|) && second == Span(|x| + |was| + |y|, |x| + |was| + |y| + |was|)
    requires Apart(first, second, |x + was + y + was + z|)
    ensures Rewritten(x + was + y + was + z, first, second, v) == x + v + y + v + z
  {
    var s := x + was + y + was + z;
    assert s[..first.start] == x;
    assert s[first.end..second.start] == y;
    assert s[second.end..] == z;
  }
}
