/**
 Which scripts the check accepts: the coordinates it finds are the dependency and the constant, and nothing else.
 */
module KotlinAccepted {
  import opened Wrappers
  import opened KotlinComments
  import opened KotlinSplice
  import opened KotlinCoordinates

  // Somewhere in the text stands this declaration, with its version at `span`.
  ghost predicate Declares(p: Pin, d: Declaration, t: string, span: Span) {
    exists i :: 0 <= i < |t| && DeclaredAt(p, d, t, i) == Some(span)
  }

  /// What a declaration looks like

  predicate Spaces(t: string, i: nat, j: nat) {
    i <= j <= |t| && forall k :: i <= k < j ==> IsSpace(t[k])
  }

  // The quoted coordinate, opening quote at `quote`, with its version at `span`.
  predicate WritesQuoted(p: Pin, t: string, span: Span, quote: nat) {
    && quote < |t| && t[quote] == '"' && HasAt(t, quote + 1, p) && span.start == quote + 1 + |p|
    && span.start < span.end < |t| && t[span.end] == '"'
    && forall k :: span.start <= k < span.end ==> t[k] != '"' && !IsSpace(t[k])
  }

  // `implementation(` and right behind it the coordinate.
  predicate WritesDependency(p: Pin, t: string, span: Span, start: nat) {
    HasAt(t, start, "implementation(") && WritesQuoted(p, t, span, start + 15)
  }

  // Where `val`, the name, the equals sign and the opening quote stand.
  datatype Places = Places(start: nat, name: nat, equals: nat, quote: nat)

  // `val`, white space, `aarCoord`, and the coordinate behind `=`, with or without white space on either side.
  predicate WritesConstant(p: Pin, t: string, span: Span, at: Places) {
    && HasAt(t, at.start, "val") && at.start + 3 < at.name && Spaces(t, at.start + 3, at.name)
    && HasAt(t, at.name, "aarCoord") && Spaces(t, at.name + 8, at.equals)
    && HasAt(t, at.equals, "=") && Spaces(t, at.equals + 1, at.quote)
    && WritesQuoted(p, t, span, at.quote)
  }

  ghost predicate Written(p: Pin, d: Declaration, t: string, span: Span) {
    match d
    case Implementation => exists start: nat :: WritesDependency(p, t, span, start)
    case AarCoord => exists at: Places :: WritesConstant(p, t, span, at)
  }

  lemma {:induction false} SkipIs(t: string, i: nat, j: nat)
    requires Spaces(t, i, j) && (j < |t| ==> !IsSpace(t[j]))
    ensures SkipSpaces(t, i) == j
    decreases j - i
  {
    hide IsSpace;
    if i < j {
      SkipIs(t, i + 1, j);
    }
  }

  lemma {:induction false} RunIs(t: string, i: nat, j: nat)
    requires i <= j < |t| && t[j] == '"' && forall k :: i <= k < j ==> t[k] != '"' && !IsSpace(t[k])
    ensures RunEnd(t, i) == j
    decreases j - i
  {
    hide IsSpace;
    if i < j {
      RunIs(t, i + 1, j);
    }
  }

  lemma QuotedIsDeclared(p: Pin, d: Declaration, t: string, span: Span, i: nat, quote: nat)
    requires DeclarationEnd(d, t, i) == Some(quote) && WritesQuoted(p, t, span, quote)
    ensures DeclaredAt(p, d, t, i) == Some(span)
  {
    hide DeclarationEnd, IsSpace;
    forall k | 0 <= k < 1 + |p| ensures t[quote + k] == ("\"" + p)[k] {
      assert k > 0 ==> t[quote + 1 + (k - 1)] == p[k - 1];
    }
    RunIs(t, span.start, span.end);
  }

  lemma DeclaredIsQuoted(p: Pin, d: Declaration, t: string, span: Span, i: nat)
    requires DeclaredAt(p, d, t, i) == Some(span)
    ensures DeclarationEnd(d, t, i).Some? && WritesQuoted(p, t, span, DeclarationEnd(d, t, i).value)
  {
    hide DeclarationEnd, IsSpace;
    var quote := DeclarationEnd(d, t, i).value;
    assert t[quote + 0] == ("\"" + p)[0];
    BehindQuote(p, t, quote);
    assert forall k :: span.start <= k < span.end ==> ValueChar(t[k]);
  }

  lemma EqualsAndQuote(t: string, i: nat)
    requires i < |t| && (t[i] == '=' || t[i] == '"' || t[i] == 'a')
    ensures !IsSpace(t[i])
  {
  }

  lemma ConstantEnds(p: Pin, t: string, span: Span, at: Places)
    requires WritesConstant(p, t, span, at)
    ensures DeclarationEnd(AarCoord, t, at.start) == Some(at.quote)
  {
    hide IsSpace, WritesQuoted, DeclarationEnd, HasAt, SkipSpaces;
    QuoteStands(p, t, span, at.quote);
    FirstCharacters(t, at.name, at.equals);
    EqualsAndQuote(t, at.name);
    EqualsAndQuote(t, at.equals);
    EqualsAndQuote(t, at.quote);
    SkipIs(t, at.start + 3, at.name);
    SkipIs(t, at.name + 8, at.equals);
    SkipIs(t, at.equals + 1, at.quote);
    PartsEnd(t, at);
  }

  lemma FirstCharacters(t: string, name: nat, equals: nat)
    requires HasAt(t, name, "aarCoord") && HasAt(t, equals, "=")
    ensures name < |t| && equals < |t| && t[name] == 'a' && t[equals] == '='
  {
    assert t[name + 0] == "aarCoord"[0] && t[equals + 0] == "="[0];
  }

  lemma PartsEnd(t: string, at: Places)
    requires HasAt(t, at.start, "val") && at.start + 3 <= |t| && SkipSpaces(t, at.start + 3) == at.name > at.start + 3
    requires HasAt(t, at.name, "aarCoord") && at.name + 8 <= |t| && SkipSpaces(t, at.name + 8) == at.equals
    requires HasAt(t, at.equals, "=") && at.equals + 1 <= |t| && SkipSpaces(t, at.equals + 1) == at.quote
    ensures DeclarationEnd(AarCoord, t, at.start) == Some(at.quote)
  {
    hide HasAt, SkipSpaces;
  }

  lemma QuoteStands(p: Pin, t: string, span: Span, quote: nat)
    requires WritesQuoted(p, t, span, quote)
    ensures quote < |t| && t[quote] == '"'
  {
  }

  lemma EndOfConstant(t: string, i: nat) returns (at: Places)
    requires DeclarationEnd(AarCoord, t, i).Some?
    ensures at.start == i && at.quote == DeclarationEnd(AarCoord, t, i).value
    ensures HasAt(t, at.start, "val") && at.start + 3 < at.name && Spaces(t, at.start + 3, at.name)
    ensures HasAt(t, at.name, "aarCoord") && Spaces(t, at.name + 8, at.equals)
    ensures HasAt(t, at.equals, "=") && Spaces(t, at.equals + 1, at.quote)
  {
    hide IsSpace;
    var name := SkipSpaces(t, i + 3);
    var equals := SkipSpaces(t, name + 8);
    at := Places(i, name, equals, SkipSpaces(t, equals + 1));
  }

  // A version is declared exactly where the declaration is written out.
  lemma DeclaresMeansWritten(p: Pin, d: Declaration, t: string, span: Span)
    ensures Declares(p, d, t, span) <==> Written(p, d, t, span)
  {
    hide DeclaredAt, DeclarationEnd, WritesQuoted, HasAt, Spaces;
    if Declares(p, d, t, span) {
      var i :| 0 <= i < |t| && DeclaredAt(p, d, t, i) == Some(span);
      DeclaredIsQuoted(p, d, t, span, i);
      if d == Implementation {
        EndOfDependency(t, i);
        assert WritesDependency(p, t, span, i);
      } else {
        var at := EndOfConstant(t, i);
        assert WritesConstant(p, t, span, at);
      }
    }
    if Written(p, d, t, span) {
      if d == Implementation {
        var start: nat :| WritesDependency(p, t, span, start);
        DependencyEnds(t, start);
        QuotedIsDeclared(p, d, t, span, start, start + 15);
      } else {
        var at: Places :| WritesConstant(p, t, span, at);
        ConstantEnds(p, t, span, at);
        ConstantFits(t, at.start);
        QuotedIsDeclared(p, d, t, span, at.start, at.quote);
      }
    }
  }

  lemma EndOfDependency(t: string, i: nat)
    requires DeclarationEnd(Implementation, t, i).Some?
    ensures DeclarationEnd(Implementation, t, i) == Some(i + 15) && HasAt(t, i, "implementation(")
  {
  }

  lemma DependencyEnds(t: string, i: nat)
    requires HasAt(t, i, "implementation(")
    ensures i < |t| && DeclarationEnd(Implementation, t, i) == Some(i + 15)
  {
  }

  lemma ConstantFits(t: string, i: nat)
    requires HasAt(t, i, "val")
    ensures i < |t|
  {
  }

  /// The scan for coordinates does not miss a declared one

  lemma NoQuoteInside(p: Pin, t: string, i: nat, q: nat)
    requires i <= q < |t| && t[q] == '"' && i < |t|
    ensures i < q ==> Onward(p, t, i) <= q
    ensures i == q ==> !PinAt(p, t, i)
  {
    if PinAt(p, t, i) {
      NoQuoteInPin(p, t, i);
    }
  }

  lemma NoQuoteInPin(p: Pin, t: string, i: nat)
    requires HasAt(t, i, p)
    ensures forall j :: i <= j < i + |p| ==> t[j] != '"'
  {
    forall j | i <= j < i + |p| ensures t[j] != '"' {
      assert t[i + (j - i)] == p[j - i];
    }
  }

  // The scan comes to a quote, and goes on behind it.
  lemma {:induction false} QuoteStops(p: Pin, t: string, i: nat, q: nat, span: Span)
    requires i <= q < |t| && t[q] == '"' && span in FindPins(p, t, q + 1)
    ensures span in FindPins(p, t, i)
    decreases q - i
  {
    FirstPin(p, t, i);
    NoQuoteInside(p, t, i, q);
    if i < q {
      hide *;
      QuoteStops(p, t, Onward(p, t, i), q, span);
    }
  }

  // The coordinate of a declaration, behind its opening quote.
  lemma DeclaredIsPin(p: Pin, d: Declaration, t: string, i: nat)
    requires i < |t| && DeclaredAt(p, d, t, i).Some?
    ensures DeclaredAt(p, d, t, i).value in Pins(p, t)
  {
    hide DeclarationEnd;
    var q := DeclarationEnd(d, t, i).value;
    var span := DeclaredAt(p, d, t, i).value;
    assert t[q] == ("\"" + p)[0] == '"';
    assert HasAt(t, q + 1, p) by { BehindQuote(p, t, q); }
    FirstPin(p, t, q + 1);
    QuoteStops(p, t, 0, q, span);
  }

  lemma BehindQuote(p: Pin, t: string, q: nat)
    requires HasAt(t, q, "\"" + p)
    ensures HasAt(t, q + 1, p)
  {
    forall k | 0 <= k < |p| ensures t[q + 1 + k] == p[k] {
      assert ("\"" + p)[k + 1] == p[k];
    }
  }

  lemma DeclaredInPins(p: Pin, d: Declaration, t: string, span: Span)
    requires Declares(p, d, t, span)
    ensures span in Pins(p, t)
  {
    var i :| 0 <= i < |t| && DeclaredAt(p, d, t, i) == Some(span);
    DeclaredIsPin(p, d, t, i);
  }

  /// One coordinate cannot be declared both ways

  // What stands in front of the opening quote.
  lemma BeforeQuote(d: Declaration, t: string, i: nat)
    requires DeclarationEnd(d, t, i).Some?
    ensures var q := DeclarationEnd(d, t, i).value;
            0 < q <= |t| && (t[q - 1] == '(' <==> d == Implementation)
  {
    if d == Implementation {
      assert t[i + 14] == "implementation("[14];
    } else {
      var name := SkipSpaces(t, i + |"val"|);
      var equals := SkipSpaces(t, name + |"aarCoord"|);
      assert t[equals] == "="[0];
    }
  }

  lemma QuoteOf(p: Pin, d: Declaration, t: string, i: nat)
    requires DeclaredAt(p, d, t, i).Some?
    ensures DeclarationEnd(d, t, i) == Some(DeclaredAt(p, d, t, i).value.start - 1 - |p|)
  {
    hide DeclarationEnd, HasAt;
  }

  lemma KindsDiffer(p: Pin, t: string, span: Span)
    requires Declares(p, Implementation, t, span)
    ensures !Declares(p, AarCoord, t, span)
  {
    hide DeclaredAt, DeclarationEnd;
    var i :| 0 <= i < |t| && DeclaredAt(p, Implementation, t, i) == Some(span);
    QuoteOf(p, Implementation, t, i);
    BeforeQuote(Implementation, t, i);
    if Declares(p, AarCoord, t, span) {
      var j :| 0 <= j < |t| && DeclaredAt(p, AarCoord, t, j) == Some(span);
      QuoteOf(p, AarCoord, t, j);
      BeforeQuote(AarCoord, t, j);
      assert false;
    }
  }

  /// The scan for declarations

  lemma {:induction false} EachIsDeclared(p: Pin, d: Declaration, t: string, i: nat, k: nat)
    requires k < |DeclaredSpans(p, d, t, i)|
    ensures Declares(p, d, t, DeclaredSpans(p, d, t, i)[k]) && i < DeclaredSpans(p, d, t, i)[k].start
    decreases |t| - i
  {
    hide DeclaredAt;
    var span := DeclaredAt(p, d, t, i);
    if span.None? {
      EachIsDeclared(p, d, t, i + 1, k);
    } else if k > 0 {
      EachIsDeclared(p, d, t, span.value.end + 1, k - 1);
    }
  }

  lemma {:induction false} SomethingIsFound(p: Pin, d: Declaration, t: string, i: nat, j: nat)
    requires i <= j < |t| && DeclaredAt(p, d, t, j).Some?
    ensures DeclaredSpans(p, d, t, i) != []
    decreases j - i
  {
    hide DeclaredAt;
    if i < j {
      SomethingIsFound(p, d, t, i + 1, j);
    }
  }

  lemma {:induction false} SecondIsAnother(p: Pin, d: Declaration, t: string, i: nat)
    requires |DeclaredSpans(p, d, t, i)| >= 2
    ensures DeclaredSpans(p, d, t, i)[0] != DeclaredSpans(p, d, t, i)[1]
    decreases |t| - i
  {
    hide DeclaredAt;
    var span := DeclaredAt(p, d, t, i);
    if span.None? {
      SecondIsAnother(p, d, t, i + 1);
    } else {
      EachIsDeclared(p, d, t, span.value.end + 1, 0);
    }
  }

  // If one version only is declared this way, the scan finds it alone.
  lemma OnlyOneIsFound(p: Pin, d: Declaration, t: string, span: Span)
    requires Declares(p, d, t, span) && forall s :: Declares(p, d, t, s) ==> s == span
    ensures DeclaredSpans(p, d, t, 0) == [span]
  {
    hide DeclaredAt, DeclaredSpans;
    var j :| 0 <= j < |t| && DeclaredAt(p, d, t, j) == Some(span);
    SomethingIsFound(p, d, t, 0, j);
    EachIsDeclared(p, d, t, 0, 0);
    if |DeclaredSpans(p, d, t, 0)| >= 2 {
      EachIsDeclared(p, d, t, 0, 1);
      SecondIsAnother(p, d, t, 0);
      assert false;
    }
  }

  /// What is accepted

  // The coordinates of `t` are these two, one written as the dependency, one as the constant.
  ghost predicate Pinned(p: Pin, t: string, dependency: Span, constant: Span) {
    && Pins(p, t) in [[dependency, constant], [constant, dependency]]
    && Written(p, Implementation, t, dependency) && Written(p, AarCoord, t, constant)
  }

  ghost predicate Selects(t: string, span: Span, v: string) {
    span.start <= span.end <= |t| && t[span.start..span.end] == v
  }

  lemma OneText(t: string, spans: seq<Span>, v: string)
    requires forall k :: 0 <= k < |spans| ==> spans[k].start <= spans[k].end <= |t|
    ensures Texts(t, spans) == [v] <==> |spans| == 1 && Selects(t, spans[0], v)
    ensures Texts(t, spans) == [v, v] <==> |spans| == 2 && Selects(t, spans[0], v) && Selects(t, spans[1], v)
  {
    var texts := Texts(t, spans);
    assert |texts| == |spans|;
    assert |spans| > 0 ==> texts[0] == t[spans[0].start..spans[0].end];
    assert |spans| > 1 ==> texts[1] == t[spans[1].start..spans[1].end];
  }

  // A text is accepted exactly if its live coordinates are the dependency and the constant, in either order,
  // both with this version.
  lemma AcceptedExactlyWhenPinned(p: Pin, c: string, v: string)
    ensures Verify(p, c, v).Ok?
       <==> && Strip(c, 0).Ok?
            && exists a, b :: Pinned(p, Strip(c, 0).value, a, b) && Selects(Strip(c, 0).value, a, v)
                              && Selects(Strip(c, 0).value, b, v)
  {
    hide Strip, FindPins, DeclaredSpans, Texts, Selects, DeclaredAt, Declares, Written;
    if Strip(c, 0).Ok? {
      var t := Strip(c, 0).value;
      PinsAreOrdered(p, t, 0);
      OneText(t, Pins(p, t), v);
      OneText(t, DeclaredSpans(p, Implementation, t, 0), v);
      OneText(t, DeclaredSpans(p, AarCoord, t, 0), v);
      if Verify(p, c, v).Ok? {
        var a, b := DeclaredSpans(p, Implementation, t, 0)[0], DeclaredSpans(p, AarCoord, t, 0)[0];
        FoundIsPinned(p, t, a, b);
      }
      if a, b :| Pinned(p, t, a, b) && Selects(t, a, v) && Selects(t, b, v) {
        PinnedIsFound(p, t, a, b);
      }
    }
  }

  lemma FoundIsPinned(p: Pin, t: string, a: Span, b: Span)
    requires DeclaredSpans(p, Implementation, t, 0) == [a] && DeclaredSpans(p, AarCoord, t, 0) == [b]
        && |Pins(p, t)| == 2
    ensures Pinned(p, t, a, b)
  {
    hide Pins, DeclaredSpans, Declares, Written;
    DeclaresMeansWritten(p, Implementation, t, a);
    DeclaresMeansWritten(p, AarCoord, t, b);
    EachIsDeclared(p, Implementation, t, 0, 0);
    EachIsDeclared(p, AarCoord, t, 0, 0);
    DeclaredInPins(p, Implementation, t, a);
    DeclaredInPins(p, AarCoord, t, b);
    KindsDiffer(p, t, a);
    var pins := Pins(p, t);
    assert pins == [pins[0], pins[1]];
  }

  lemma PinnedIsFound(p: Pin, t: string, a: Span, b: Span)
    requires Pinned(p, t, a, b)
    ensures DeclaredSpans(p, Implementation, t, 0) == [a] && DeclaredSpans(p, AarCoord, t, 0) == [b]
    ensures |Pins(p, t)| == 2
  {
    hide Pins, DeclaredSpans, Declares, Written;
    DeclaresMeansWritten(p, Implementation, t, a);
    DeclaresMeansWritten(p, AarCoord, t, b);
    KindsDiffer(p, t, a);
    forall s | Declares(p, Implementation, t, s) ensures s == a {
      DeclaredInPins(p, Implementation, t, s);
      KindsDiffer(p, t, s);
    }
    forall s | Declares(p, AarCoord, t, s) ensures s == b {
      DeclaredInPins(p, AarCoord, t, s);
    }
    OnlyOneIsFound(p, Implementation, t, a);
    OnlyOneIsFound(p, AarCoord, t, b);
  }
}
