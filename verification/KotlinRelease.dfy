/**
 Laws of one release: rewriting is simultaneous, commutes with stripping, is idempotent, and only the
 last one counts.
 */
module KotlinRelease {
  import opened Wrappers
  import opened KotlinComments
  import opened KotlinSplice
  import opened KotlinCoordinates
  import opened KotlinSync

  predicate Apart(first: Span, second: Span, length: nat) {
    first.start < first.end <= second.start < second.end <= length
  }

  // Both versions exchanged at once, every other character where it was.
  function Rewritten(s: string, first: Span, second: Span, v: string): string
    requires Apart(first, second, |s|)
  {
    s[..first.start] + v + s[first.end..second.start] + v + s[second.end..]
  }

  lemma TwoPins(p: Pin, t: string)
    requires |Pins(p, t)| == EXPECTED_COORDINATES
    ensures var spans := Pins(p, t);
            && spans == [spans[0], spans[1]] && Ordered(spans, |t|) && Apart(spans[0], spans[1], |t|)
            && IsPin(p, t, spans[0]) && IsPin(p, t, spans[1])
  {
    EachIsAPin(p, t, 0, 0);
    EachIsAPin(p, t, 0, 1);
    PinsAreOrdered(p, t, 0);
    hide FindPins, RunEnd, HasAt;
  }

  lemma Twice(s: string, first: Span, second: Span, v: string)
    requires Apart(first, second, |s|)
    ensures var last := Splice(s, second, v);
            first.start <= first.end <= |last| && Splice(last, first, v) == Rewritten(s, first, second, v)
  {
    var last := Splice(s, second, v);
    assert last[..first.start] == s[..first.start];
    assert last[first.end..] == s[first.end..second.start] + v + s[second.end..];
  }

  // Right-to-left splicing is simultaneous replacement.
  lemma SplicesAreSimultaneous(s: string, first: Span, second: Span, v: string)
    requires Ordered([first, second], |s|) && Apart(first, second, |s|)
    ensures SpliceBack(s, [first, second], v) == Rewritten(s, first, second, v)
  {
    var last := Splice(s, second, v);
    assert [first, second][..1] == [first] && [first][..0] == [];
    assert SpliceBack(s, [first, second], v) == SpliceBack(last, [first], v);
    assert SpliceBack(last, [first], v) == SpliceBack(Splice(last, first, v), [], v);
    Twice(s, first, second, v);
  }

  // The script is stripped to `t`, and `t` has these two coordinates, their versions free of delimiters.
  ghost predicate Releasable(p: Pin, c: string, t: string, first: Span, second: Span) {
    && Strip(c, 0) == Ok(t)
    && Pins(p, t) == [first, second]
    && PlainAt(t, first) && PlainAt(t, second)
  }

  lemma PinMoved(p: Pin, t: string, span: Span, v: string, i: nat)
    requires span.start < span.end <= |t| && Repinned(t, Splice(t, span, v), span.start, span.end, span.start + |v|)
    requires span in FindPins(p, t, i)
    ensures FindPins(p, Splice(t, span, v), i) == AllAfter(FindPins(p, t, i), span.end, span.start + |v|)
  {
    hide *;
    assert Span(span.start, span.end) == span;
    PinsAcross(p, t, Splice(t, span, v), span.start, span.end, span.start + |v|, i);
  }

  lemma PinMovedFrom(p: Pin, t: string, span: Span, v: string, i: nat)
    requires span.start < span.end <= |t| && span in FindPins(p, t, i) && Plain(v)
    ensures IsPin(p, t, span)
    ensures FindPins(p, Splice(t, span, v), i) == AllAfter(FindPins(p, t, i), span.end, span.start + |v|)
  {
    hide *;
    EachIn(p, t, i, span);
    SpliceIsRepin(p, t, span, v);
    PinMoved(p, t, span, v, i);
  }

  // Rewriting one version moves the coordinates behind it and changes no other.
  lemma PinRewritten(p: Pin, t: string, span: Span, v: string)
    requires span.start < span.end <= |t| && span in Pins(p, t) && Plain(v)
    ensures IsPin(p, t, span)
    ensures Pins(p, Splice(t, span, v)) == AllAfter(Pins(p, t), span.end, span.start + |v|)
  {
    hide FindPins, Splice, AllAfter, IsPin, Plain;
    PinMovedFrom(p, t, span, v, 0);
  }

  lemma PinEdited(p: Pin, c: string, t: string, span: Span, v: string)
    requires Strip(c, 0) == Ok(t) && span in Pins(p, t) && PlainAt(t, span) && Plain(v)
    ensures span.start < span.end <= |t| == |c|
    ensures Strip(Splice(c, span, v), 0) == Ok(Splice(t, span, v))
    ensures Pins(p, Splice(t, span, v)) == AllAfter(Pins(p, t), span.end, span.start + |v|)
  {
    hide *;
    PlainSpan(t, span);
    PinRewritten(p, t, span, v);
    StripSplice(p, c, t, span, v);
  }

  lemma PlainSpan(t: string, span: Span)
    requires PlainAt(t, span)
    ensures span.start < span.end <= |t|
  {
  }

  lemma AfterTwo(first: Span, second: Span, b: nat, b': nat)
    ensures AllAfter([first, second], b, b') == [After(first, b, b'), After(second, b, b')]
  {
    assert [first, second] == [first] + [second];
    AfterEach(first, [second], b, b');
    AfterEach(second, [], b, b');
    assert [second] == [second] + [];
  }

  lemma SecondMoves(t: string, first: Span, second: Span, v: string)
    requires Apart(first, second, |t|) && PlainAt(t, first) && Plain(v)
    ensures var u, second' := Splice(t, second, v), Span(second.start, second.start + |v|);
            && After(first, second.end, second.start + |v|) == first
            && After(second, second.end, second.start + |v|) == second'
            && Apart(first, second', |u|) && PlainAt(u, first) && PlainAt(u, second')
  {
    hide Plain;
    var u := Splice(t, second, v);
    assert v != [] by { assert Plain(v) && !Plain([]) by { NoPlainEmpty(); } }
    assert u[first.start..first.end] == t[first.start..first.end];
    assert u[second.start..second.start + |v|] == v;
  }

  lemma NoPlainEmpty()
    ensures !Plain([])
  {
  }

  lemma SecondEdited(p: Pin, c: string, t: string, first: Span, second: Span, v: string)
    requires Releasable(p, c, t, first, second) && Plain(v) && Apart(first, second, |t|)
    ensures |t| == |c|
    ensures var end := second.start + |v|;
            Releasable(p, Splice(c, second, v), Splice(t, second, v), first, Span(second.start, end))
            && Apart(first, Span(second.start, end), |Splice(t, second, v)|)
  {
    hide Pins, Strip, AllAfter, After, PlainAt, Plain, Splice;
    PinEdited(p, c, t, second, v);
    AfterTwo(first, second, second.end, second.start + |v|);
    SecondMoves(t, first, second, v);
  }

  lemma FirstEdited(p: Pin, c: string, t: string, first: Span, second: Span, v: string)
    requires Releasable(p, c, t, first, second) && Plain(v) && Apart(first, second, |t|)
    ensures |t| == |c| && Strip(Splice(c, first, v), 0) == Ok(Splice(t, first, v))
    ensures Pins(p, Splice(t, first, v)) ==
            [Span(first.start, first.start + |v|), After(second, first.end, first.start + |v|)]
  {
    hide Pins, Strip, AllAfter, PlainAt, Plain, Splice;
    PinEdited(p, c, t, first, v);
    AfterTwo(first, second, first.end, first.start + |v|);
  }

  lemma PinsApart(p: Pin, c: string, t: string, first: Span, second: Span)
    requires Releasable(p, c, t, first, second)
    ensures |t| == |c| && Ordered([first, second], |c|)
    ensures Apart(first, second, |c|) && first.start < first.end <= second.start < second.end <= |c|
  {
    hide Strip, Pins;
    TwoPins(p, t);
  }

  // Where the two versions are once both are `n` long.
  function Settled(first: Span, second: Span, n: nat): seq<Span>
    requires first.end <= second.start
  {
    var start := second.start - first.end + first.start + n;
    [Span(first.start, first.start + n), Span(start, start + n)]
  }

  // Stripping commutes with synchronizing, and the coordinates are found again at the rewritten places.
  lemma StripCommutesWithRewrite(p: Pin, c: string, t: string, first: Span, second: Span, v: string)
    requires Releasable(p, c, t, first, second) && Plain(v)
    ensures |t| == |c| && Apart(first, second, |c|)
    ensures Strip(Rewritten(c, first, second, v), 0) == Ok(Rewritten(t, first, second, v))
    ensures Pins(p, Rewritten(t, first, second, v)) == Settled(first, second, |v|)
  {
    hide *;
    PinsApart(p, c, t, first, second);
    ReachesSettled(first, second, |t|, |v|);
    Twice(c, first, second, v);
    Twice(t, first, second, v);
    SecondEdited(p, c, t, first, second, v);
    FirstEdited(p, Splice(c, second, v), Splice(t, second, v), first, Span(second.start, second.start + |v|), v);
  }

  lemma ReachesSettled(first: Span, second: Span, length: nat, n: nat)
    requires Apart(first, second, length)
    ensures first.end <= second.start
    ensures Settled(first, second, n) ==
            [Span(first.start, first.start + n),
             After(Span(second.start, second.start + n), first.end, first.start + n)]
  {
  }

  /// The whole operation

  lemma Rewrites(p: Pin, c: string, t: string, first: Span, second: Span, v: string)
    requires Strip(c, 0) == Ok(t) && Pins(p, t) == [first, second]
    ensures |t| == |c| && Apart(first, second, |c|) && first.end <= second.start
    ensures Synchronize(p, c, v) ==
            var c' := Rewritten(c, first, second, v);
            if Verify(p, c', v).Err? then Err(Verify(p, c', v).error) else Ok(c')
  {
    hide Strip, Pins, Verify, SpliceBack, Rewritten;
    TwoPins(p, t);
    SplicesAreSimultaneous(c, first, second, v);
  }

  // Of two synchronizations the last wins.
  lemma LastWins(p: Pin, c: string, t: string, first: Span, second: Span, v: string, w: string)
    requires Releasable(p, c, t, first, second) && Plain(v) && Synchronize(p, c, v).Ok?
    ensures Synchronize(p, Synchronize(p, c, v).value, w) == Synchronize(p, c, w)
  {
    hide *;
    TwoPinsOf(p, c, t, first, second);
    Rewrites(p, c, t, first, second, v);
    Rewrites(p, c, t, first, second, w);
    StripCommutesWithRewrite(p, c, t, first, second, v);
    var c1, t1 := Rewritten(c, first, second, v), Rewritten(t, first, second, v);
    var settled := Settled(first, second, |v|);
    SettledAgain(c, first, second, v, w);
    Rewrites(p, c1, t1, settled[0], settled[1], w);
  }

  lemma TwoPinsOf(p: Pin, c: string, t: string, first: Span, second: Span)
    requires Releasable(p, c, t, first, second)
    ensures Strip(c, 0) == Ok(t) && Pins(p, t) == [first, second]
  {
  }

  lemma SettledAgain(s: string, first: Span, second: Span, v: string, w: string)
    requires Apart(first, second, |s|) && Plain(v)
    ensures var u, settled := Rewritten(s, first, second, v), Settled(first, second, |v|);
            && |settled| == 2 && settled == [settled[0], settled[1]] && Apart(settled[0], settled[1], |u|)
            && Rewritten(u, settled[0], settled[1], w) == Rewritten(s, first, second, w)
  {
    var u, settled := Rewritten(s, first, second, v), Settled(first, second, |v|);
    assert u[..settled[0].start] == s[..first.start];
    assert u[settled[0].end..settled[1].start] == s[first.end..second.start];
    assert u[settled[1].end..] == s[second.end..];
  }

  // The versions of a text that the check accepts.
  lemma Verified(p: Pin, c: string, v: string)
    requires Verify(p, c, v).Ok?
    ensures Strip(c, 0).Ok?
    ensures var t := Strip(c, 0).value;
            Ordered(Pins(p, t), |t|) && Texts(t, Pins(p, t)) == [v, v]
  {
    hide Strip, FindDeclared, FindPins, Texts;
    PinsAreOrdered(p, Strip(c, 0).value, 0);
  }

  // Synchronizing what was synchronized changes nothing, whatever the script and the version.
  lemma SynchronizeTwice(p: Pin, c: string, v: string)
    requires Synchronize(p, c, v).Ok?
    ensures Synchronize(p, Synchronize(p, c, v).value, v) == Synchronize(p, c, v)
  {
    var c1 := Synchronize(p, c, v).value;
    assert Verify(p, c1, v).Ok?;
    hide Strip, Pins, Verify, Texts, SpliceBack, FindDeclared, Synchronize;
    Verified(p, c1, v);
    var t1 := Strip(c1, 0).value;
    var spans := Pins(p, t1);
    TextsTwo(t1, spans, v);
    TwoPins(p, t1);
    Rewrites(p, c1, t1, spans[0], spans[1], v);
    RewrittenInPlace(p, c1, t1, spans[0], spans[1], v);
  }

  lemma TextsTwo(t: string, spans: seq<Span>, v: string)
    requires Ordered(spans, |t|) && Texts(t, spans) == [v, v]
    ensures |spans| == 2 && t[spans[0].start..spans[0].end] == v == t[spans[1].start..spans[1].end]
  {
    assert |Texts(t, spans)| == |spans|;
    assert Texts(t, spans)[0] == v && Texts(t, spans)[1] == v;
  }

  // A version read in the stripped text stands there in the script itself.
  lemma TextInScript(p: Pin, c: string, t: string, span: Span)
    requires Strip(c, 0) == Ok(t) && IsPin(p, t, span)
    ensures span.start < span.end <= |t| == |c| && c[span.start..span.end] == t[span.start..span.end]
  {
    hide Strip, HasAt;
    forall k | span.start <= k < span.end ensures c[k] == t[k] {
      assert ValueChar(t[k]);
      Seen(c, t, k);
    }
  }

  lemma RewrittenInPlace(p: Pin, c: string, t: string, first: Span, second: Span, v: string)
    requires Strip(c, 0) == Ok(t) && IsPin(p, t, first) && IsPin(p, t, second) && Apart(first, second, |t|)
    requires t[first.start..first.end] == v == t[second.start..second.end]
    ensures |t| == |c| && Rewritten(c, first, second, v) == c
  {
    hide Strip, IsPin;
    TextInScript(p, c, t, first);
    TextInScript(p, c, t, second);
    WrittenOver(c, first, second, v);
  }

  lemma WrittenOver(c: string, first: Span, second: Span, v: string)
    requires Apart(first, second, |c|)
    requires c[first.start..first.end] == v == c[second.start..second.end]
    ensures Rewritten(c, first, second, v) == c
  {
    assert c == c[..first.start] + c[first.start..first.end] + c[first.end..second.start]
                + c[second.start..second.end] + c[second.end..];
  }

  // With plain versions the rewritten script never fails for its versions, only for its declarations.
  lemma VersionsAreRewritten(p: Pin, c: string, t: string, first: Span, second: Span, v: string)
    requires Releasable(p, c, t, first, second) && Plain(v)
    ensures Synchronize(p, c, v).Ok? || Synchronize(p, c, v).error == WrongDeclaration
  {
    hide Strip, Pins, Texts, Releasable, Rewritten, Settled, FindDeclared, Plain, Synchronize;
    TwoPinsOf(p, c, t, first, second);
    Rewrites(p, c, t, first, second, v);
    StripCommutesWithRewrite(p, c, t, first, second, v);
    SettledTexts(t, first, second, v);
  }

  lemma SettledTexts(t: string, first: Span, second: Span, v: string)
    requires Apart(first, second, |t|) && Plain(v)
    ensures first.end <= second.start
    ensures var u, settled := Rewritten(t, first, second, v), Settled(first, second, |v|);
            Ordered(settled, |u|) && Texts(u, settled) == [v, v]
  {
    var u, settled := Rewritten(t, first, second, v), Settled(first, second, |v|);
    assert u[settled[0].start..settled[0].end] == v;
    assert u[settled[1].start..settled[1].end] == v;
  }
}
