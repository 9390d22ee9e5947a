/**
 What rewriting the two live coordinates keeps: comments and everything else between them, the token
 structure, the places where a next run finds the coordinates.
 */
module KotlinSync {
  import opened Wrappers
  import opened KotlinComments
  import opened KotlinSplice
  import opened KotlinCoordinates

  /// Finding the coordinates again after one of them was edited

  // One version exchanged for another run of value characters.
  ghost predicate Repinned(t: string, u: string, a: nat, b: nat, b': nat) {
    && Exchanged(t, u, a, b, b')
    && RunEnd(t, a) == b
    && (forall k :: a <= k < b' ==> ValueChar(u[k]))
  }

  lemma {:induction false} RunBehind(t: string, u: string, a: nat, b: nat, b': nat, i: nat)
    requires Repinned(t, u, a, b, b') && b <= i <= |t|
    ensures RunEnd(u, i - b + b') == RunEnd(t, i) - b + b'
    decreases |t| - i
  {
    if i < |t| && ValueChar(t[i]) {
      RunBehind(t, u, a, b, b', i + 1);
    }
    assert i < |t| ==> u[i - b + b'] == t[i];
  }

  lemma {:induction false} RunThrough(t: string, i: nat, j: nat)
    requires i <= j <= |t| && forall k :: i <= k < j ==> ValueChar(t[k])
    ensures RunEnd(t, i) == RunEnd(t, j)
    decreases j - i
  {
    if i < j {
      RunThrough(t, i + 1, j);
    }
  }

  // The new version ends where it was put to end.
  lemma NewRun(t: string, u: string, a: nat, b: nat, b': nat)
    requires Repinned(t, u, a, b, b')
    ensures RunEnd(u, a) == b'
  {
    RunThrough(u, a, b');
    RunBehind(t, u, a, b, b', b);
    RunThrough(t, a, b);
  }

  lemma {:induction false} RunBefore(t: string, u: string, a: nat, b: nat, b': nat, i: nat)
    requires Exchanged(t, u, a, b, b') && i <= |t| && RunEnd(t, i) < a
    ensures i <= |u| && RunEnd(u, i) == RunEnd(t, i)
    decreases |t| - i
  {
    assert u[i] == t[i];
    if ValueChar(t[i]) {
      RunBefore(t, u, a, b, b', i + 1);
    }
  }

  lemma SameHas(p: Pin, t: string, i: nat, u: string, i': nat)
    requires i + |p| <= |t| && i' + |p| <= |u| && t[i..i + |p|] == u[i'..i' + |p|]
    ensures HasAt(t, i, p) == HasAt(u, i', p)
  {
    forall k | 0 <= k < |p| ensures p[k] == p[k] && u[i' + k] == t[i + k] {
      assert t[i..i + |p|][k] == u[i'..i' + |p|][k];
    }
  }

  lemma PinBehind(p: Pin, t: string, u: string, a: nat, b: nat, b': nat, i: nat)
    requires Repinned(t, u, a, b, b') && b <= i < |t|
    ensures PinAt(p, u, i - b + b') == PinAt(p, t, i)
    ensures Onward(p, u, i - b + b') == Onward(p, t, i) - b + b'
  {
    if i + |p| <= |t| {
      SameBehindEdit(t, u, a, b, b', i, i + |p|);
      SameHas(p, t, i, u, i - b + b');
      RunBehind(t, u, a, b, b', i + |p|);
    }
    hide RunEnd, Repinned;
  }

  lemma SameBehindEdit(t: string, u: string, a: nat, b: nat, b': nat, i: nat, j: nat)
    requires Exchanged(t, u, a, b, b') && b <= i <= j <= |t|
    ensures t[i..j] == u[i - b + b'..j - b + b']
  {
    forall k | 0 <= k < j - i ensures t[i..j][k] == u[i - b + b'..j - b + b'][k] {
      assert t[i + k] == u[i + k - b + b'];
    }
  }

  function Shifted(k: nat, b: nat, b': nat): nat {
    if k < b then k else k - b + b'
  }

  // Where a version is after one that ended at `b` was given the end `b'`.
  function After(span: Span, b: nat, b': nat): Span {
    Span(Shifted(span.start, b, b'), Shifted(span.end, b, b'))
  }

  function AllAfter(spans: seq<Span>, b: nat, b': nat): seq<Span> {
    if spans == [] then [] else [After(spans[0], b, b')] + AllAfter(spans[1..], b, b')
  }

  lemma AfterEach(span: Span, rest: seq<Span>, b: nat, b': nat)
    ensures AllAfter([span] + rest, b, b') == [After(span, b, b')] + AllAfter(rest, b, b')
  {
    assert ([span] + rest)[1..] == rest;
  }

  lemma AfterBehind(start: nat, end: nat, b: nat, b': nat)
    requires b <= start && b <= end
    ensures After(Span(start, end), b, b') == Span(start - b + b', end - b + b')
  {
  }

  lemma {:induction false} PinsBehind(p: Pin, t: string, u: string, a: nat, b: nat, b': nat, i: nat)
    requires Repinned(t, u, a, b, b') && b <= i <= |t|
    ensures FindPins(p, u, i - b + b') == AllAfter(FindPins(p, t, i), b, b')
    decreases |t| - i
  {
    hide *;
    if i == |t| {
      AtEnds(p, t, u, a, b, b');
    } else {
      var next := Onward(p, t, i);
      PinBehind(p, t, u, a, b, b', i);
      PinsBehind(p, t, u, a, b, b', next);
      ScanBehind(p, t, u, i, b, b');
    }
  }

  lemma AtEnds(p: Pin, t: string, u: string, a: nat, b: nat, b': nat)
    requires Repinned(t, u, a, b, b')
    ensures FindPins(p, t, |t|) == AllAfter([], b, b') == [] && FindPins(p, u, |t| - b + b') == []
  {
  }

  // One step of both scans behind the edit.
  lemma ScanBehind(p: Pin, t: string, u: string, i: nat, b: nat, b': nat)
    requires b <= i < |t| && i - b + b' < |u|
    requires PinAt(p, u, i - b + b') == PinAt(p, t, i)
    requires Onward(p, u, i - b + b') == Onward(p, t, i) - b + b'
    requires FindPins(p, u, Onward(p, t, i) - b + b') == AllAfter(FindPins(p, t, Onward(p, t, i)), b, b')
    ensures FindPins(p, u, i - b + b') == AllAfter(FindPins(p, t, i), b, b')
  {
    hide *;
    var next := Onward(p, t, i);
    FirstPin(p, t, i);
    FirstPin(p, u, i - b + b');
    if PinAt(p, t, i) {
      AfterEach(Span(i + |p|, next), FindPins(p, t, next), b, b');
      AfterBehind(i + |p|, next, b, b');
      assert Span(i - b + b' + |p|, next - b + b') == Span(i + |p| - b + b', next - b + b');
    }
  }

  // In front of the edit the scan goes on as before, up to the edited coordinate itself.
  lemma PinBefore(p: Pin, t: string, u: string, a: nat, b: nat, b': nat, i: nat)
    requires Repinned(t, u, a, b, b') && i + |p| < a && Onward(p, t, i) + |p| <= a
    ensures PinAt(p, u, i) == PinAt(p, t, i) && Onward(p, u, i) == Onward(p, t, i)
  {
    assert t[i..i + |p|] == u[i..i + |p|];
    SameHas(p, t, i, u, i);
    assert u[i + |p|] == t[i + |p|];
    if PinAt(p, t, i) {
      RunBefore(t, u, a, b, b', i + |p|);
    }
  }

  lemma EditedPin(p: Pin, t: string, u: string, a: nat, b: nat, b': nat)
    requires Repinned(t, u, a, b, b') && IsPin(p, t, Span(a, b))
    ensures PinAt(p, u, a - |p|) && Onward(p, u, a - |p|) == b'
  {
    NewRun(t, u, a, b, b');
    assert t[a - |p|..a] == u[a - |p|..a];
    SameHas(p, t, a - |p|, u, a - |p|);
    hide HasAt, RunEnd;
  }

  lemma PinOfSpan(p: Pin, t: string, span: Span)
    requires IsPin(p, t, span)
    ensures PinAt(p, t, span.start - |p|) && Onward(p, t, span.start - |p|) == span.end
  {
  }

  // The next step of a scan that will find `span`: it finds it now, or does not run past it.
  lemma ScanReaches(p: Pin, t: string, i: nat, span: Span)
    requires span in FindPins(p, t, i)
    ensures i < |t| && i + |p| <= span.start && IsPin(p, t, span)
    ensures if i + |p| == span.start then PinAt(p, t, i) && Onward(p, t, i) == span.end
            else Onward(p, t, i) + |p| <= span.start && span in FindPins(p, t, Onward(p, t, i))
  {
    assert i < |t|;
    EachIn(p, t, i, span);
    FirstPin(p, t, i);
    if i + |p| == span.start {
      PinOfSpan(p, t, span);
    } else {
      hide *;
      EachIn(p, t, Onward(p, t, i), span);
    }
  }

  lemma EachIn(p: Pin, t: string, i: nat, span: Span)
    requires span in FindPins(p, t, i)
    ensures IsPin(p, t, span) && i + |p| <= span.start
  {
    var k :| 0 <= k < |FindPins(p, t, i)| && FindPins(p, t, i)[k] == span;
    EachIsAPin(p, t, i, k);
  }

  // A coordinate of which only the version was exchanged is found again, and so is every other one.
  lemma {:induction false} PinsAcross(p: Pin, t: string, u: string, a: nat, b: nat, b': nat, i: nat)
    requires Repinned(t, u, a, b, b') && Span(a, b) in FindPins(p, t, i)
    ensures FindPins(p, u, i) == AllAfter(FindPins(p, t, i), b, b')
    decreases |t| - i
  {
    hide *;
    ScanReaches(p, t, i, Span(a, b));
    AroundEdit(t, u, a, b, b');
    var next := Onward(p, t, i);
    FirstPin(p, t, i);
    FirstPin(p, u, i);
    AfterEach(Span(i + |p|, next), FindPins(p, t, next), b, b');
    if i + |p| == a {
      EditedPin(p, t, u, a, b, b');
      PinsBehind(p, t, u, a, b, b', b);
    } else {
      PinBefore(p, t, u, a, b, b', i);
      AfterBefore(i + |p|, next, b, b');
      PinsAcross(p, t, u, a, b, b', next);
    }
  }

  lemma AroundEdit(t: string, u: string, a: nat, b: nat, b': nat)
    requires Repinned(t, u, a, b, b')
    ensures a < b <= |t| && a < b' <= |u| && After(Span(a, b), b, b') == Span(a, b')
  {
  }

  lemma AfterBefore(start: nat, end: nat, b: nat, b': nat)
    requires start < b && end < b
    ensures After(Span(start, end), b, b') == Span(start, end)
  {
  }

  /// One splice

  // What stripping left standing was there before, outside every comment.
  lemma Seen(c: string, t: string, k: nat)
    requires Strip(c, 0) == Ok(t) && k < |c| && !IsSpace(t[k])
    ensures c[k] == t[k] && !InComment(c, 0, k)
  {
    StripAt(c, 0, k);
  }

  // The version standing at `span` has no delimiter in it.
  predicate PlainAt(t: string, span: Span) {
    span.start < span.end <= |t| && Plain(t[span.start..span.end])
  }

  // A live version behind its colon, nothing in it that could be a delimiter.
  ghost predicate Ready(c: string, a: nat, b: nat) {
    && a < b <= |c|
    && (a > 0 ==> c[a - 1] == ':')
    && (forall k :: a <= k < b ==> PlainChar(c[k]))
    && Live(c, 0, a, b)
  }

  lemma PinIsReady(p: Pin, c: string, t: string, span: Span)
    requires Strip(c, 0) == Ok(t) && IsPin(p, t, span) && PlainAt(t, span)
    ensures span.start < span.end <= |c| == |t| && Ready(c, span.start, span.end)
  {
    hide *;
    StripSucceeds(c, 0);
    ColonBefore(p, t, span);
    forall k | span.start <= k < span.end ensures PlainChar(c[k]) && !InComment(c, 0, k) {
      PlainInside(t, span, k);
      Seen(c, t, k);
    }
    Seen(c, t, span.start - 1);
    ReadyBy(c, span.start, span.end);
  }

  lemma ReadyBy(c: string, a: nat, b: nat)
    requires 0 < a < b <= |c| && c[a - 1] == ':' && Lexes(c, 0)
    requires forall k :: a <= k < b ==> PlainChar(c[k]) && !InComment(c, 0, k)
    ensures Ready(c, a, b)
  {
  }

  lemma PlainInside(t: string, span: Span, k: nat)
    requires PlainAt(t, span) && span.start <= k < span.end
    ensures PlainChar(t[k]) && !IsSpace(t[k])
  {
    assert t[k] == t[span.start..span.end][k - span.start];
  }

  lemma ColonBefore(p: Pin, t: string, span: Span)
    requires IsPin(p, t, span)
    ensures 0 < span.start < span.end <= |t| && t[span.start - 1] == ':' && !IsSpace(':')
  {
    assert t[span.start - |p| + (|p| - 1)] == p[|p| - 1];
  }

  lemma SpliceIsEdit(c: string, span: Span, v: string)
    requires Ready(c, span.start, span.end) && Plain(v)
    ensures Edited(c, Splice(c, span, v), span.start, span.end, span.start + |v|)
    ensures |Splice(c, span, v)| >= span.start + |v|
  {
    SpliceExchanges(c, span, v);
    forall k | span.start <= k < span.start + |v| ensures PlainChar(Splice(c, span, v)[k]) {
      SpliceInside(c, span, v, k);
    }
  }

  lemma SpliceExchanges(s: string, span: Span, v: string)
    requires span.start < span.end <= |s| && v != []
    ensures Exchanged(s, Splice(s, span, v), span.start, span.end, span.start + |v|)
  {
  }

  lemma SpliceInside(s: string, span: Span, v: string, k: nat)
    requires span.start < span.end <= |s| && Plain(v) && span.start <= k < span.start + |v|
    ensures k < |Splice(s, span, v)| && Splice(s, span, v)[k] == v[k - span.start] && PlainChar(v[k - span.start])
  {
  }

  lemma SpliceIsRepin(p: Pin, t: string, span: Span, v: string)
    requires IsPin(p, t, span) && Plain(v)
    ensures Repinned(t, Splice(t, span, v), span.start, span.end, span.start + |v|)
  {
    SpliceExchanges(t, span, v);
    forall k | span.start <= k < span.start + |v| ensures ValueChar(Splice(t, span, v)[k]) {
      SpliceInside(t, span, v, k);
    }
  }

  // Stripping commutes with one splice.
  lemma StripSplice(p: Pin, c: string, t: string, span: Span, v: string)
    requires Strip(c, 0) == Ok(t) && IsPin(p, t, span) && PlainAt(t, span) && Plain(v)
    ensures |t| == |c| && Strip(Splice(c, span, v), 0) == Ok(Splice(t, span, v))
  {
    hide *;
    PinIsReady(p, c, t, span);
    StripReady(c, t, span, v);
  }

  lemma StripReady(c: string, t: string, span: Span, v: string)
    requires Strip(c, 0) == Ok(t) && span.start < span.end <= |c| == |t| && Ready(c, span.start, span.end) && Plain(v)
    ensures Strip(Splice(c, span, v), 0) == Ok(Splice(t, span, v))
  {
    hide *;
    var u := Splice(c, span, v);
    SpliceIsEdit(c, span, v);
    LiveWhenReady(c, span.start, span.end);
    StripCommutesWithEdit(c, u, span.start, span.end, span.start + |v|);
    SameSplice(c, t, u, Strip(u, 0).value, span, v);
  }

  lemma LiveWhenReady(c: string, a: nat, b: nat)
    requires Ready(c, a, b)
    ensures Live(c, 0, a, b)
  {
  }

  // A text that agrees with `t` around the splice and with the spliced one inside is `t` spliced.
  lemma SameSplice(c: string, t: string, u: string, r: string, span: Span, v: string)
    requires span.start < span.end <= |c| == |t| && Plain(v) && u == Splice(c, span, v)
    requires Exchanged(t, r, span.start, span.end, span.start + |v|)
    requires span.start + |v| <= |u| && forall k :: span.start <= k < span.start + |v| ==> r[k] == u[k]
    ensures r == Splice(t, span, v)
  {
    var w := Splice(t, span, v);
    assert |r| == |w|;
    forall k | 0 <= k < |r| ensures r[k] == w[k] {
      if span.start <= k < span.start + |v| {
        assert r[k] == u[k] == v[k - span.start];
      } else if k >= span.start + |v| {
        assert r[(k - |v| - span.start + span.end) - span.end + (span.start + |v|)] == w[k];
      }
    }
  }
}
