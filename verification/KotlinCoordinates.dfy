/**
 Finding and rewriting the two live registry coordinates of the Kotlin consumer: positions are found
 in the stripped text and the original text is spliced, from right to left.
 */
module KotlinCoordinates {
  import opened Wrappers
  import opened KotlinComments
  import opened KotlinSplice

  datatype SyncError =
    | Unreadable(cause: LexError)
    | WrongCoordinateCount
    | WrongVersions
    | WrongDeclaration

  // A coordinate with the colon in front of its version.
  type Pin = p: string | Plain(p) && p[|p| - 1] == ':' witness ":"

  const PIN: Pin := "io.xberg.literllm:liter-llm-android:"
  const EXPECTED_COORDINATES := 2

  datatype Span = Span(start: nat, end: nat)

  predicate HasAt(t: string, i: nat, p: string) {
    i + |p| <= |t| && forall k :: 0 <= k < |p| ==> t[i + k] == p[k]
  }

  predicate ValueChar(c: char) {
    c != '"' && !IsSpace(c)
  }

  // The end of the longest run of value characters from `i`.
  function RunEnd(t: string, i: nat): (end: nat)
    requires i <= |t|
    ensures i <= end <= |t|
    ensures forall k :: i <= k < end ==> ValueChar(t[k])
    ensures end < |t| ==> !ValueChar(t[end])
    decreases |t| - i
  {
    if i < |t| && ValueChar(t[i]) then RunEnd(t, i + 1) else i
  }

  predicate PinAt(p: Pin, t: string, i: nat) {
    HasAt(t, i, p) && RunEnd(t, i + |p|) > i + |p|
  }

  // The version spans of all coordinates from `i` on, leftmost first and without overlap.
  function FindPins(p: Pin, t: string, i: nat): seq<Span>
    decreases |t| - i
  {
    if i >= |t| then []
    else if PinAt(p, t, i) then
      var end := RunEnd(t, i + |p|);
      [Span(i + |p|, end)] + FindPins(p, t, end)
    else FindPins(p, t, i + 1)
  }

  function Pins(p: Pin, t: string): seq<Span> {
    FindPins(p, t, 0)
  }

  predicate Ordered(spans: seq<Span>, length: nat) {
    && (forall k :: 0 <= k < |spans| ==> spans[k].start <= spans[k].end <= length)
    && (forall j, k :: 0 <= j < k < |spans| ==> spans[j].end <= spans[k].start)
  }

  // A version right behind its coordinate, as long as it can be.
  predicate IsPin(p: Pin, t: string, span: Span) {
    && |p| <= span.start < span.end <= |t|
    && HasAt(t, span.start - |p|, p)
    && span.end == RunEnd(t, span.start)
  }

  // Where the scan goes on behind position `i`.
  function Onward(p: Pin, t: string, i: nat): (next: nat)
    requires i < |t|
    ensures i < next <= |t|
  {
    if PinAt(p, t, i) then RunEnd(t, i + |p|) else i + 1
  }

  lemma FirstPin(p: Pin, t: string, i: nat)
    requires i < |t|
    ensures var rest := FindPins(p, t, Onward(p, t, i));
            FindPins(p, t, i) == if PinAt(p, t, i) then [Span(i + |p|, Onward(p, t, i))] + rest else rest
    ensures PinAt(p, t, i) ==> i + |p| < Onward(p, t, i) && IsPin(p, t, Span(i + |p|, Onward(p, t, i)))
  {
  }

  lemma {:induction false} EachIsAPin(p: Pin, t: string, i: nat, k: nat)
    requires k < |FindPins(p, t, i)|
    ensures IsPin(p, t, FindPins(p, t, i)[k]) && i + |p| <= FindPins(p, t, i)[k].start
    decreases |t| - i
  {
    assert i < |t|;
    FirstPin(p, t, i);
    hide *;
    if !PinAt(p, t, i) {
      EachIsAPin(p, t, Onward(p, t, i), k);
    } else if k > 0 {
      EachIsAPin(p, t, Onward(p, t, i), k - 1);
    }
  }

  lemma {:induction false} PinsStayApart(p: Pin, t: string, i: nat, j: nat, k: nat)
    requires j < k < |FindPins(p, t, i)|
    ensures FindPins(p, t, i)[j].end + |p| <= FindPins(p, t, i)[k].start
    decreases |t| - i
  {
    assert i < |t|;
    FirstPin(p, t, i);
    hide *;
    if !PinAt(p, t, i) {
      PinsStayApart(p, t, Onward(p, t, i), j, k);
    } else if j > 0 {
      PinsStayApart(p, t, Onward(p, t, i), j - 1, k - 1);
    } else {
      EachIsAPin(p, t, Onward(p, t, i), k - 1);
    }
  }

  lemma PinsAreOrdered(p: Pin, t: string, i: nat)
    ensures Ordered(FindPins(p, t, i), |t|)
  {
    var spans := FindPins(p, t, i);
    forall k | 0 <= k < |spans| ensures spans[k].start <= spans[k].end <= |t| {
      EachIsAPin(p, t, i, k);
    }
    forall j, k | 0 <= j < k < |spans| ensures spans[j].end <= spans[k].start {
      PinsStayApart(p, t, i, j, k);
    }
  }

  ghost predicate Covered(p: Pin, spans: seq<Span>, i: nat) {
    exists k :: 0 <= k < |spans| && spans[k].start <= i + |p| && i < spans[k].end
  }

  // A coordinate with at least one value character behind it is a match or lies in one.
  lemma {:induction false} NoPinIsMissed(p: Pin, t: string, i: nat, at: nat)
    requires i <= at && HasAt(t, at, p) && at + |p| < |t| && t[at + |p|] != '"' && !IsSpace(t[at + |p|])
    ensures Covered(p, FindPins(p, t, i), at)
    decreases |t| - i
  {
    hide IsSpace, HasAt;
    var spans, rest := FindPins(p, t, i), FindPins(p, t, Onward(p, t, i));
    FirstPin(p, t, i);
    if PinAt(p, t, i) && at < Onward(p, t, i) {
      assert spans[0].start <= at + |p| && at < spans[0].end;
    } else if !PinAt(p, t, i) && at == i {
      assert false;
    } else {
      NoPinIsMissed(p, t, Onward(p, t, i), at);
      var k :| 0 <= k < |rest| && rest[k].start <= at + |p| && at < rest[k].end;
      assert rest[k] == spans[if PinAt(p, t, i) then k + 1 else k];
    }
  }

  function Splice(s: string, span: Span, v: string): string
    requires span.start <= span.end <= |s|
  {
    s[..span.start] + v + s[span.end..]
  }

  // From right to left, so that the positions of the spans still to come stay good.
  function SpliceBack(s: string, spans: seq<Span>, v: string): string
    requires Ordered(spans, |s|)
    decreases |spans|
  {
    if spans == [] then s else
    var n := |spans| - 1;
    SpliceBack(Splice(s, spans[n], v), spans[..n], v)
  }

  function Texts(t: string, spans: seq<Span>): seq<string>
    requires forall k :: 0 <= k < |spans| ==> spans[k].start <= spans[k].end <= |t|
  {
    seq(|spans|, k requires 0 <= k < |spans| => t[spans[k].start..spans[k].end])
  }

  /// The two declarations a release needs

  datatype Declaration = Implementation | AarCoord

  function SkipSpaces(t: string, i: nat): (end: nat)
    requires i <= |t|
    ensures i <= end <= |t|
    ensures forall k :: i <= k < end ==> IsSpace(t[k])
    decreases |t| - i
  {
    if i < |t| && IsSpace(t[i]) then SkipSpaces(t, i + 1) else i
  }

  // Where the opening quote of the declared coordinate has to be.
  function DeclarationEnd(d: Declaration, t: string, i: nat): (end: Option<nat>)
    ensures end.Some? ==> i <= end.value <= |t|
  {
    match d
    case Implementation =>
      if HasAt(t, i, "implementation(") then Some(i + |"implementation("|) else None
    case AarCoord =>
      if !HasAt(t, i, "val") then None else
      var name := SkipSpaces(t, i + |"val"|);
      if name == i + |"val"| || !HasAt(t, name, "aarCoord") then None else
      var equals := SkipSpaces(t, name + |"aarCoord"|);
      if !HasAt(t, equals, "=") then None else Some(SkipSpaces(t, equals + 1))
  }

  // The version declared at `i`, quotes around the whole coordinate.
  function DeclaredAt(p: Pin, d: Declaration, t: string, i: nat): (r: Option<Span>)
    ensures r.Some? ==> i < r.value.start < r.value.end < |t|
  {
    var quote := DeclarationEnd(d, t, i);
    if quote.None? || !HasAt(t, quote.value, "\"" + p) then None else
    var start := quote.value + 1 + |p|;
    var end := RunEnd(t, start);
    if end > start && end < |t| && t[end] == '"' then Some(Span(start, end)) else None
  }

  // The declared versions from `i` on, leftmost first.
  function DeclaredSpans(p: Pin, d: Declaration, t: string, i: nat): (spans: seq<Span>)
    ensures forall k :: 0 <= k < |spans| ==> spans[k].start <= spans[k].end <= |t|
    decreases |t| - i
  {
    if i >= |t| then [] else
    var span := DeclaredAt(p, d, t, i);
    if span.None? then DeclaredSpans(p, d, t, i + 1)
    else [span.value] + DeclaredSpans(p, d, t, span.value.end + 1)
  }

  function FindDeclared(p: Pin, d: Declaration, t: string): seq<string> {
    Texts(t, DeclaredSpans(p, d, t, 0))
  }

  function Verify(p: Pin, content: string, version: string): Result<(), SyncError> {
    var stripped := Strip(content, 0);
    if stripped.Err? then Err(Unreadable(stripped.error)) else
    var t := stripped.value;
    PinsAreOrdered(p, t, 0);
    if Texts(t, Pins(p, t)) != [version, version] then Err(WrongVersions)
    else if FindDeclared(p, Implementation, t) != [version] then Err(WrongDeclaration)
    else if FindDeclared(p, AarCoord, t) != [version] then Err(WrongDeclaration)
    else Ok(())
  }

  function Synchronize(p: Pin, content: string, version: string): Result<string, SyncError> {
    var stripped := Strip(content, 0);
    if stripped.Err? then Err(Unreadable(stripped.error)) else
    var spans := Pins(p, stripped.value);
    if |spans| != EXPECTED_COORDINATES then Err(WrongCoordinateCount) else
    PinsAreOrdered(p, stripped.value, 0);
    var content' := SpliceBack(content, spans, version);
    var verified := Verify(p, content', version);
    if verified.Err? then Err(verified.error) else Ok(content')
  }

  // The reversed loop over the matches.
  method SpliceAll(content: string, matches: seq<Span>, version: string) returns (r: string)
    requires Ordered(matches, |content|)
    ensures r == SpliceBack(content, matches, version)
  {
    r := content;
    var i := |matches|;
    assert matches[..i] == matches;
    while i > 0
      invariant 0 <= i <= |matches| && Ordered(matches[..i], |r|)
      invariant SpliceBack(r, matches[..i], version) == SpliceBack(content, matches, version)
    {
      assert matches[..i][..i - 1] == matches[..i - 1];
      i := i - 1;
      r := r[..matches[i].start] + version + r[matches[i].end..];
    }
  }

  method SynchronizeCoordinates(content: string, version: string) returns (r: Result<string, SyncError>)
    ensures r == Synchronize(PIN, content, version)
  {
    hide Strip, FindPins, Verify, SpliceBack;
    var stripped := WithoutComments(content);
    if stripped.Err? {
      return Err(Unreadable(stripped.error));
    }
    var matches := Pins(PIN, stripped.value);
    if |matches| != EXPECTED_COORDINATES {
      return Err(WrongCoordinateCount);
    }
    PinsAreOrdered(PIN, stripped.value, 0);
    var content' := SpliceAll(content, matches, version);
    var verified := Verify(PIN, content', version);
    if verified.Err? {
      return Err(verified.error);
    }
    return Ok(content');
  }
}
