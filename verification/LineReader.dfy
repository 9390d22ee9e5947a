/**
 The start-up handshake of the mock server: a listener that is handed the server's output in chunks and
 settles a promise once it has read the address, and the reader of the whole text it agrees with.
 */
module LineReader {
  import opened Wrappers

  // White space as `trim` sees it: the white space and line terminators of ECMAScript.
  predicate Blank(c: char) {
    || '\t' <= c <= '\r' || c == ' ' || c == '\U{a0}' || c == '\U{1680}' || '\U{2000}' <= c <= '\U{200a}'
    || c == '\U{2028}' || c == '\U{2029}' || c == '\U{202f}' || c == '\U{205f}' || c == '\U{3000}' || c == '\U{feff}'
  }

  // Past the blanks from `i` on.
  function SkipBlanks(s: string, i: nat): (start: nat)
    requires i <= |s|
    ensures i <= start <= |s| && (start < |s| ==> !Blank(s[start]))
    ensures forall k :: i <= k < start ==> Blank(s[k])
    decreases |s| - i
  {
    if i < |s| && Blank(s[i]) then SkipBlanks(s, i + 1) else i
  }

  // Before the blanks that end at `j`, but not before `i`.
  function DropBlanks(s: string, i: nat, j: nat): (end: nat)
    requires i <= j <= |s|
    ensures i <= end <= j && (i < end ==> !Blank(s[end - 1]))
    ensures forall k :: end <= k < j ==> Blank(s[k])
  {
    if i < j && Blank(s[j - 1]) then DropBlanks(s, i, j - 1) else j
  }

  function Trim(s: string): string {
    var start := SkipBlanks(s, 0);
    s[start..DropBlanks(s, start, |s|)]
  }

  // What the pattern `.` does not match.
  predicate EndsLine(c: char) {
    c == '\n' || c == '\r' || c == '\U{2028}' || c == '\U{2029}'
  }

  // How far a pattern `.*` reaches from `i` on: up to the first line terminator.
  function DotsEnd(s: string, i: nat): (end: nat)
    requires i <= |s|
    ensures i <= end <= |s| && (end < |s| ==> EndsLine(s[end]))
    ensures forall k :: i <= k < end ==> !EndsLine(s[k])
    decreases |s| - i
  {
    if i < |s| && !EndsLine(s[i]) then DotsEnd(s, i + 1) else i
  }

  const URL_KEY := "MOCK_SERVER_URL="
  const SERVERS_KEY := "MOCK_SERVERS="
  const FAMILY := "MOCK_SERVER"

  // What one line says.
  datatype Notice = Address(url: string) | Table(json: string) | Output | Nothing

  predicate GivesUrl(trimmed: string) {
    URL_KEY <= trimmed
  }

  predicate GivesTable(trimmed: string) {
    SERVERS_KEY <= trimmed
  }

  // `(.*)` behind the key, trimmed.
  function ValueBehind(key: string, trimmed: string): string
    requires key <= trimmed
  {
    Trim(trimmed[|key|..DotsEnd(trimmed, |key|)])
  }

  function UrlIn(trimmed: string): string
    requires GivesUrl(trimmed)
  {
    ValueBehind(URL_KEY, trimmed)
  }

  function TableIn(trimmed: string): string
    requires GivesTable(trimmed)
  {
    ValueBehind(SERVERS_KEY, trimmed)
  }

  // A line of the server's own that is no announcement.
  predicate IsOutput(trimmed: string) {
    trimmed != [] && !(FAMILY <= trimmed)
  }

  function Announced(line: string): Notice {
    var trimmed := Trim(line);
    if GivesUrl(trimmed) then Address(UrlIn(trimmed))
    else if GivesTable(trimmed) then Table(TableIn(trimmed))
    else if IsOutput(trimmed) then Output
    else Nothing
  }

  /// What a line has to look like

  // The stretch of `s` from `i` to `j` with nothing but blanks around it is what trimming leaves.
  lemma TrimIs(s: string, i: nat, j: nat)
    requires i <= j <= |s| && (i < j ==> !Blank(s[i]) && !Blank(s[j - 1]))
    requires forall k :: 0 <= k < i || j <= k < |s| ==> Blank(s[k])
    ensures Trim(s) == s[i..j]
  {
    hide Blank;
    var start := SkipBlanks(s, 0);
    var end := DropBlanks(s, start, |s|);
    if i < j {
      assert start == i;
      assert end == j;
    }
  }

  // In `s` stand, from `i` on and behind blanks only, the key, blanks, the value from `j` to `k`, blanks, and
  // from `m` on a line terminator or nothing.
  ghost predicate Spells(s: string, key: string, i: nat, j: nat, k: nat, m: nat) {
    && i + |key| <= j <= k <= m <= |s| && (forall n :: 0 <= n < i ==> Blank(s[n]))
    && s[i..i + |key|] == key
    && (forall n :: i + |key| <= n < j || k <= n < m ==> Blank(s[n]))
    && (j < k ==> !Blank(s[j]) && !Blank(s[k - 1]))
    && (forall n :: i + |key| <= n < m ==> !EndsLine(s[n])) && (m < |s| ==> EndsLine(s[m]))
  }

  lemma {:induction false} DotsIs(t: string, a: nat, b: nat)
    requires a <= b <= |t| && (b < |t| ==> EndsLine(t[b])) && forall n :: a <= n < b ==> !EndsLine(t[n])
    ensures DotsEnd(t, a) == b
    decreases b - a
  {
    hide EndsLine;
    if a < b {
      DotsIs(t, a + 1, b);
    }
  }

  // Of a stretch of the line, the dots reach to the terminator or to its end.
  lemma DotsInLine(s: string, i: nat, x: nat, m: nat, e: nat)
    requires i <= x <= m <= |s| && x <= e <= |s| && (m < |s| ==> EndsLine(s[m]))
    requires forall n :: x <= n < m ==> !EndsLine(s[n])
    ensures DotsEnd(s[i..e], x - i) == (if m < e then m else e) - i
  {
    hide EndsLine;
    var t, reach := s[i..e], if m < e then m else e;
    forall n | x - i <= n < reach - i ensures !EndsLine(t[n]) {
      assert t[n] == s[i + n];
    }
    assert reach < e ==> t[reach - i] == s[reach];
    DotsIs(t, x - i, reach - i);
  }

  // Trimming the line starts it with the key and keeps the value whole.
  lemma TrimmedLine(s: string, key: string, i: nat, j: nat, k: nat, m: nat) returns (e: nat)
    requires Spells(s, key, i, j, k, m) && key != [] && !Blank(key[0]) && !Blank(key[|key| - 1])
    ensures i + |key| <= e <= |s| && (j < k ==> e >= k) && Trim(s) == s[i..e] && key <= Trim(s)
  {
    var x := i + |key|;
    assert s[i] == s[i..x][0] == key[0] && s[x - 1] == s[i..x][|key| - 1] == key[|key| - 1];
    hide Blank, EndsLine;
    assert SkipBlanks(s, 0) == i;
    e := DropBlanks(s, i, |s|);
    assert e >= x;
    assert s[i..e][..|key|] == s[i..x];
  }

  lemma ValueOfKey(s: string, key: string, i: nat, j: nat, k: nat, m: nat)
    requires Spells(s, key, i, j, k, m) && key != [] && !Blank(key[0]) && !Blank(key[|key| - 1])
    ensures key <= Trim(s) && ValueBehind(key, Trim(s)) == s[j..k]
  {
    var e := TrimmedLine(s, key, i, j, k, m);
    hide Trim, Blank, EndsLine, DotsEnd;
    var x := i + |key|;
    var reach := if m < e then m else e;
    DotsInLine(s, i, x, m, e);
    assert s[i..e][|key|..reach - i] == s[x..reach];
    ValueIs(s, x, j, k, reach);
  }

  lemma ValueIs(s: string, x: nat, j: nat, k: nat, reach: nat)
    requires x <= j <= k <= |s| && x <= reach <= |s| && (j < k ==> k <= reach && !Blank(s[j]) && !Blank(s[k - 1]))
    requires forall n :: x <= n < j || k <= n < reach ==> Blank(s[n])
    ensures Trim(s[x..reach]) == s[j..k]
  {
    hide Blank, SkipBlanks, DropBlanks;
    var v := s[x..reach];
    assert forall n :: 0 <= n < |v| ==> v[n] == s[x + n];
    if j < k {
      TrimIs(v, j - x, k - x);
    } else {
      TrimIs(v, 0, 0);
    }
  }

  // Behind blanks and the key stands the address; further blanks, and all behind a line terminator, are ignored.
  lemma AddressLine(s: string, i: nat, j: nat, k: nat, m: nat)
    requires Spells(s, "MOCK_SERVER_URL=", i, j, k, m)
    ensures Announced(s) == Address(s[j..k])
  {
    ValueOfKey(s, URL_KEY, i, j, k, m);
    hide Trim, ValueBehind;
  }

  lemma TableLine(s: string, i: nat, j: nat, k: nat, m: nat)
    requires Spells(s, "MOCK_SERVERS=", i, j, k, m)
    ensures Announced(s) == Table(s[j..k])
  {
    ValueOfKey(s, SERVERS_KEY, i, j, k, m);
    hide ValueBehind;
    var trimmed := Trim(s);
    hide Trim;
    assert SERVERS_KEY[11] == 'S' && URL_KEY[11] == '_';
    assert trimmed[..|SERVERS_KEY|] == SERVERS_KEY;
    assert trimmed[11] == 'S';
  }

  // Any other line is output if it has more than blanks in it and does not begin with the server's own prefix.
  lemma OtherLine(s: string, i: nat)
    requires i <= |s| && (i < |s| ==> !Blank(s[i])) && forall n :: 0 <= n < i ==> Blank(s[n])
    requires !("MOCK_SERVER_URL=" <= s[i..]) && !("MOCK_SERVERS=" <= s[i..])
    ensures Announced(s) == if i < |s| && !("MOCK_SERVER" <= s[i..]) then Output else Nothing
  {
    BeginsAlike(s, i, URL_KEY);
    BeginsAlike(s, i, SERVERS_KEY);
    BeginsAlike(s, i, FAMILY);
    assert Trim(s) == [] <==> i == |s|;
    hide Trim, ValueBehind;
  }

  lemma BeginsAlike(s: string, i: nat, key: string)
    requires i <= |s| && (i < |s| ==> !Blank(s[i])) && forall n :: 0 <= n < i ==> Blank(s[n])
    requires key != [] && forall n :: 0 <= n < |key| ==> !Blank(key[n])
    ensures key <= Trim(s) <==> key <= s[i..]
  {
    hide Blank;
    assert SkipBlanks(s, 0) == i;
    var e := DropBlanks(s, i, |s|);
    var t := Trim(s);
    assert t == s[i..e];
    if key <= s[i..] {
      assert s[i + |key| - 1] == s[i..][|key| - 1] == key[|key| - 1];
      assert e >= i + |key|;
      assert t[..|key|] == s[i..][..|key|];
    }
    if key <= t {
      assert s[i..][..|key|] == t[..|key|];
    }
  }

  datatype Ready<T> = Ready(url: string, servers: T)

  // What has been collected, and what the promise was resolved with.
  datatype Progress<T> = Progress(url: string, servers: T, result: Option<Ready<T>>)

  // The first result stays.
  function Finish<T>(p: Progress<T>): Progress<T> {
    if p.result.Some? then p else p.(result := Some(Ready(p.url, p.servers)))
  }

  function Collect<T>(parse: string -> Option<T>, p: Progress<T>, notice: Notice): Progress<T> {
    match notice
    case Address(url) => p.(url := url)
    case Table(json) => if parse(json).Some? then p.(servers := parse(json).value) else p
    case _ => p
  }

  // The line hands over what was collected, this line included.
  predicate Closes(notice: Notice) {
    notice.Table? || notice.Output?
  }

  function Line<T>(parse: string -> Option<T>, p: Progress<T>, line: string): Progress<T> {
    var notice := Announced(line);
    var p' := Collect(parse, p, notice);
    if Closes(notice) && p'.url != [] then Finish(p') else p'
  }

  // After the first `n` lines.
  function Lines<T>(parse: string -> Option<T>, p: Progress<T>, lines: seq<string>, n: nat): Progress<T>
    requires n <= |lines|
  {
    if n == 0 then p else Line(parse, Lines(parse, p, lines, n - 1), lines[n - 1])
  }

  /// Splitting

  // Lines that have ended, and the piece that has not.
  datatype Cut = Cut(ended: seq<string>, open: string)

  function Feed(cut: Cut, text: string): Cut
    decreases |text|
  {
    if text == [] then cut
    else if text[0] == '\n' then Feed(Cut(cut.ended + [cut.open], []), text[1..])
    else Feed(Cut(cut.ended, cut.open + [text[0]]), text[1..])
  }

  // `split('\n')`, the last piece apart.
  function Split(s: string): Cut {
    Feed(Cut([], []), s)
  }

  function Joined(cut: Cut): string
    decreases |cut.ended|
  {
    if cut.ended == [] then cut.open else cut.ended[0] + "\n" + Joined(Cut(cut.ended[1..], cut.open))
  }

  predicate OneLine(s: string) {
    forall k :: 0 <= k < |s| ==> s[k] != '\n'
  }

  lemma {:induction false} JoinedMore(ended: seq<string>, open: string, more: string)
    ensures Joined(Cut(ended, open + more)) == Joined(Cut(ended, open)) + more
    ensures Joined(Cut(ended + [open], more)) == Joined(Cut(ended, open)) + "\n" + more
  {
    if ended == [] {
      assert ([open])[1..] == [] && [] + [open] == [open];
      assert Joined(Cut([open], more)) == open + "\n" + Joined(Cut([], more));
    } else {
      JoinedMore(ended[1..], open, more);
      assert (ended + [open])[1..] == ended[1..] + [open] && (ended + [open])[0] == ended[0];
      var rest := Joined(Cut(ended[1..], open));
      assert ended[0] + "\n" + (rest + more) == ended[0] + "\n" + rest + more;
      assert ended[0] + "\n" + (rest + "\n" + more) == ended[0] + "\n" + rest + "\n" + more;
    }
  }

  lemma {:induction false} FeedJoins(cut: Cut, text: string)
    requires OneLine(cut.open) && forall k :: 0 <= k < |cut.ended| ==> OneLine(cut.ended[k])
    ensures Joined(Feed(cut, text)) == Joined(cut) + text
    ensures OneLine(Feed(cut, text).open)
    ensures forall k :: 0 <= k < |Feed(cut, text).ended| ==> OneLine(Feed(cut, text).ended[k])
    decreases |text|
  {
    if text == [] {
      assert Joined(cut) + text == Joined(cut);
    } else {
      var next := if text[0] == '\n' then Cut(cut.ended + [cut.open], []) else Cut(cut.ended, cut.open + [text[0]]);
      FeedJoins(next, text[1..]);
      JoinedMore(cut.ended, cut.open, if text[0] == '\n' then [] else [text[0]]);
      assert Joined(next) == Joined(cut) + [text[0]];
      assert Joined(cut) + [text[0]] + text[1..] == Joined(cut) + text;
    }
  }

  // The pieces are lines, and put together again they are the text.
  lemma SplitIsExact(s: string)
    ensures Joined(Split(s)) == s && OneLine(Split(s).open)
    ensures forall k :: 0 <= k < |Split(s).ended| ==> OneLine(Split(s).ended[k])
  {
    FeedJoins(Cut([], []), s);
  }

  lemma {:induction false} FeedAppend(cut: Cut, text: string, more: string)
    ensures Feed(cut, text + more) == Feed(Feed(cut, text), more)
    decreases |text|
  {
    if text == [] {
      assert text + more == more;
    } else {
      assert (text + more)[1..] == text[1..] + more && (text + more)[0] == text[0];
      FeedAppend(if text[0] == '\n' then Cut(cut.ended + [cut.open], []) else Cut(cut.ended, cut.open + [text[0]]),
                 text[1..], more);
    }
  }

  // Lines that have ended do not matter for what follows.
  lemma {:induction false} FeedFrom(ended: seq<string>, before: seq<string>, open: string, text: string)
    ensures var cut := Feed(Cut(before, open), text);
            Feed(Cut(ended + before, open), text) == Cut(ended + cut.ended, cut.open)
    decreases |text|
  {
    if text != [] {
      if text[0] == '\n' {
        assert ended + before + [open] == ended + (before + [open]);
        FeedFrom(ended, before + [open], [], text[1..]);
      } else {
        FeedFrom(ended, before, open + [text[0]], text[1..]);
      }
    }
  }

  lemma {:induction false} FeedLine(ended: seq<string>, open: string, text: string)
    requires OneLine(text)
    ensures Feed(Cut(ended, open), text) == Cut(ended, open + text)
    decreases |text|
  {
    if text == [] {
      assert open + text == open;
    } else {
      FeedLine(ended, open + [text[0]], text[1..]);
      assert open + [text[0]] + text[1..] == open + text;
    }
  }

  // Text behind a cut only adds to the piece that the cut left open.
  lemma SplitAppend(s: string, more: string)
    ensures var cut, next := Split(s), Split(Split(s).open + more);
            Split(s + more) == Cut(cut.ended + next.ended, next.open)
  {
    hide Feed;
    var cut := Split(s);
    SplitIsExact(s);
    FeedAppend(Cut([], []), s, more);
    FeedFrom(cut.ended, [], cut.open, more);
    assert cut.ended + [] == cut.ended && [] + cut.open == cut.open;
    FeedAppend(Cut([], []), cut.open, more);
    FeedLine([], [], cut.open);
  }

  /// The whole text

  lemma {:induction false} LinesPrefix<T>(parse: string -> Option<T>, p: Progress<T>, a: seq<string>, b: seq<string>,
                                          n: nat)
    requires n <= |a|
    ensures Lines(parse, p, a + b, n) == Lines(parse, p, a, n)
  {
    hide Line;
    if n > 0 {
      LinesPrefix(parse, p, a, b, n - 1);
    }
  }

  lemma {:induction false} LinesBehind<T>(parse: string -> Option<T>, p: Progress<T>, a: seq<string>, b: seq<string>,
                                          n: nat)
    requires n <= |b|
    ensures Lines(parse, p, a + b, |a| + n) == Lines(parse, Lines(parse, p, a, |a|), b, n)
  {
    hide Line;
    if n == 0 {
      LinesPrefix(parse, p, a, b, |a|);
    } else {
      LinesBehind(parse, p, a, b, n - 1);
    }
  }

  // What a reader of the whole text at once collects from its ended lines.
  function Read<T>(parse: string -> Option<T>, none: T, text: string): Progress<T> {
    var lines := Split(text).ended;
    Lines(parse, Progress([], none, None), lines, |lines|)
  }

  lemma {:induction false} ResultIsFinal<T>(parse: string -> Option<T>, p: Progress<T>, lines: seq<string>, k: nat,
                                            n: nat)
    requires k <= n <= |lines| && Lines(parse, p, lines, k).result.Some?
    ensures Lines(parse, p, lines, n).result == Lines(parse, p, lines, k).result
    decreases n - k
  {
    hide Announced;
    if k < n {
      ResultIsFinal(parse, p, lines, k, n - 1);
    }
  }

  // The address of the last of the first `n` lines that gives one.
  function LastUrl(lines: seq<string>, n: nat): string
    requires n <= |lines|
  {
    if n == 0 then [] else
    var last := Announced(lines[n - 1]);
    if last.Address? then last.url else LastUrl(lines, n - 1)
  }

  // The table of the last of the first `n` lines that gives one that can be parsed.
  function LastServers<T>(parse: string -> Option<T>, none: T, lines: seq<string>, n: nat): T
    requires n <= |lines|
  {
    if n == 0 then none else
    var last := Announced(lines[n - 1]);
    if last.Table? && parse(last.json).Some? then parse(last.json).value else LastServers(parse, none, lines, n - 1)
  }

  lemma {:induction false} CollectsTheLast<T>(parse: string -> Option<T>, none: T, lines: seq<string>, n: nat)
    requires n <= |lines|
    ensures var p := Lines(parse, Progress([], none, None), lines, n);
            p.url == LastUrl(lines, n) && p.servers == LastServers(parse, none, lines, n)
  {
    hide Announced;
    if n > 0 {
      CollectsTheLast(parse, none, lines, n - 1);
    }
  }

  // Line `k` hands over an address that is known by then.
  predicate Settles(lines: seq<string>, k: nat)
    requires k < |lines|
  {
    LastUrl(lines, k + 1) != [] && (Announced(lines[k]).Table? || Announced(lines[k]).Output?)
  }

  lemma {:induction false} PendingUntilThen<T>(parse: string -> Option<T>, none: T, lines: seq<string>, n: nat)
    requires n <= |lines| && forall k :: 0 <= k < n ==> !Settles(lines, k)
    ensures Lines(parse, Progress([], none, None), lines, n).result.None?
  {
    hide Announced, LastUrl;
    if n > 0 {
      PendingUntilThen(parse, none, lines, n - 1);
      CollectsTheLast(parse, none, lines, n);
      assert !Settles(lines, n - 1);
    }
  }

  // The promise gets what was collected up to the first settling line, that line included.
  lemma SettledByTheFirst<T>(parse: string -> Option<T>, none: T, lines: seq<string>, k: nat)
    requires k < |lines| && Settles(lines, k) && forall j :: 0 <= j < k ==> !Settles(lines, j)
    ensures Lines(parse, Progress([], none, None), lines, |lines|).result
            == Some(Ready(LastUrl(lines, k + 1), LastServers(parse, none, lines, k + 1)))
  {
    hide Announced, LastUrl, LastServers;
    PendingUntilThen(parse, none, lines, k);
    CollectsTheLast(parse, none, lines, k + 1);
    ResultIsFinal(parse, Progress([], none, None), lines, k + 1, |lines|);
  }

  // Output behind the settling line changes nothing.
  lemma LaterOutputIsIgnored<T>(parse: string -> Option<T>, none: T, text: string, more: string)
    requires Read(parse, none, text).result.Some?
    ensures Read(parse, none, text + more).result == Read(parse, none, text).result
  {
    hide Split, Lines;
    SplitAppend(text, more);
    var start := Progress([], none, None);
    var a, b := Split(text).ended, Split(Split(text).open + more).ended;
    LinesPrefix(parse, start, a, b, |a|);
    ResultIsFinal(parse, start, a + b, |a|, |a + b|);
  }

  /// The listener

  datatype Call<T> = Resolve(ready: Ready<T>) | Reject

  datatype Event = Data(chunk: string) | Timeout

  lemma KeysDiffer(trimmed: string)
    requires GivesUrl(trimmed)
    ensures !GivesTable(trimmed) && !IsOutput(trimmed)
  {
    assert FAMILY == URL_KEY[..|FAMILY|] == trimmed[..|FAMILY|];
    assert trimmed[|FAMILY| + 1] == URL_KEY[|FAMILY| + 1] != SERVERS_KEY[|FAMILY| + 1];
  }

  lemma ReadMore<T>(parse: string -> Option<T>, none: T, text: string, chunk: string)
    ensures var open := Split(text).open;
            var lines := Split(open + chunk).ended;
            && Read(parse, none, text + chunk) == Lines(parse, Read(parse, none, text), lines, |lines|)
            && Split(text + chunk).open == Split(open + chunk).open
  {
    hide Split, Lines;
    SplitAppend(text, chunk);
    var a, b := Split(text).ended, Split(Split(text).open + chunk).ended;
    LinesBehind(parse, Progress([], none, None), a, b, |b|);
  }

  function Resolved<T>(result: Option<Ready<T>>): seq<Call<T>> {
    if result.Some? then [Resolve(result.value)] else []
  }

  // The text that arrives from event `i` on before the timer runs out.
  function TextInTime(events: seq<Event>, i: nat): string
    decreases |events| - i
  {
    if i >= |events| || events[i].Timeout? then [] else events[i].chunk + TextInTime(events, i + 1)
  }

  predicate TimesOut(events: seq<Event>, i: nat) {
    exists k :: i <= k < |events| && events[k].Timeout?
  }

  // What the promise is told: the result of the text that came in time, whatever the chunks were.
  function Told<T>(parse: string -> Option<T>, none: T, events: seq<Event>): seq<Call<T>> {
    var result := Read(parse, none, TextInTime(events, 0)).result;
    if result.Some? then [Resolve(result.value)] else if TimesOut(events, 0) then [Reject] else []
  }

  function Concat(chunks: seq<string>): string {
    if chunks == [] then [] else chunks[0] + Concat(chunks[1..])
  }

  function Arrivals(chunks: seq<string>, rest: seq<Event>): seq<Event> {
    if chunks == [] then rest else [Data(chunks[0])] + Arrivals(chunks[1..], rest)
  }

  lemma {:induction false} TextBehind(first: Event, events: seq<Event>, i: nat)
    ensures TextInTime([first] + events, i + 1) == TextInTime(events, i)
    decreases |events| - i
  {
    if i < |events| {
      assert ([first] + events)[i + 1] == events[i];
      TextBehind(first, events, i + 1);
    }
  }

  lemma FirstArrival(chunk: string, events: seq<Event>)
    ensures TextInTime([Data(chunk)] + events, 0) == chunk + TextInTime(events, 0)
  {
    TextBehind(Data(chunk), events, 0);
  }

  lemma {:induction false} ArrivingText(chunks: seq<string>, rest: seq<Event>)
    ensures TextInTime(Arrivals(chunks, rest), 0) == Concat(chunks) + TextInTime(rest, 0)
    ensures TimesOut(Arrivals(chunks, rest), 0) <==> TimesOut(rest, 0)
  {
    hide TimesOut, TextInTime;
    if chunks == [] {
      assert [] + TextInTime(rest, 0) == TextInTime(rest, 0);
    } else {
      var events := Arrivals(chunks[1..], rest);
      ArrivingText(chunks[1..], rest);
      FirstArrival(chunks[0], events);
      DataIsNoTimeout(Data(chunks[0]), events);
      assert chunks[0] + (Concat(chunks[1..]) + TextInTime(rest, 0)) == Concat(chunks) + TextInTime(rest, 0);
    }
  }

  lemma DataIsNoTimeout(first: Event, events: seq<Event>)
    requires first.Data?
    ensures TimesOut([first] + events, 0) <==> TimesOut(events, 0)
  {
    if TimesOut(events, 0) {
      var k :| 0 <= k < |events| && events[k].Timeout?;
      assert ([first] + events)[k + 1].Timeout?;
    }
    if TimesOut([first] + events, 0) {
      var k :| 0 <= k < |[first] + events| && ([first] + events)[k].Timeout?;
      assert events[k - 1].Timeout?;
    }
  }

  // However the same text is cut, the promise is told the same.
  lemma ChunkingDoesNotMatter<T>(parse: string -> Option<T>, none: T,
                                 a: seq<string>, b: seq<string>, rest: seq<Event>)
    requires Concat(a) == Concat(b)
    ensures Told(parse, none, Arrivals(a, rest)) == Told(parse, none, Arrivals(b, rest))
  {
    ArrivingText(a, rest);
    ArrivingText(b, rest);
  }

  class Listener<T> {
    const parse: string -> Option<T>
    const none: T
    var collectedUrl: string
    var collectedServers: T
    var buffer: string
    var settled: bool
    // Whether the handler is attached to the output, and whether the timer is running.
    var listening: bool
    var armed: bool
    // The calls of the promise's two functions.
    var calls: seq<Call<T>>

    constructor (parse: string -> Option<T>, none: T)
      ensures Waiting([]) && this.parse == parse && this.none == none
    {
      this.parse, this.none := parse, none;
      collectedUrl, collectedServers, buffer := [], none, [];
      settled, listening, armed, calls := false, true, true, [];
    }

    // The promise is told at most one thing, and then nothing is delivered any more.
    predicate Valid()
      reads this
    {
      |calls| <= 1 && listening == armed == !settled && (settled <==> calls != [])
    }

    ghost predicate Collected(p: Progress<T>)
      reads this
    {
      && Valid() && collectedUrl == p.url && collectedServers == p.servers && calls == Resolved(p.result)
    }

    // Still listening after `text` has been delivered.
    ghost predicate Waiting(text: string)
      reads this
    {
      Collected(Read(parse, none, text)) && buffer == Split(text).open && !settled
    }

    method Finish(ready: Ready<T>)
      requires Valid()
      modifies this
      ensures Valid() && collectedUrl == old(collectedUrl) && collectedServers == old(collectedServers)
      ensures buffer == old(buffer) && calls == if old(calls) == [] then [Resolve(ready)] else old(calls)
    {
      if settled { return; }
      settled := true;
      armed := false;
      listening := false;
      calls := calls + [Resolve(ready)];
    }

    // The body of the loop over the lines.
    method Handle(line: string, ghost p: Progress<T>)
      requires Collected(p)
      modifies this
      ensures Collected(Line(parse, p, line)) && buffer == old(buffer)
    {
      hide GivesUrl, GivesTable, IsOutput, UrlIn, TableIn, Trim;
      var trimmed := Trim(line);
      if GivesUrl(trimmed) {
        KeysDiffer(trimmed);
        collectedUrl := UrlIn(trimmed);
      }
      if GivesTable(trimmed) {
        var parsed := parse(TableIn(trimmed));
        if parsed.Some? {
          collectedServers := parsed.value;
        }
        if collectedUrl != [] {
          Finish(Ready(collectedUrl, collectedServers));
        }
      } else if collectedUrl != [] && IsOutput(trimmed) {
        Finish(Ready(collectedUrl, collectedServers));
      }
    }

    // Lines behind the one that settles are still looked at, to no effect on the promise.
    method HandleAll(lines: seq<string>, ghost p: Progress<T>)
      requires Collected(p)
      modifies this
      ensures Collected(Lines(parse, p, lines, |lines|)) && buffer == old(buffer)
    {
      hide Line;
      var i := 0;
      while i < |lines|
        invariant i <= |lines| && buffer == old(buffer)
        invariant Collected(Lines(parse, p, lines, i))
      {
        Handle(lines[i], Lines(parse, p, lines, i));
        i := i + 1;
      }
    }

    method OnData(data: string, ghost text: string)
      requires listening && Waiting(text)
      modifies this
      ensures Collected(Read(parse, none, text + data)) && buffer == Split(text + data).open
    {
      hide Read, Split, Lines;
      ReadMore(parse, none, text, data);
      buffer := buffer + data;
      var cut := Split(buffer);
      buffer := cut.open;
      HandleAll(cut.ended, Read(parse, none, text));
    }

    method OnTimeout()
      requires Valid() && armed
      modifies this
      ensures Valid() && calls == [Reject]
    {
      armed := false;
      settled := true;
      listening := false;
      calls := calls + [Reject];
    }

    // The runtime delivers an event only to a handler that is attached and a timer that is running.
    method Deliver(events: seq<Event>)
      requires Waiting([])
      modifies this
      ensures Valid() && calls == Told(parse, none, events)
    {
      hide Read, Split;
      ghost var text: string := [];
      var i := 0;
      while i < |events|
        invariant i <= |events| && Valid()
        invariant settled ==> calls == Told(parse, none, events)
        invariant !settled ==> Waiting(text) && text + TextInTime(events, i) == TextInTime(events, 0)
        invariant !settled ==> (TimesOut(events, 0) <==> TimesOut(events, i))
      {
        match events[i] {
        case Data(chunk) =>
          if listening {
            ghost var later := TextInTime(events, i + 1);
            assert text + (chunk + later) == (text + chunk) + later;
            OnData(chunk, text);
            text := text + chunk;
            if settled {
              LaterOutputIsIgnored(parse, none, text, later);
            }
          }
        case Timeout =>
          if armed {
            assert text + [] == text && events[i].Timeout?;
            OnTimeout();
          }
        }
        i := i + 1;
      }
      assert !settled ==> text == TextInTime(events, 0);
    }
  }
}
