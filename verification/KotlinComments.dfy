/**
 Blanking comments out of a Kotlin build script: the counting loop of the release check, and the
 recursive-descent lexer it agrees with. Positions are indices into the one text being read.
 */
module KotlinComments {
  import opened Wrappers

  datatype LexError = UnterminatedString | UnterminatedComment

  predicate Opens(s: string, i: nat) {
    i + 1 < |s| && s[i] == '/' && s[i + 1] == '*'
  }

  predicate Closes(s: string, i: nat) {
    i + 1 < |s| && s[i] == '*' && s[i + 1] == '/'
  }

  predicate OpensLine(s: string, i: nat) {
    i + 1 < |s| && s[i] == '/' && s[i + 1] == '/'
  }

  predicate TripleQuote(s: string, i: nat) {
    i + 2 < |s| && s[i] == '"' && s[i + 1] == '"' && s[i + 2] == '"'
  }

  // The end of the block comment whose inside begins at `i`. Comments nest.
  function CommentEnd(s: string, i: nat): (end: Option<nat>)
    ensures end.Some? ==> i + 2 <= end.value <= |s|
    decreases |s| - i
  {
    if i >= |s| then None
    else if Opens(s, i) then
      var inner := CommentEnd(s, i + 2);
      if inner.None? then None else CommentEnd(s, inner.value)
    else if Closes(s, i) then Some(i + 2)
    else CommentEnd(s, i + 1)
  }

  // A line comment stops before the newline.
  function LineEnd(s: string, i: nat): (end: nat)
    requires i <= |s|
    ensures i <= end <= |s|
    ensures forall k :: i <= k < end ==> s[k] != '\n'
    ensures end < |s| ==> s[end] == '\n'
    decreases |s| - i
  {
    if i == |s| || s[i] == '\n' then i else LineEnd(s, i + 1)
  }

  // The end of the first triple quote at or after `i`.
  function RawEnd(s: string, i: nat): (end: Option<nat>)
    ensures end.Some? ==> i + 3 <= end.value <= |s|
    decreases |s| - i
  {
    if i >= |s| then None
    else if TripleQuote(s, i) then Some(i + 3)
    else RawEnd(s, i + 1)
  }

  // The end of the quoted string whose inside begins at `i`. A backslash takes the next character
  // with it, but not a newline.
  function QuotedEnd(s: string, i: nat): (end: Option<nat>)
    ensures end.Some? ==> i + 1 <= end.value <= |s|
    decreases |s| - i
  {
    if i >= |s| then None
    else if s[i] == '"' then Some(i + 1)
    else if s[i] != '\\' then QuotedEnd(s, i + 1)
    else if i + 1 < |s| && s[i + 1] != '\n' then QuotedEnd(s, i + 2)
    else None
  }

  // A string literal: up to the first closing triple quote if there is one, else a quoted string.
  function StringEnd(s: string, i: nat): (end: Option<nat>)
    ensures end.Some? ==> i + 2 <= end.value <= |s|
  {
    if TripleQuote(s, i) && RawEnd(s, i + 3).Some? then RawEnd(s, i + 3) else QuotedEnd(s, i + 1)
  }

  datatype Kind = Comment | Literal | Code

  datatype Token = Token(kind: Kind, end: nat)

  function NextToken(s: string, i: nat): (r: Result<Token, LexError>)
    requires i < |s|
    ensures r.Ok? ==> i < r.value.end <= |s|
  {
    if Opens(s, i) then
      var end := CommentEnd(s, i + 2);
      if end.None? then Err(UnterminatedComment) else Ok(Token(Comment, end.value))
    else if OpensLine(s, i) then Ok(Token(Comment, LineEnd(s, i + 2)))
    else if s[i] == '"' then
      var end := StringEnd(s, i);
      if end.None? then Err(UnterminatedString) else Ok(Token(Literal, end.value))
    else Ok(Token(Code, i + 1))
  }

  function Blanked(c: char): char {
    if c == '\n' then '\n' else ' '
  }

  function Blank(s: string, i: nat, j: nat): (b: string)
    requires i <= j <= |s|
    ensures |b| == j - i
    ensures forall k :: 0 <= k < j - i ==> b[k] == Blanked(s[i + k])
  {
    seq(j - i, k requires 0 <= k < j - i => Blanked(s[i + k]))
  }

  function Prepend(p: string, r: Result<string, LexError>): Result<string, LexError> {
    if r.Err? then r else Ok(p + r.value)
  }

  function Shown(s: string, i: nat, token: Token): string
    requires i <= token.end <= |s|
  {
    if token.kind == Comment then Blank(s, i, token.end) else s[i..token.end]
  }

  // The reference: from `i` on, token by token, comments blanked and everything else kept.
  function Strip(s: string, i: nat): (r: Result<string, LexError>)
    requires i <= |s|
    ensures r.Ok? ==> |r.value| == |s| - i
    decreases |s| - i
  {
    if i == |s| then Ok([]) else
    var token := NextToken(s, i);
    if token.Err? then Err(token.error) else Prepend(Shown(s, i, token.value), Strip(s, token.value.end))
  }

  // Every comment and every string from `i` on is closed.
  predicate Lexes(s: string, i: nat)
    requires i <= |s|
    decreases |s| - i
  {
    i < |s| ==> NextToken(s, i).Ok? && Lexes(s, NextToken(s, i).value.end)
  }

  lemma {:induction false} StripSucceeds(s: string, i: nat)
    requires i <= |s|
    ensures Strip(s, i).Ok? <==> Lexes(s, i)
    decreases |s| - i
  {
    if i < |s| && NextToken(s, i).Ok? {
      StripSucceeds(s, NextToken(s, i).value.end);
    }
  }

  // Whether the token stream from `i` on puts position `k` inside a comment.
  predicate InComment(s: string, i: nat, k: nat)
    requires i <= |s|
    decreases |s| - i
  {
    i < |s| && NextToken(s, i).Ok? &&
    var token := NextToken(s, i).value;
    if k < token.end then token.kind == Comment else InComment(s, token.end, k)
  }

  lemma StripParts(s: string, i: nat)
    requires i < |s| && Strip(s, i).Ok?
    ensures NextToken(s, i).Ok?
    ensures var token := NextToken(s, i).value;
            Strip(s, token.end).Ok? && Strip(s, i).value == Shown(s, i, token) + Strip(s, token.end).value
  {
    hide NextToken;
  }

  lemma ShownAt(s: string, i: nat, token: Token, k: nat)
    requires i <= k < token.end <= |s|
    ensures |Shown(s, i, token)| == token.end - i
    ensures Shown(s, i, token)[k - i] == if token.kind == Comment then Blanked(s[k]) else s[k]
  {
  }

  lemma {:induction false} StripAt(s: string, i: nat, k: nat)
    requires i <= k < |s| && Strip(s, i).Ok?
    ensures Strip(s, i).value[k - i] == if InComment(s, i, k) then Blanked(s[k]) else s[k]
    decreases |s| - i
  {
    hide *;
    StripParts(s, i);
    CommentedFirst(s, i, k);
    var token := NextToken(s, i).value;
    if k < token.end {
      ShownAt(s, i, token, k);
    } else {
      ShownAt(s, i, token, i);
      StripAt(s, token.end, k);
    }
  }

  lemma CommentedFirst(s: string, i: nat, k: nat)
    requires i <= k < |s| && NextToken(s, i).Ok?
    ensures var token := NextToken(s, i).value;
            InComment(s, i, k) == if k < token.end then token.kind == Comment else InComment(s, token.end, k)
  {
    hide NextToken;
  }

  // Length and newlines stay, everything outside comments stays, the rest of a comment is spaces.
  lemma StripKeepsShape(s: string, i: nat)
    requires i <= |s| && Strip(s, i).Ok?
    ensures var r := Strip(s, i).value;
            && |r| == |s| - i
            && (forall k :: i <= k < |s| ==> r[k - i] == if InComment(s, i, k) then Blanked(s[k]) else s[k])
            && (forall k :: i <= k < |s| ==> (r[k - i] == '\n' <==> s[k] == '\n'))
  {
    hide Strip, InComment;
    forall k | i <= k < |s|
      ensures Strip(s, i).value[k - i] == if InComment(s, i, k) then Blanked(s[k]) else s[k]
    {
      StripAt(s, i, k);
    }
  }

  /// The loop

  // What is left to produce from `i` on when `depth` block comments are open.
  ghost function Closing(s: string, i: nat, depth: nat): Result<string, LexError>
    requires i <= |s|
    decreases depth
  {
    if depth == 0 then Strip(s, i) else
    var end := CommentEnd(s, i);
    if end.None? then Err(UnterminatedComment)
    else Prepend(Blank(s, i, end.value), Closing(s, end.value, depth - 1))
  }

  lemma PrependTwice(p: string, q: string, r: Result<string, LexError>)
    ensures Prepend(p, Prepend(q, r)) == Prepend(p + q, r)
  {
    if r.Ok? {
      assert p + (q + r.value) == (p + q) + r.value;
    }
  }

  lemma BlankInTwo(s: string, i: nat, k: nat, j: nat, r: Result<string, LexError>)
    requires i <= k <= j <= |s|
    ensures Prepend(Blank(s, i, j), r) == Prepend(Blank(s, i, k), Prepend(Blank(s, k, j), r))
  {
    assert Blank(s, i, j) == Blank(s, i, k) + Blank(s, k, j);
    PrependTwice(Blank(s, i, k), Blank(s, k, j), r);
  }

  lemma OpenComment(s: string, i: nat, depth: nat)
    requires Opens(s, i)
    ensures i + 2 <= |s| && Closing(s, i, depth) == Prepend("  ", Closing(s, i + 2, depth + 1))
  {
    var inner := CommentEnd(s, i + 2);
    assert Blank(s, i, i + 2) == "  ";
    if inner.Some? {
      if depth == 0 {
        BlankInTwo(s, i, i + 2, inner.value, Strip(s, inner.value));
      } else {
        var outer := CommentEnd(s, inner.value);
        if outer.Some? {
          var rest := Closing(s, outer.value, depth - 1);
          BlankInTwo(s, i, i + 2, outer.value, rest);
          BlankInTwo(s, i + 2, inner.value, outer.value, rest);
        }
      }
    }
  }

  lemma InsideComment(s: string, i: nat, depth: nat)
    requires depth > 0 && i < |s| && !Opens(s, i)
    ensures Closes(s, i) ==> i + 2 <= |s|
    ensures if Closes(s, i) then Closing(s, i, depth) == Prepend("  ", Closing(s, i + 2, depth - 1))
            else Closing(s, i, depth) == Prepend(if s[i] == '\n' then "\n" else " ", Closing(s, i + 1, depth))
  {
    if Closes(s, i) {
      assert Blank(s, i, i + 2) == "  ";
    } else {
      var end := CommentEnd(s, i + 1);
      assert Blank(s, i, i + 1) == [Blanked(s[i])];
      if end.Some? {
        BlankInTwo(s, i, i + 1, end.value, Closing(s, end.value, depth - 1));
      }
    }
  }

  // Outside comments the loop makes the same choice as the lexer.
  lemma OutsideComment(s: string, i: nat)
    requires i < |s| && !Opens(s, i)
    ensures Closing(s, i, 0) ==
            if OpensLine(s, i) then Prepend(Blank(s, i, LineEnd(s, i)), Closing(s, LineEnd(s, i), 0))
            else if s[i] != '"' then Prepend(s[i..i + 1], Closing(s, i + 1, 0))
            else if StringEnd(s, i).None? then Err(UnterminatedString)
            else Prepend(s[i..StringEnd(s, i).value], Closing(s, StringEnd(s, i).value, 0))
  {
    if OpensLine(s, i) {
      assert LineEnd(s, i) == LineEnd(s, i + 1) == LineEnd(s, i + 2);
    }
  }

  // The output so far, and what the rest of the text still owes.
  ghost predicate OnTrack(s: string, result: string, i: nat, depth: nat)
    requires i <= |s|
  {
    Strip(s, 0) == Prepend(result, Closing(s, i, depth))
  }

  lemma Advance(s: string, result: string, i: nat, depth: nat, shown: string, j: nat, depth': nat)
    requires i <= |s| && j <= |s| && OnTrack(s, result, i, depth)
    requires Closing(s, i, depth) == Prepend(shown, Closing(s, j, depth'))
    ensures OnTrack(s, result + shown, j, depth')
  {
    PrependTwice(result, shown, Closing(s, j, depth'));
  }

  lemma Starts(s: string)
    ensures OnTrack(s, [], 0, 0)
  {
    assert Strip(s, 0).Ok? ==> [] + Strip(s, 0).value == Strip(s, 0).value;
  }

  lemma Ends(s: string, result: string, depth: nat)
    requires OnTrack(s, result, |s|, depth)
    ensures Strip(s, 0) == if depth > 0 then Err(UnterminatedComment) else Ok(result)
  {
    assert result + [] == result;
  }

  lemma LineIsBlank(s: string, i: nat, shown: string)
    requires i <= |s| && OpensLine(s, i) && |shown| == LineEnd(s, i) - i
    requires forall k :: 0 <= k < |shown| ==> shown[k] == ' '
    ensures shown == Blank(s, i, LineEnd(s, i)) && i < LineEnd(s, i)
  {
    assert s[i] != '\n';
  }

  lemma Fails(s: string, result: string, i: nat)
    requires i <= |s| && OnTrack(s, result, i, 0) && Closing(s, i, 0) == Err(UnterminatedString)
    ensures Strip(s, 0) == Err(UnterminatedString)
  {
  }

  method WithoutComments(content: string) returns (r: Result<string, LexError>)
    ensures r == Strip(content, 0)
  {
    hide *;
    var result: string := [];
    var index, depth: nat := 0, 0;
    Starts(content);
    while index < |content|
      invariant index <= |content|
      invariant OnTrack(content, result, index, depth)
    {
      if Opens(content, index) {
        OpenComment(content, index, depth);
        Advance(content, result, index, depth, "  ", index + 2, depth + 1);
        depth := depth + 1;
        result := result + "  ";
        index := index + 2;
      } else if depth > 0 && Closes(content, index) {
        InsideComment(content, index, depth);
        Advance(content, result, index, depth, "  ", index + 2, depth - 1);
        depth := depth - 1;
        result := result + "  ";
        index := index + 2;
      } else if depth > 0 {
        InsideComment(content, index, depth);
        var shown := if content[index] == '\n' then "\n" else " ";
        Advance(content, result, index, depth, shown, index + 1, depth);
        result := result + shown;
        index := index + 1;
      } else if OpensLine(content, index) {
        OutsideComment(content, index);
        var end := LineEnd(content, index);
        var shown := seq(end - index, _ => ' ');
        LineIsBlank(content, index, shown);
        Advance(content, result, index, 0, shown, end, 0);
        result := result + shown;
        index := end;
      } else if content[index] == '"' {
        OutsideComment(content, index);
        var end := StringEnd(content, index);
        if end.None? {
          Fails(content, result, index);
          return Err(UnterminatedString);
        }
        Advance(content, result, index, 0, content[index..end.value], end.value, 0);
        result := result + content[index..end.value];
        index := end.value;
      } else {
        OutsideComment(content, index);
        assert content[index..index + 1] == [content[index]];
        Advance(content, result, index, 0, [content[index]], index + 1, 0);
        result := result + [content[index]];
        index := index + 1;
      }
    }
    Ends(content, result, depth);
    if depth > 0 {
      return Err(UnterminatedComment);
    }
    return Ok(result);
  }
}
