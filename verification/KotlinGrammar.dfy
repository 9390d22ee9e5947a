/**
 What the comment stripper reads, as a grammar: nested block comments, line comments, raw and quoted
 strings, and single characters. The lexer is proved to read a text in the one way the grammar allows.
 */
module KotlinGrammar {
  import opened Wrappers
  import opened KotlinComments

  /// Pieces of a text

  predicate Two(s: string, i: nat, a: char, b: char) {
    i + 1 < |s| && s[i] == a && s[i + 1] == b
  }

  ghost predicate BlockComment(s: string, i: nat, j: nat)
    decreases if i <= j then j - i else 0, 0
  {
    i + 4 <= j && Two(s, i, '/', '*') && Inside(s, i + 2, j - 2) && Two(s, j - 2, '*', '/')
  }

  // Whole block comments, and characters that neither open nor close one.
  ghost predicate Inside(s: string, i: nat, j: nat)
    decreases if i <= j then j - i else 0, 1
  {
    || i == j
    || (i < j <= |s| && !Two(s, i, '/', '*') && !Two(s, i, '*', '/') && Inside(s, i + 1, j))
    || exists m: nat :: i < m <= j && BlockComment(s, i, m) && Inside(s, m, j)
  }

  // Up to the newline or the end of the text.
  predicate LineComment(s: string, i: nat, j: nat) {
    && i + 2 <= j <= |s| && Two(s, i, '/', '/')
    && (forall k :: i <= k < j ==> s[k] != '\n') && (j < |s| ==> s[j] == '\n')
  }

  predicate Three(s: string, i: nat) {
    i + 2 < |s| && s[i] == '"' && s[i + 1] == '"' && s[i + 2] == '"'
  }

  // Between triple quotes, up to the first that closes.
  predicate RawString(s: string, i: nat, j: nat) {
    i + 6 <= j && Three(s, i) && Three(s, j - 3) && forall k :: i + 3 <= k < j - 3 ==> !Three(s, k)
  }

  // Characters other than quote and backslash, and backslashes with a character that is no newline.
  predicate Characters(s: string, i: nat, j: nat)
    decreases if i <= j then j - i else 0
  {
    || i == j
    || (i < j <= |s| && s[i] != '"' && s[i] != '\\' && Characters(s, i + 1, j))
    || (i + 1 < j <= |s| && s[i] == '\\' && s[i + 1] != '\n' && Characters(s, i + 2, j))
  }

  predicate QuotedString(s: string, i: nat, j: nat) {
    i + 2 <= j <= |s| && s[i] == '"' && Characters(s, i + 1, j - 1) && s[j - 1] == '"'
  }

  ghost predicate Commented(s: string, i: nat, j: nat) {
    LineComment(s, i, j) || BlockComment(s, i, j)
  }

  // A raw string if one begins here, else a quoted one.
  ghost predicate Quoted(s: string, i: nat, j: nat) {
    RawString(s, i, j) || (QuotedString(s, i, j) && forall e :: !RawString(s, i, e))
  }

  predicate Lone(s: string, i: nat, j: nat) {
    j == i + 1 <= |s| && s[i] != '"' && !Two(s, i, '/', '/') && !Two(s, i, '/', '*')
  }

  ghost predicate Piece(s: string, i: nat, j: nat) {
    Commented(s, i, j) || Quoted(s, i, j) || Lone(s, i, j)
  }

  // A block comment opens that never ends, or a string.
  ghost predicate OpenComment(s: string, i: nat) {
    Two(s, i, '/', '*') && forall e :: !BlockComment(s, i, e)
  }

  ghost predicate OpenString(s: string, i: nat) {
    i < |s| && s[i] == '"' && forall e :: !RawString(s, i, e) && !QuotedString(s, i, e)
  }

  /// The lexer's ends are those of the grammar

  lemma Marks(s: string, i: nat)
    ensures Opens(s, i) <==> Two(s, i, '/', '*')
    ensures Closes(s, i) <==> Two(s, i, '*', '/')
    ensures OpensLine(s, i) <==> Two(s, i, '/', '/')
    ensures TripleQuote(s, i) <==> Three(s, i)
  {
  }

  lemma {:induction false} EndIsInside(s: string, i: nat)
    requires CommentEnd(s, i).Some?
    ensures var end := CommentEnd(s, i).value;
            i + 2 <= end && Inside(s, i, end - 2) && Two(s, end - 2, '*', '/')
    decreases |s| - i
  {
    Marks(s, i);
    var end := CommentEnd(s, i).value;
    if Opens(s, i) {
      var m := CommentEnd(s, i + 2).value;
      EndIsInside(s, i + 2);
      EndIsInside(s, m);
      assert BlockComment(s, i, m) && Inside(s, m, end - 2);
    } else if !Closes(s, i) {
      EndIsInside(s, i + 1);
    }
  }

  lemma {:induction false} InsideEnds(s: string, i: nat, j: nat)
    requires i <= j && Inside(s, i, j) && Two(s, j, '*', '/')
    ensures CommentEnd(s, i) == Some(j + 2)
    decreases j - i
  {
    Marks(s, i);
    if i < j {
      if !Two(s, i, '/', '*') && !Two(s, i, '*', '/') && Inside(s, i + 1, j) {
        InsideEnds(s, i + 1, j);
      } else {
        var m: nat :| i < m <= j && BlockComment(s, i, m) && Inside(s, m, j);
        InsideEnds(s, i + 2, m - 2);
        InsideEnds(s, m, j);
      }
    }
  }

  lemma BlockCommentIs(s: string, i: nat, j: nat)
    requires Two(s, i, '/', '*')
    ensures BlockComment(s, i, j) <==> CommentEnd(s, i + 2) == Some(j)
  {
    hide Two, Inside;
    if CommentEnd(s, i + 2) == Some(j) {
      EndIsInside(s, i + 2);
    } else if BlockComment(s, i, j) {
      InsideEnds(s, i + 2, j - 2);
    }
  }

  lemma {:induction false} LineEnds(s: string, i: nat, j: nat)
    requires i <= j <= |s| && (forall k :: i <= k < j ==> s[k] != '\n') && (j < |s| ==> s[j] == '\n')
    ensures LineEnd(s, i) == j
    decreases j - i
  {
    if i < j {
      LineEnds(s, i + 1, j);
    }
  }

  lemma LineCommentIs(s: string, i: nat, j: nat)
    requires Two(s, i, '/', '/')
    ensures LineComment(s, i, j) <==> LineEnd(s, i + 2) == j
  {
    if LineComment(s, i, j) {
      LineEnds(s, i + 2, j);
    }
  }

  lemma {:induction false} RawEnds(s: string, i: nat, j: nat)
    requires i <= j && Three(s, j) && forall k :: i <= k < j ==> !Three(s, k)
    ensures RawEnd(s, i) == Some(j + 3)
    decreases j - i
  {
    if i < j {
      assert !Three(s, i);
      RawEnds(s, i + 1, j);
    }
  }

  lemma {:induction false} RawEndIsFirst(s: string, i: nat)
    requires RawEnd(s, i).Some?
    ensures var end := RawEnd(s, i).value;
            i + 3 <= end && Three(s, end - 3) && forall k :: i <= k < end - 3 ==> !Three(s, k)
    decreases |s| - i
  {
    if !TripleQuote(s, i) {
      RawEndIsFirst(s, i + 1);
    }
  }

  lemma RawStringIs(s: string, i: nat, j: nat)
    ensures RawString(s, i, j) <==> Three(s, i) && RawEnd(s, i + 3) == Some(j)
  {
    if RawEnd(s, i + 3).Some? {
      RawEndIsFirst(s, i + 3);
    }
    hide Three;
    if RawString(s, i, j) {
      RawEnds(s, i + 3, j - 3);
    }
  }

  lemma {:induction false} CharactersEnd(s: string, i: nat, j: nat)
    requires i <= j < |s| && Characters(s, i, j) && s[j] == '"'
    ensures QuotedEnd(s, i) == Some(j + 1)
    decreases j - i
  {
    if i < j {
      if s[i] == '\\' {
        CharactersEnd(s, i + 2, j);
      } else {
        CharactersEnd(s, i + 1, j);
      }
    }
  }

  lemma {:induction false} EndIsCharacters(s: string, i: nat)
    requires QuotedEnd(s, i).Some?
    ensures var end := QuotedEnd(s, i).value;
            i + 1 <= end <= |s| && Characters(s, i, end - 1) && s[end - 1] == '"'
    decreases |s| - i
  {
    if s[i] != '"' {
      EndIsCharacters(s, if s[i] == '\\' then i + 2 else i + 1);
    }
  }

  lemma QuotedStringIs(s: string, i: nat, j: nat)
    requires i < |s| && s[i] == '"'
    ensures QuotedString(s, i, j) <==> QuotedEnd(s, i + 1) == Some(j)
  {
    if QuotedEnd(s, i + 1).Some? {
      EndIsCharacters(s, i + 1);
    }
    hide Characters;
    if QuotedString(s, i, j) {
      CharactersEnd(s, i + 1, j - 1);
    }
  }

  // A string literal begins with a quote, and the lexer's end of it is its only end.
  lemma QuotedIs(s: string, i: nat, j: nat)
    requires i < |s| && s[i] == '"'
    ensures Quoted(s, i, j) <==> StringEnd(s, i) == Some(j)
    ensures OpenString(s, i) <==> StringEnd(s, i).None?
  {
    hide RawString, QuotedString, RawEnd, QuotedEnd;
    forall e: nat
      ensures RawString(s, i, e) <==> Three(s, i) && RawEnd(s, i + 3) == Some(e)
      ensures QuotedString(s, i, e) <==> QuotedEnd(s, i + 1) == Some(e)
    {
      RawStringIs(s, i, e);
      QuotedStringIs(s, i, e);
    }
    Marks(s, i);
    hide Three, TripleQuote;
    if TripleQuote(s, i) && RawEnd(s, i + 3).Some? {
      assert RawString(s, i, RawEnd(s, i + 3).value);
    } else if QuotedEnd(s, i + 1).Some? {
      assert QuotedString(s, i, QuotedEnd(s, i + 1).value);
    }
  }

  /// Tokens are pieces

  predicate Reads(s: string, i: nat, kind: Kind, j: nat)
    requires i < |s|
  {
    NextToken(s, i) == Ok(Token(kind, j))
  }

  lemma CommentToken(s: string, i: nat, j: nat)
    requires i < |s| && Two(s, i, '/', '*')
    ensures Piece(s, i, j) <==> BlockComment(s, i, j)
    ensures BlockComment(s, i, j) <==> Reads(s, i, Comment, j)
    ensures OpenComment(s, i) <==> NextToken(s, i) == Err(UnterminatedComment)
    ensures !OpenString(s, i)
  {
    Marks(s, i);
    forall e: nat ensures BlockComment(s, i, e) <==> CommentEnd(s, i + 2) == Some(e) {
      BlockCommentIs(s, i, e);
    }
    assert !Quoted(s, i, j) && !LineComment(s, i, j);
    hide Quoted, LineComment, BlockComment, CommentEnd;
    if CommentEnd(s, i + 2).Some? {
      assert BlockComment(s, i, CommentEnd(s, i + 2).value);
    }
  }

  lemma LineToken(s: string, i: nat, j: nat)
    requires i < |s| && Two(s, i, '/', '/')
    ensures Piece(s, i, j) <==> LineComment(s, i, j)
    ensures LineComment(s, i, j) <==> Reads(s, i, Comment, j)
    ensures NextToken(s, i).Ok? && !OpenComment(s, i) && !OpenString(s, i)
  {
    Marks(s, i);
    LineCommentIs(s, i, j);
    assert !Quoted(s, i, j) && !BlockComment(s, i, j);
    hide Quoted, LineComment, BlockComment, LineEnd;
  }

  lemma StringToken(s: string, i: nat, j: nat)
    requires i < |s| && s[i] == '"'
    ensures Piece(s, i, j) <==> Quoted(s, i, j)
    ensures Quoted(s, i, j) <==> Reads(s, i, Literal, j)
    ensures OpenString(s, i) <==> NextToken(s, i) == Err(UnterminatedString)
    ensures !OpenComment(s, i)
  {
    QuotedIs(s, i, j);
    hide Quoted, OpenString, StringEnd;
  }

  lemma LoneToken(s: string, i: nat, j: nat)
    requires i < |s| && s[i] != '"' && !Two(s, i, '/', '/') && !Two(s, i, '/', '*')
    ensures Piece(s, i, j) <==> j == i + 1
    ensures j == i + 1 <==> Reads(s, i, Code, j)
    ensures NextToken(s, i).Ok? && !OpenComment(s, i) && !OpenString(s, i)
  {
    Marks(s, i);
    assert !Quoted(s, i, j);
    hide Quoted, CommentEnd, StringEnd;
  }

  // The next token is the one piece that begins here, and there is an error exactly when none does.
  lemma TokenIsPiece(s: string, i: nat, j: nat)
    requires i < |s|
    ensures Piece(s, i, j) <==> NextToken(s, i).Ok? && NextToken(s, i).value.end == j
    ensures Piece(s, i, j) ==> (Commented(s, i, j) <==> NextToken(s, i).value.kind == Comment)
    ensures OpenComment(s, i) <==> NextToken(s, i) == Err(UnterminatedComment)
    ensures OpenString(s, i) <==> NextToken(s, i) == Err(UnterminatedString)
  {
    if Two(s, i, '/', '*') {
      CommentToken(s, i, j);
    } else if Two(s, i, '/', '/') {
      LineToken(s, i, j);
    } else if s[i] == '"' {
      StringToken(s, i, j);
    } else {
      LoneToken(s, i, j);
    }
  }

  /// The whole text

  // The text up to `end` falls into pieces between these positions.
  ghost predicate Cuts(s: string, cuts: seq<nat>, end: nat) {
    && cuts != [] && cuts[0] == 0 && cuts[|cuts| - 1] == end <= |s|
    && forall k :: 0 <= k < |cuts| - 1 ==> cuts[k] < cuts[k + 1] && Piece(s, cuts[k], cuts[k + 1])
  }

  // Comments become spaces and newlines, all else stays.
  ghost predicate Blanks(s: string, i: nat, j: nat, r: string) {
    && i <= j <= |s| && j <= |r|
    && forall k :: i <= k < j ==> r[k] == if Commented(s, i, j) && s[k] != '\n' then ' ' else s[k]
  }

  // From the `m`th cut on.
  ghost predicate ResultFrom(s: string, cuts: seq<nat>, m: nat, r: string) {
    |r| == |s| && forall k :: m <= k < |cuts| - 1 ==> Blanks(s, cuts[k], cuts[k + 1], r)
  }

  ghost predicate Result(s: string, cuts: seq<nat>, r: string) {
    ResultFrom(s, cuts, 0, r)
  }

  lemma BlanksIs(s: string, i: nat, token: Token, r: string)
    requires i <= token.end <= |s| == |r| && (Commented(s, i, token.end) <==> token.kind == Comment)
    ensures Blanks(s, i, token.end, r) <==> r[i..token.end] == Shown(s, i, token)
  {
    hide Commented;
    var shown := Shown(s, i, token);
    if Blanks(s, i, token.end, r) {
      forall k | 0 <= k < token.end - i ensures r[i..token.end][k] == shown[k] {
        assert r[i + k] == if Commented(s, i, token.end) && s[i + k] != '\n' then ' ' else s[i + k];
      }
    }
    if r[i..token.end] == shown {
      forall k | i <= k < token.end
        ensures r[k] == if Commented(s, i, token.end) && s[k] != '\n' then ' ' else s[k]
      {
        assert r[k] == r[i..token.end][k - i] == shown[k - i];
      }
    }
  }

  lemma InTwo(r: string, i: nat, j: nat, shown: string, rest: string)
    requires i <= j <= |r| && |shown| == j - i
    ensures r[i..] == shown + rest <==> r[i..j] == shown && r[j..] == rest
  {
    assert r[i..] == r[i..j] + r[j..];
    assert r[i..][..j - i] == r[i..j] && r[i..][j - i..] == r[j..];
    assert (shown + rest)[..j - i] == shown && (shown + rest)[j - i..] == rest;
  }

  lemma OnePiece(s: string, i: nat, j: nat, r: string)
    requires i < |s| == |r| && Piece(s, i, j)
    ensures i < j <= |s|
    ensures Strip(s, i).Ok? <==> Strip(s, j).Ok?
    ensures Strip(s, j).Err? ==> Strip(s, i) == Strip(s, j)
    ensures Strip(s, j).Ok? ==>
      (Strip(s, i) == Ok(r[i..]) <==> Strip(s, j) == Ok(r[j..]) && Blanks(s, i, j, r))
  {
    TokenIsPiece(s, i, j);
    var token := NextToken(s, i).value;
    BlanksIs(s, i, token, r);
    hide Piece, Commented, NextToken, Blanks;
    if Strip(s, j).Ok? {
      InTwo(r, i, j, Shown(s, i, token), Strip(s, j).value);
    }
  }

  // Reading goes from cut to cut.
  lemma {:induction false} FromCut(s: string, cuts: seq<nat>, end: nat, m: nat, r: string)
    requires Cuts(s, cuts, end) && m < |cuts| && |r| == |s|
    ensures cuts[m] <= end <= |s|
    ensures Strip(s, end).Err? ==> Strip(s, cuts[m]) == Strip(s, end)
    ensures Strip(s, end).Ok? ==>
      && Strip(s, cuts[m]).Ok?
      && (Strip(s, cuts[m]) == Ok(r[cuts[m]..]) <==> Strip(s, end) == Ok(r[end..]) && ResultFrom(s, cuts, m, r))
    decreases |cuts| - m
  {
    hide Strip, Piece, Blanks;
    if m < |cuts| - 1 {
      FromCut(s, cuts, end, m + 1, r);
      OnePiece(s, cuts[m], cuts[m + 1], r);
      assert ResultFrom(s, cuts, m, r) <==> Blanks(s, cuts[m], cuts[m + 1], r) && ResultFrom(s, cuts, m + 1, r);
    }
  }

  // Piece by piece up to the end of the text, or up to where no piece begins.
  lemma {:induction false} Reach(s: string, cuts: seq<nat>, i: nat) returns (all: seq<nat>, end: nat)
    requires Cuts(s, cuts, i)
    ensures Cuts(s, all, end) && (end == |s| || OpenComment(s, end) || OpenString(s, end))
    decreases |s| - i
  {
    hide Piece, OpenComment, OpenString;
    if i == |s| {
      return cuts, i;
    }
    TokenIsPiece(s, i, if NextToken(s, i).Ok? then NextToken(s, i).value.end else 0);
    hide NextToken;
    if NextToken(s, i).Err? {
      return cuts, i;
    }
    all, end := Reach(s, cuts + [NextToken(s, i).value.end], NextToken(s, i).value.end);
  }

  lemma Stops(s: string, i: nat)
    requires i <= |s|
    ensures OpenComment(s, i) ==> Strip(s, i) == Err(UnterminatedComment)
    ensures OpenString(s, i) ==> Strip(s, i) == Err(UnterminatedString)
    ensures i == |s| ==> Strip(s, i) == Ok([])
  {
    hide BlockComment, RawString, QuotedString, NextToken;
    if i < |s| {
      TokenIsPiece(s, i, i);
    }
  }

  // Whatever cuts there are, they tell what the stripper does.
  lemma CutsDecide(s: string, cuts: seq<nat>, end: nat, r: string)
    requires Cuts(s, cuts, end)
    ensures OpenComment(s, end) ==> Strip(s, 0) == Err(UnterminatedComment)
    ensures OpenString(s, end) ==> Strip(s, 0) == Err(UnterminatedString)
    ensures end == |s| ==> Strip(s, 0).Ok? && (Strip(s, 0) == Ok(r) <==> Result(s, cuts, r))
  {
    hide Strip, Piece, OpenComment, OpenString, Blanks;
    Stops(s, end);
    if |r| == |s| {
      FromCut(s, cuts, end, 0, r);
      assert r[0..] == r && (end == |s| ==> r[end..] == []);
    } else {
      FromCut(s, cuts, end, 0, s);
    }
  }

  // The stripper accepts the texts that fall into pieces up to their end, and blanks the comments among them;
  // otherwise it stops at the first comment or string that stays open.
  lemma StripReadsPieces(s: string, r: string)
    ensures Strip(s, 0) == Ok(r) <==> exists cuts :: Cuts(s, cuts, |s|) && Result(s, cuts, r)
    ensures Strip(s, 0) == Err(UnterminatedComment) <==> exists cuts, i :: Cuts(s, cuts, i) && OpenComment(s, i)
    ensures Strip(s, 0) == Err(UnterminatedString) <==> exists cuts, i :: Cuts(s, cuts, i) && OpenString(s, i)
  {
    hide *;
    NoCut(s);
    var all, end := Reach(s, [0], 0);
    forall cuts, i | Cuts(s, cuts, i)
      ensures OpenComment(s, i) ==> Strip(s, 0) == Err(UnterminatedComment)
      ensures OpenString(s, i) ==> Strip(s, 0) == Err(UnterminatedString)
      ensures i == |s| ==> Strip(s, 0).Ok? && (Strip(s, 0) == Ok(r) <==> Result(s, cuts, r))
    {
      CutsDecide(s, cuts, i, r);
    }
  }

  lemma NoCut(s: string)
    ensures Cuts(s, [0], 0)
  {
  }
}
