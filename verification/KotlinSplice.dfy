/**
 Editing a live spot of a build script: how the lexer of `KotlinComments` reads a text in which a
 stretch of plain characters has been exchanged for another.
 */
module KotlinSplice {
  import opened Wrappers
  import opened KotlinComments

  // What Python calls white space in a pattern over text.
  predicate IsSpace(c: char) {
    || '\t' <= c <= '\r' || '\U{1c}' <= c <= ' ' || c == '\U{85}' || c == '\U{a0}' || c == '\U{1680}'
    || '\U{2000}' <= c <= '\U{200a}' || c == '\U{2028}' || c == '\U{2029}' || c == '\U{202f}' || c == '\U{205f}'
    || c == '\U{3000}'
  }

  predicate PlainChar(c: char) {
    c != '"' && c != '\\' && c != '/' && !IsSpace(c)
  }

  // Text that no lexer rule can mistake for a delimiter.
  predicate Plain(v: string) {
    v != [] && forall k :: 0 <= k < |v| ==> PlainChar(v[k])
  }

  // `t` is `s` with the stretch `a..b` exchanged for `a..b'`.
  ghost predicate Exchanged(s: string, t: string, a: nat, b: nat, b': nat) {
    && a < b <= |s| && a < b' <= |t| && |s| - b == |t| - b'
    && (forall k :: 0 <= k < a ==> t[k] == s[k])
    && (forall k :: b <= k < |s| ==> t[k - b + b'] == s[k])
  }

  // The stretch stands right behind a colon and is plain, before and after.
  ghost predicate Edited(s: string, t: string, a: nat, b: nat, b': nat) {
    && Exchanged(s, t, a, b, b')
    && (a > 0 ==> s[a - 1] == ':')
    && (forall k :: a <= k < b ==> PlainChar(s[k]))
    && (forall k :: a <= k < b' ==> PlainChar(t[k]))
  }

  // A position behind the edit, where it is now.
  function Moved(n: Option<nat>, b: nat, b': nat): Option<nat> {
    if n.None? || n.value < b then None else Some(n.value - b + b')
  }

  // A delimiter that ends at `n` in the old text and at `n'` in the new one: before the edit nothing
  // changes, and otherwise it ends behind the edit and has moved with the text.
  predicate Agrees(n: Option<nat>, n': Option<nat>, a: nat, b: nat, b': nat) {
    if n.Some? && n.value <= a then n' == n else (n.Some? ==> n.value > b) && n' == Moved(n, b, b')
  }

  /// Behind the edit

  lemma SameBehind(s: string, t: string, a: nat, b: nat, b': nat, i: nat)
    requires Edited(s, t, a, b, b') && i >= b
    ensures var i' := i - b + b';
            && (i < |s| <==> i' < |t|) && (i < |s| ==> s[i] == t[i'])
            && (i + 1 < |s| ==> s[i + 1] == t[i' + 1]) && (i + 2 < |s| ==> s[i + 2] == t[i' + 2])
            && (i + 1 < |s| <==> i' + 1 < |t|) && (i + 2 < |s| <==> i' + 2 < |t|)
  {
    assert i + 1 < |s| ==> s[i + 1] == t[i + 1 - b + b'];
    assert i + 2 < |s| ==> s[i + 2] == t[i + 2 - b + b'];
  }

  lemma {:induction false} CommentBehind(s: string, t: string, a: nat, b: nat, b': nat, i: nat)
    requires Edited(s, t, a, b, b') && i >= b
    ensures CommentEnd(t, i - b + b') == Moved(CommentEnd(s, i), b, b')
    decreases |s| - i
  {
    SameBehind(s, t, a, b, b', i);
    if i < |s| {
      if Opens(s, i) {
        CommentBehind(s, t, a, b, b', i + 2);
        var inner := CommentEnd(s, i + 2);
        if inner.Some? {
          CommentBehind(s, t, a, b, b', inner.value);
        }
      } else if !Closes(s, i) {
        CommentBehind(s, t, a, b, b', i + 1);
      }
    }
  }

  lemma {:induction false} LineBehind(s: string, t: string, a: nat, b: nat, b': nat, i: nat)
    requires Edited(s, t, a, b, b') && b <= i <= |s|
    ensures LineEnd(t, i - b + b') == LineEnd(s, i) - b + b'
    decreases |s| - i
  {
    SameBehind(s, t, a, b, b', i);
    if i < |s| && s[i] != '\n' {
      LineBehind(s, t, a, b, b', i + 1);
    }
  }

  lemma {:induction false} RawBehind(s: string, t: string, a: nat, b: nat, b': nat, i: nat)
    requires Edited(s, t, a, b, b') && i >= b
    ensures RawEnd(t, i - b + b') == Moved(RawEnd(s, i), b, b')
    decreases |s| - i
  {
    SameBehind(s, t, a, b, b', i);
    if i < |s| && !TripleQuote(s, i) {
      RawBehind(s, t, a, b, b', i + 1);
    }
  }

  lemma {:induction false} QuotedBehind(s: string, t: string, a: nat, b: nat, b': nat, i: nat)
    requires Edited(s, t, a, b, b') && i >= b
    ensures QuotedEnd(t, i - b + b') == Moved(QuotedEnd(s, i), b, b')
    decreases |s| - i
  {
    SameBehind(s, t, a, b, b', i);
    if i < |s| && s[i] != '"' {
      QuotedBehind(s, t, a, b, b', if s[i] != '\\' then i + 1 else i + 2);
    }
  }

  lemma TokenBehind(s: string, t: string, a: nat, b: nat, b': nat, i: nat)
    requires Edited(s, t, a, b, b') && b <= i < |s|
    ensures var r, r' := NextToken(s, i), NextToken(t, i - b + b');
            if r.Err? then r' == r else r' == Ok(Token(r.value.kind, r.value.end - b + b'))
  {
    SameBehind(s, t, a, b, b', i);
    if Opens(s, i) {
      CommentBehind(s, t, a, b, b', i + 2);
    } else if OpensLine(s, i) {
      LineBehind(s, t, a, b, b', i + 2);
    } else if s[i] == '"' {
      StringBehind(s, t, a, b, b', i);
    }
  }

  lemma StringBehind(s: string, t: string, a: nat, b: nat, b': nat, i: nat)
    requires Edited(s, t, a, b, b') && b <= i < |s|
    ensures StringEnd(t, i - b + b') == Moved(StringEnd(s, i), b, b')
  {
    SameBehind(s, t, a, b, b', i);
    RawBehind(s, t, a, b, b', i + 3);
    QuotedBehind(s, t, a, b, b', i + 1);
  }

  // What the first token says about position `k`, and what is left to the rest.
  lemma TokenStep(s: string, i: nat, k: nat)
    requires i < |s| && NextToken(s, i).Ok? && i <= k
    ensures var token := NextToken(s, i).value;
            && (InComment(s, i, k) <==> if k < token.end then token.kind == Comment else InComment(s, token.end, k))
            && (Lexes(s, i) <==> Lexes(s, token.end))
  {
  }

  lemma {:induction false} MaskBehind(s: string, t: string, a: nat, b: nat, b': nat, i: nat, k: nat)
    requires Edited(s, t, a, b, b') && b <= i <= |s| && i <= k
    ensures InComment(t, i - b + b', k - b + b') == InComment(s, i, k)
    ensures Lexes(t, i - b + b') <==> Lexes(s, i)
    decreases |s| - i
  {
    if i < |s| {
      TokenBehind(s, t, a, b, b', i);
      var r := NextToken(s, i);
      if r.Ok? {
        TokenStep(s, i, k);
        TokenStep(t, i - b + b', k - b + b');
        hide NextToken, InComment, Lexes;
        MaskBehind(s, t, a, b, b', r.value.end, if k < r.value.end then r.value.end else k);
      }
    }
  }

  /// Across the edit

  lemma {:induction false} CommentBefore(s: string, t: string, a: nat, b: nat, b': nat, i: nat)
    requires Edited(s, t, a, b, b') && CommentEnd(s, i).Some? && CommentEnd(s, i).value <= a
    ensures CommentEnd(t, i) == CommentEnd(s, i)
    decreases |s| - i
  {
    assert t[i] == s[i] && t[i + 1] == s[i + 1];
    if Opens(s, i) {
      CommentBefore(s, t, a, b, b', i + 2);
      CommentBefore(s, t, a, b, b', CommentEnd(s, i + 2).value);
    } else if !Closes(s, i) {
      CommentBefore(s, t, a, b, b', i + 1);
    }
  }

  lemma {:induction false} LineBefore(s: string, t: string, a: nat, b: nat, b': nat, i: nat)
    requires Edited(s, t, a, b, b') && i <= |s| && LineEnd(s, i) < a
    ensures LineEnd(t, i) == LineEnd(s, i)
    decreases |s| - i
  {
    assert t[i] == s[i];
    if s[i] != '\n' {
      LineBefore(s, t, a, b, b', i + 1);
    }
  }

  // Plain characters are passed one at a time.
  lemma {:induction false} QuotedThrough(s: string, i: nat, j: nat)
    requires i <= j <= |s| && forall k :: i <= k < j ==> PlainChar(s[k])
    ensures QuotedEnd(s, i) == QuotedEnd(s, j)
    decreases j - i
  {
    if i < j {
      QuotedThrough(s, i + 1, j);
    }
  }

  lemma {:induction false} RawThrough(s: string, i: nat, j: nat)
    requires i <= j <= |s| && forall k :: i <= k < j ==> PlainChar(s[k])
    ensures RawEnd(s, i) == RawEnd(s, j)
    decreases j - i
  {
    if i < j {
      RawThrough(s, i + 1, j);
    }
  }

  lemma {:induction false} QuotedAcross(s: string, t: string, a: nat, b: nat, b': nat, i: nat)
    requires Edited(s, t, a, b, b') && i <= a
    ensures Agrees(QuotedEnd(s, i), QuotedEnd(t, i), a, b, b')
    decreases a - i
  {
    if i == a {
      QuotedThrough(s, a, b);
      QuotedThrough(t, a, b');
      QuotedBehind(s, t, a, b, b', b);
    } else {
      assert t[i] == s[i];
      if s[i] == '\\' {
        assert t[i + 1] == s[i + 1];
        QuotedAcross(s, t, a, b, b', i + 2);
      } else if s[i] != '"' {
        QuotedAcross(s, t, a, b, b', i + 1);
      }
    }
  }

  lemma SameTriple(s: string, t: string, a: nat, b: nat, b': nat, i: nat)
    requires Edited(s, t, a, b, b') && i < a
    ensures TripleQuote(s, i) <==> TripleQuote(t, i)
    ensures TripleQuote(s, i) ==> i + 3 <= a
  {
    assert t[i] == s[i];
    assert i + 1 < a ==> t[i + 1] == s[i + 1];
    assert i + 2 < a ==> t[i + 2] == s[i + 2];
    assert PlainChar(s[a]) && PlainChar(t[a]);
  }

  lemma {:induction false} RawAcross(s: string, t: string, a: nat, b: nat, b': nat, i: nat)
    requires Edited(s, t, a, b, b') && i <= a
    ensures Agrees(RawEnd(s, i), RawEnd(t, i), a, b, b')
    decreases a - i
  {
    if i == a {
      RawThrough(s, a, b);
      RawThrough(t, a, b');
      RawBehind(s, t, a, b, b', b);
    } else {
      SameTriple(s, t, a, b, b', i);
      RawAcross(s, t, a, b, b', i + 1);
    }
  }

  lemma StringAcross(s: string, t: string, a: nat, b: nat, b': nat, i: nat)
    requires Edited(s, t, a, b, b') && i < a
    ensures Agrees(StringEnd(s, i), StringEnd(t, i), a, b, b')
  {
    SameTriple(s, t, a, b, b', i);
    QuotedAcross(s, t, a, b, b', i + 1);
    if TripleQuote(s, i) {
      RawAcross(s, t, a, b, b', i + 3);
    }
  }

  // The stretch `a..b` is not inside a comment, so it survives stripping.
  ghost predicate Live(s: string, i: nat, a: nat, b: nat)
    requires i <= a <= b <= |s|
  {
    Lexes(s, i) && forall k :: a <= k < b ==> !InComment(s, i, k)
  }

  // A token in front of a live stretch is the same token as before, or a literal around the stretch.
  lemma TokenAcross(s: string, t: string, a: nat, b: nat, b': nat, i: nat)
    requires Edited(s, t, a, b, b') && i < a && Live(s, i, a, b)
    ensures NextToken(s, i).Ok?
    ensures var token := NextToken(s, i).value;
            if token.end <= a then NextToken(t, i) == Ok(token)
            else token.end > b && token.kind == Literal && NextToken(t, i) == Ok(Token(Literal, token.end - b + b'))
  {
    var token := NextToken(s, i).value;
    assert t[i] == s[i] && (i + 1 < a ==> t[i + 1] == s[i + 1]);
    assert PlainChar(s[a]) && PlainChar(t[a]);
    if token.kind == Comment {
      CommentEndsBefore(s, t, a, b, b', i);
      if Opens(s, i) {
        CommentBefore(s, t, a, b, b', i + 2);
      } else {
        LineBefore(s, t, a, b, b', i + 2);
      }
    } else {
      StringAcross(s, t, a, b, b', i);
    }
  }

  lemma CommentEndsBefore(s: string, t: string, a: nat, b: nat, b': nat, i: nat)
    requires Edited(s, t, a, b, b') && i < a && Live(s, i, a, b) && NextToken(s, i).value.kind == Comment
    ensures NextToken(s, i).value.end <= a
    ensures OpensLine(s, i) && !Opens(s, i) ==> NextToken(s, i).value.end < a
  {
    assert !InComment(s, i, a);
    if OpensLine(s, i) && !Opens(s, i) {
      assert LineEnd(s, i + 2) == a ==> s[a] == '\n';
      assert PlainChar(s[a]);
    }
  }

  lemma {:induction false} MaskThrough(s: string, i: nat, j: nat, k: nat)
    requires i <= j <= |s| && i <= k && forall n :: i <= n < j ==> PlainChar(s[n])
    ensures InComment(s, i, k) <==> k >= j && InComment(s, j, k)
    ensures Lexes(s, i) <==> Lexes(s, j)
    decreases j - i
  {
    if i < j {
      assert NextToken(s, i) == Ok(Token(Code, i + 1));
      MaskThrough(s, i + 1, j, if k == i then i + 1 else k);
    }
  }

  // A position of the new text is in a comment exactly when the old position it comes from is.
  lemma {:induction false} MaskAcross(s: string, t: string, a: nat, b: nat, b': nat, i: nat, k: nat)
    requires Edited(s, t, a, b, b') && i <= a && Live(s, i, a, b) && i <= k
    ensures Lexes(t, i)
    ensures InComment(t, i, k) <==> if k < a then InComment(s, i, k) else k >= b' && InComment(s, i, k - b' + b)
    decreases a - i
  {
    hide NextToken, InComment, Lexes;
    if i == a {
      MaskAtEdit(s, t, a, b, b', k);
    } else {
      TokenAcross(s, t, a, b, b', i);
      var end := NextToken(s, i).value.end;
      if end <= a {
        LiveBehind(s, i, a, b);
        MaskAcross(s, t, a, b, b', end, if k < end then end else k);
        TokenStep(s, i, k);
        TokenStep(s, i, if k < b' then b else k - b' + b);
        TokenStep(t, i, k);
      } else {
        MaskAroundEdit(s, t, a, b, b', i, k);
      }
    }
  }

  lemma MaskAtEdit(s: string, t: string, a: nat, b: nat, b': nat, k: nat)
    requires Edited(s, t, a, b, b') && Live(s, a, a, b) && a <= k
    ensures Lexes(t, a)
    ensures InComment(t, a, k) <==> k >= b' && InComment(s, a, k - b' + b)
  {
    var before := if k < b' then b else k - b' + b;
    MaskThrough(s, a, b, before);
    MaskThrough(t, a, b', k);
    hide InComment, Lexes;
    MaskBehind(s, t, a, b, b', b, before);
  }

  lemma MaskAroundEdit(s: string, t: string, a: nat, b: nat, b': nat, i: nat, k: nat)
    requires Edited(s, t, a, b, b') && i < a && Live(s, i, a, b) && i <= k
    requires NextToken(s, i).value.end > b && NextToken(s, i).value.kind == Literal
    requires NextToken(t, i) == Ok(Token(Literal, NextToken(s, i).value.end - b + b'))
    ensures Lexes(t, i)
    ensures InComment(t, i, k) <==> if k < a then InComment(s, i, k) else k >= b' && InComment(s, i, k - b' + b)
  {
    var end := NextToken(s, i).value.end;
    TokenStep(s, i, k);
    TokenStep(s, i, if k < b' then b else k - b' + b);
    TokenStep(t, i, k);
    hide NextToken, InComment, Lexes;
    MaskBehind(s, t, a, b, b', end, if k < end - b + b' then end else k - b' + b);
  }

  lemma LiveBehind(s: string, i: nat, a: nat, b: nat)
    requires i < a <= b <= |s| && Live(s, i, a, b) && NextToken(s, i).value.end <= a
    ensures Live(s, NextToken(s, i).value.end, a, b)
  {
    forall k | a <= k < b ensures !InComment(s, NextToken(s, i).value.end, k) {
      assert !InComment(s, i, k);
    }
  }

  // What stripping keeps of one character.
  function Kept(c: char, commented: bool): char {
    if commented then Blanked(c) else c
  }

  lemma KeptAt(s: string, k: nat)
    requires k < |s| && Strip(s, 0).Ok?
    ensures Strip(s, 0).value[k] == Kept(s[k], InComment(s, 0, k))
  {
    StripAt(s, 0, k);
  }

  lemma KeptBefore(s: string, t: string, a: nat, b: nat, b': nat, k: nat)
    requires Edited(s, t, a, b, b') && Live(s, 0, a, b) && Strip(s, 0).Ok? && Strip(t, 0).Ok? && k < a
    ensures Strip(t, 0).value[k] == Strip(s, 0).value[k]
  {
    hide Strip, InComment, Lexes, Kept;
    MaskAcross(s, t, a, b, b', 0, k);
    KeptAt(s, k);
    KeptAt(t, k);
  }

  lemma KeptInside(s: string, t: string, a: nat, b: nat, b': nat, k: nat)
    requires Edited(s, t, a, b, b') && Live(s, 0, a, b) && Strip(t, 0).Ok? && a <= k < b'
    ensures Strip(t, 0).value[k] == t[k]
  {
    hide Strip, InComment, Lexes;
    MaskAcross(s, t, a, b, b', 0, k);
    KeptAt(t, k);
  }

  lemma KeptBehind(s: string, t: string, a: nat, b: nat, b': nat, k: nat)
    requires Edited(s, t, a, b, b') && Live(s, 0, a, b) && Strip(s, 0).Ok? && Strip(t, 0).Ok? && b <= k < |s|
    ensures Strip(t, 0).value[k - b + b'] == Strip(s, 0).value[k]
  {
    hide Strip, InComment, Lexes, Kept;
    MaskAcross(s, t, a, b, b', 0, k - b + b');
    KeptAt(s, k);
    KeptAt(t, k - b + b');
  }

  // Stripping commutes with exchanging a live stretch of plain text for another.
  lemma StripCommutesWithEdit(s: string, t: string, a: nat, b: nat, b': nat)
    requires Edited(s, t, a, b, b') && Live(s, 0, a, b)
    ensures Strip(s, 0).Ok? && Strip(t, 0).Ok?
    ensures Exchanged(Strip(s, 0).value, Strip(t, 0).value, a, b, b')
    ensures forall k :: a <= k < b' ==> Strip(t, 0).value[k] == t[k]
  {
    StripSucceeds(s, 0);
    StripSucceeds(t, 0);
    MaskAcross(s, t, a, b, b', 0, 0);
    assert |s| - b == |t| - b' && a < b <= |s| && a < b' <= |t|;
    hide Strip, InComment, Lexes, Live, Edited;
    var r, r' := Strip(s, 0).value, Strip(t, 0).value;
    forall k | 0 <= k < a ensures r'[k] == r[k] {
      KeptBefore(s, t, a, b, b', k);
    }
    forall k | a <= k < b' ensures r'[k] == t[k] {
      KeptInside(s, t, a, b, b', k);
    }
    forall k | b <= k < |s| ensures r'[k - b + b'] == r[k] {
      KeptBehind(s, t, a, b, b', k);
    }
  }
}
