/**
 * The hand-written lexer of the Grafcet declaration preprocessor
 * (preprocessor.c).
 *
 * The source text is a `seq<char>`; reading at or past its end yields the
 * NUL terminator that the C reader appends, so a cursor is a position
 * `p <= |s|`. Every loop of the C lexer that advances the cursor is
 * specified here by a recursive function from a position to the position
 * where that loop stops; the imperative tokenizer (module TokenizerImpl) is
 * proved against these functions.
 */
module Lexer {
  import opened Common

  const NUL: char := '\0'

  /** The character at position i, or the NUL terminator past the end. */
  function At(s: seq<char>, i: nat): char {
    if i < |s| then s[i] else NUL
  }

  predicate IsEndOfLine(c: char) {
    c == '\n' || c == '\r'
  }

  /** Space, tab, vertical tab, form feed, or an end-of-line character. */
  predicate IsWhitespace(c: char) {
    c == ' ' || c == '\t' || c == '\U{000B}' || c == '\U{000C}' || IsEndOfLine(c)
  }

  predicate IsAlpha(c: char) {
    ('a' <= c <= 'z') || ('A' <= c <= 'Z')
  }

  predicate IsNumber(c: char) {
    '0' <= c <= '9'
  }

  /** A character that may continue an identifier. */
  predicate IsIdentifierChar(c: char) {
    IsAlpha(c) || IsNumber(c) || c == '_'
  }

  // A line comment or a block comment opens at position i.
  predicate CommentStart(s: seq<char>, i: nat) {
    At(s, i) == '/' && (At(s, i + 1) == '/' || At(s, i + 1) == '*')
  }

  // A block comment closes at position i (a star followed by a slash).
  predicate BlockCommentClose(s: seq<char>, i: nat) {
    At(s, i) == '*' && At(s, i + 1) == '/'
  }

  datatype TokenType =
    | Unknown
    | Asterisk | CloseBrace | CloseBracket | CloseParen | Colon | Comma
    | OpenBrace | OpenBracket | OpenParen | Semicolon
    | String | Identifier
    | EndOfStream

  /**
   * A token: its type, the position where its text starts (the C `Text`
   * field) and the text itself (the C `TextLength` characters there).
   */
  datatype Token = Token(kind: TokenType, start: nat, text: seq<char>)

  /** The single-character tokens of the lexer's switch. */
  function Punctuation(c: char): Option<TokenType> {
    match c
    case '(' => Some(OpenParen)
    case ')' => Some(CloseParen)
    case ':' => Some(Colon)
    case ',' => Some(Comma)
    case ';' => Some(Semicolon)
    case '*' => Some(Asterisk)
    case '[' => Some(OpenBracket)
    case ']' => Some(CloseBracket)
    case '{' => Some(OpenBrace)
    case '}' => Some(CloseBrace)
    case _ => None
  }

  /** Where the body of a `//` comment starting at i stops: at the end of the line or of the input. */
  function LineCommentEnd(s: seq<char>, i: nat): (r: nat)
    requires i <= |s|
    ensures i <= r <= |s|
    ensures At(s, r) == NUL || IsEndOfLine(At(s, r))
    decreases |s| - i
  {
    if At(s, i) == NUL || IsEndOfLine(At(s, i)) then i else LineCommentEnd(s, i + 1)
  }

  // Where the body of a block comment starting at i stops: at the first star-slash or at the end of the input.
  function BlockCommentEnd(s: seq<char>, i: nat): (r: nat)
    requires i <= |s|
    ensures i <= r <= |s|
    ensures At(s, r) == NUL || BlockCommentClose(s, r)
    decreases |s| - i
  {
    if At(s, i) == NUL || BlockCommentClose(s, i) then i else BlockCommentEnd(s, i + 1)
  }

  /** Everything a line comment's scan passes over is comment text: no NUL and no end of line. */
  lemma {:induction false} LineCommentBody(s: seq<char>, i: nat)
    requires i <= |s|
    ensures forall k :: i <= k < LineCommentEnd(s, i) ==> At(s, k) != NUL && !IsEndOfLine(At(s, k))
    decreases |s| - i
  {
    if !(At(s, i) == NUL || IsEndOfLine(At(s, i))) {
      LineCommentBody(s, i + 1);
    }
  }

  /** Everything a block comment's scan passes over is comment text: no NUL and no star-slash. */
  lemma {:induction false} BlockCommentBody(s: seq<char>, i: nat)
    requires i <= |s|
    ensures forall k :: i <= k < BlockCommentEnd(s, i) ==> At(s, k) != NUL && !BlockCommentClose(s, k)
    decreases |s| - i
  {
    if !(At(s, i) == NUL || BlockCommentClose(s, i)) {
      BlockCommentBody(s, i + 1);
    }
  }

  /**
   * eatAllWhitespace: skips whitespace and comments of both styles. It only
   * moves forward and stops at a character that is neither whitespace nor the
   * start of a comment (in particular at the end of the input).
   */
  function SkipWhitespace(s: seq<char>, p: nat): (r: nat)
    requires p <= |s|
    ensures p <= r <= |s|
    ensures !IsWhitespace(At(s, r)) && !CommentStart(s, r)
    decreases |s| - p
  {
    if IsWhitespace(At(s, p)) then
      SkipWhitespace(s, p + 1)
    else if At(s, p) == '/' && At(s, p + 1) == '/' then
      SkipWhitespace(s, LineCommentEnd(s, p + 2))
    else if At(s, p) == '/' && At(s, p + 1) == '*' then
      var e := BlockCommentEnd(s, p + 2);
      SkipWhitespace(s, if At(s, e) == '*' then e + 2 else e)
    else
      p
  }

  // One pass of eatAllWhitespace's loop: what is left to skip after one
  // whitespace character or one whole comment is what was left before it.
  lemma SkipWhitespaceStep(s: seq<char>, p: nat)
    requires p <= |s|
    ensures IsWhitespace(At(s, p)) ==> SkipWhitespace(s, p) == SkipWhitespace(s, p + 1)
    ensures !IsWhitespace(At(s, p)) && At(s, p) == '/' && At(s, p + 1) == '/' ==>
              SkipWhitespace(s, p) == SkipWhitespace(s, LineCommentEnd(s, p + 2))
    ensures !IsWhitespace(At(s, p)) && At(s, p) == '/' && At(s, p + 1) == '*' ==>
              var e := BlockCommentEnd(s, p + 2);
              SkipWhitespace(s, p) == SkipWhitespace(s, if At(s, e) == '*' then e + 2 else e)
    ensures !IsWhitespace(At(s, p)) && !CommentStart(s, p) ==> SkipWhitespace(s, p) == p
  {
  }

  /**
   * One blank item from p up to e, described by its text rather than by the
   * scan: a whitespace character; a `//` comment up to the first end of line
   * or NUL; a slash-star comment through its first star-slash; or a
   * slash-star comment never closed, up to the first NUL.
   */
  predicate BlankItem(s: seq<char>, p: nat, e: nat) {
    || (IsWhitespace(At(s, p)) && e == p + 1)
    || (&& At(s, p) == '/' && At(s, p + 1) == '/' && p + 2 <= e <= |s|
        && (forall k :: p + 2 <= k < e ==> At(s, k) != NUL && !IsEndOfLine(At(s, k)))
        && (At(s, e) == NUL || IsEndOfLine(At(s, e))))
    || (&& At(s, p) == '/' && At(s, p + 1) == '*' && p + 4 <= e <= |s| && BlockCommentClose(s, e - 2)
        && (forall k :: p + 2 <= k < e - 2 ==> At(s, k) != NUL && !BlockCommentClose(s, k)))
    || (&& At(s, p) == '/' && At(s, p + 1) == '*' && p + 2 <= e <= |s| && At(s, e) == NUL
        && (forall k :: p + 2 <= k < e ==> At(s, k) != NUL && !BlockCommentClose(s, k)))
  }

  /** The text from p up to r is a run of blank items: whitespace and comments, nothing else. */
  predicate Blank(s: seq<char>, p: nat, r: nat)
    decreases r - p
  {
    p == r || exists e :: p < e <= r && BlankItem(s, p, e) && Blank(s, e, r)
  }

  /** eatAllWhitespace passes over blank text only. */
  lemma {:induction false} SkipWhitespaceBlank(s: seq<char>, p: nat)
    requires p <= |s|
    ensures Blank(s, p, SkipWhitespace(s, p))
    decreases |s| - p
  {
    var r := SkipWhitespace(s, p);
    if IsWhitespace(At(s, p)) {
      SkipWhitespaceBlank(s, p + 1);
      assert BlankItem(s, p, p + 1);
    } else if At(s, p) == '/' && At(s, p + 1) == '/' {
      var e := LineCommentEnd(s, p + 2);
      LineCommentBody(s, p + 2);
      SkipWhitespaceBlank(s, e);
      assert BlankItem(s, p, e);
    } else if At(s, p) == '/' && At(s, p + 1) == '*' {
      var m := BlockCommentEnd(s, p + 2);
      BlockCommentBody(s, p + 2);
      var e := if At(s, m) == '*' then m + 2 else m;
      SkipWhitespaceBlank(s, e);
      assert BlankItem(s, p, e);
    }
  }

  /** A line comment's scan stops at the first end of line or NUL. */
  lemma {:induction false} LineCommentEndIsFirst(s: seq<char>, i: nat, e: nat)
    requires i <= e <= |s|
    requires forall k :: i <= k < e ==> At(s, k) != NUL && !IsEndOfLine(At(s, k))
    requires At(s, e) == NUL || IsEndOfLine(At(s, e))
    ensures LineCommentEnd(s, i) == e
    decreases e - i
  {
    if i < e {
      LineCommentEndIsFirst(s, i + 1, e);
    }
  }

  /** A block comment's scan stops at the first star-slash or NUL. */
  lemma {:induction false} BlockCommentEndIsFirst(s: seq<char>, i: nat, e: nat)
    requires i <= e <= |s|
    requires forall k :: i <= k < e ==> At(s, k) != NUL && !BlockCommentClose(s, k)
    requires At(s, e) == NUL || BlockCommentClose(s, e)
    ensures BlockCommentEnd(s, i) == e
    decreases e - i
  {
    if i < e {
      BlockCommentEndIsFirst(s, i + 1, e);
    }
  }

  /** One pass of eatAllWhitespace's loop passes over exactly one blank item. */
  lemma BlankItemStep(s: seq<char>, p: nat, e: nat)
    requires p <= |s| && BlankItem(s, p, e)
    ensures p < e <= |s| && SkipWhitespace(s, p) == SkipWhitespace(s, e)
  {
    if IsWhitespace(At(s, p)) {
      assert SkipWhitespace(s, p) == SkipWhitespace(s, p + 1);
    } else if At(s, p + 1) == '/' {
      LineCommentEndIsFirst(s, p + 2, e);
      assert SkipWhitespace(s, p) == SkipWhitespace(s, LineCommentEnd(s, p + 2));
    } else if At(s, e) == NUL && forall k :: p + 2 <= k < e ==> At(s, k) != NUL && !BlockCommentClose(s, k) {
      BlockCommentEndIsFirst(s, p + 2, e);
    } else {
      BlockCommentEndIsFirst(s, p + 2, e - 2);
    }
  }

  /**
   * eatAllWhitespace stops at the first place blank text cannot go on: any r
   * reached from p through blank items where neither whitespace nor a
   * comment begins is where the scan stops.
   */
  lemma {:induction false} BlankStopIsSkipWhitespace(s: seq<char>, p: nat, r: nat)
    requires p <= r <= |s| && Blank(s, p, r)
    requires !IsWhitespace(At(s, r)) && !CommentStart(s, r)
    ensures SkipWhitespace(s, p) == r
    decreases r - p
  {
    if p != r {
      var e :| p < e <= r && BlankItem(s, p, e) && Blank(s, e, r);
      BlankItemStep(s, p, e);
      BlankStopIsSkipWhitespace(s, e, r);
    }
  }

  /** Where the text of a string literal starting at i stops: at an unescaped `"` or at the end of the input. */
  function StringEnd(s: seq<char>, i: nat): (r: nat)
    requires i <= |s|
    ensures i <= r <= |s|
    ensures At(s, r) == NUL || At(s, r) == '"'
    decreases |s| - i
  {
    if At(s, i) == NUL || At(s, i) == '"' then i
    else if At(s, i) == '\\' && At(s, i + 1) != NUL then StringEnd(s, i + 2)
    else StringEnd(s, i + 1)
  }

  /** Where an identifier whose first letter is just before i ends: the longest run of letters, digits and `_`. */
  function IdentifierEnd(s: seq<char>, i: nat): (r: nat)
    requires i <= |s|
    ensures i <= r <= |s|
    ensures !IsIdentifierChar(At(s, r))
    decreases |s| - i
  {
    if IsIdentifierChar(At(s, i)) then IdentifierEnd(s, i + 1) else i
  }

  /** Everything an identifier's scan passes over is a letter, a digit or `_`. */
  lemma {:induction false} IdentifierRun(s: seq<char>, i: nat)
    requires i <= |s|
    ensures forall k :: i <= k < IdentifierEnd(s, i) ==> IsIdentifierChar(At(s, k))
    decreases |s| - i
  {
    if IsIdentifierChar(At(s, i)) {
      IdentifierRun(s, i + 1);
    }
  }

  /**
   * Grammar of the text between the quotes of a string literal, independent
   * of the scanner: no NUL, no bare `"`, every `\` takes the next character
   * with it; a dangling final `\` is allowed only in an unclosed literal.
   */
  predicate EscapedText(x: seq<char>, closed: bool)
    decreases |x|
  {
    x == []
    || (x[0] != '"' && x[0] != '\\' && x[0] != NUL && EscapedText(x[1..], closed))
    || (x[0] == '\\' && |x| >= 2 && x[1] != NUL && EscapedText(x[2..], closed))
    || (x == ['\\'] && !closed)
  }

  /** A block comment that is never closed swallows the rest of the input. */
  lemma UnterminatedBlockComment(s: seq<char>, p: nat)
    requires p <= |s| && At(s, p) == '/' && At(s, p + 1) == '*'
    requires forall k :: p + 2 <= k < |s| ==> At(s, k) != NUL && !BlockCommentClose(s, k)
    ensures SkipWhitespace(s, p) == |s|
  {
    var e := BlockCommentEnd(s, p + 2);
    assert e == |s|;
    assert SkipWhitespace(s, |s|) == |s|;
  }

  /**
   * getToken, with end of stream made sticky: at the NUL terminator the
   * cursor stays put (the C steps past it). Returns the token and the new
   * cursor.
   */
  function NextToken(s: seq<char>, p: nat): (r: (Token, nat))
    requires p <= |s|
    ensures p <= SkipWhitespace(s, p) <= r.0.start <= r.1 <= |s|
    ensures r.0.kind == EndOfStream <==> At(s, SkipWhitespace(s, p)) == NUL
    ensures r.0.kind == EndOfStream ==> r.1 == r.0.start == SkipWhitespace(s, p)
    ensures r.0.kind != EndOfStream ==> p < r.1
    ensures Punctuation(At(s, SkipWhitespace(s, p))).Some? ==>
              r.0.kind == Punctuation(At(s, SkipWhitespace(s, p))).value && r.1 == r.0.start + 1
  {
    var p0 := SkipWhitespace(s, p);
    var c := At(s, p0);
    if c == NUL then
      (Token(EndOfStream, p0, [NUL]), p0)
    else if Punctuation(c).Some? then
      (Token(Punctuation(c).value, p0, [c]), p0 + 1)
    else if c == '"' then
      var e := StringEnd(s, p0 + 1);
      (Token(String, p0 + 1, s[p0 + 1..e]), if At(s, e) == '"' then e + 1 else e)
    else if IsAlpha(c) then
      var e := IdentifierEnd(s, p0 + 1);
      (Token(Identifier, p0, s[p0..e]), e)
    else
      (Token(Unknown, p0, [c]), p0 + 1)
  }

  /** The text of a string literal that starts at i is well escaped, and a closed literal never ends on a dangling `\`. */
  lemma {:induction false} StringEndText(s: seq<char>, i: nat)
    requires i <= |s|
    ensures EscapedText(s[i..StringEnd(s, i)], At(s, StringEnd(s, i)) == '"')
    decreases |s| - i
  {
    var r := StringEnd(s, i);
    if At(s, i) == NUL || At(s, i) == '"' {
      assert s[i..r] == [];
    } else if At(s, i) == '\\' && At(s, i + 1) != NUL {
      StringEndText(s, i + 2);
      assert s[i..r][2..] == s[i + 2..r];
    } else {
      StringEndText(s, i + 1);
      if At(s, i) == '\\' {
        assert r == i + 1;
        assert s[i..r] == ['\\'];
      } else {
        assert s[i..r][1..] == s[i + 1..r];
      }
    }
  }

  /**
   * What getToken classifies, by the first character c after the skipped
   * whitespace: end of stream exactly at NUL; an identifier exactly at a
   * letter; a string exactly at a `"`; a punctuation mark or any other
   * character as a one-character token (Unknown when it is no punctuation).
   */
  lemma TokenClasses(s: seq<char>, p: nat)
    requires p <= |s|
    ensures var (t, q) := NextToken(s, p);
            var p0 := SkipWhitespace(s, p);
            var c := At(s, p0);
            && (t.kind == Identifier <==> IsAlpha(c))
            && (t.kind == String <==> c == '"')
            && (t.kind == Unknown <==> c != NUL && c != '"' && !IsAlpha(c) && Punctuation(c).None?)
            && (t.kind != Identifier && t.kind != String ==> t.text == [c] && t.start == p0)
            && (t.kind == Unknown ==> q == p0 + 1)
  {
  }

  /** An identifier token is a letter followed by the longest run of letters, digits and `_`. */
  lemma IdentifierToken(s: seq<char>, p: nat)
    requires p <= |s|
    ensures var (t, q) := NextToken(s, p);
            var p0 := SkipWhitespace(s, p);
            t.kind == Identifier ==>
              && t.start == p0 && t.text == s[p0..q] && |t.text| >= 1 && IsAlpha(t.text[0])
              && (forall k :: 0 <= k < |t.text| ==> IsIdentifierChar(t.text[k]))
              && !IsIdentifierChar(At(s, q))
  {
    var p0 := SkipWhitespace(s, p);
    var c := At(s, p0);
    if IsAlpha(c) && Punctuation(c).None? {
      var e := IdentifierEnd(s, p0 + 1);
      IdentifierRun(s, p0 + 1);
      var text := s[p0..e];
      assert forall k :: 0 <= k < |text| ==> IsIdentifierChar(text[k]) by {
        forall k | 0 <= k < |text| ensures IsIdentifierChar(text[k]) {
          if k > 0 { assert At(s, p0 + k) == text[k]; }
        }
      }
    }
  }

  /**
   * A string token is the well-escaped text between the quotes (quotes
   * excluded); its closing quote is consumed only when present, and
   * without one the literal runs to the end of the input.
   */
  lemma StringToken(s: seq<char>, p: nat)
    requires p <= |s|
    ensures var (t, q) := NextToken(s, p);
            var p0 := SkipWhitespace(s, p);
            t.kind == String ==>
              && t.start == p0 + 1 && t.start + |t.text| <= |s| && t.text == s[t.start..t.start + |t.text|]
              && EscapedText(t.text, At(s, t.start + |t.text|) == '"')
              && (At(s, t.start + |t.text|) == '"' ==> q == t.start + |t.text| + 1)
              && (At(s, t.start + |t.text|) != '"' ==> q == t.start + |t.text| && At(s, q) == NUL)
  {
    var p0 := SkipWhitespace(s, p);
    if At(s, p0) == '"' {
      StringEndText(s, p0 + 1);
    }
  }

  /** A comma or closing-parenthesis token is the one character at its start. */
  lemma SeparatorToken(s: seq<char>, p: nat)
    requires p <= |s|
    ensures var (t, q) := NextToken(s, p);
            && (t.kind == Comma ==> t.start < |s| && s[t.start] == ',' && q == t.start + 1)
            && (t.kind == CloseParen ==> t.start < |s| && s[t.start] == ')' && q == t.start + 1)
  {
  }

  /** End of stream is sticky: asking again at the returned cursor gives the same token and cursor. */
  lemma EndOfStreamSticky(s: seq<char>, p: nat)
    requires p <= |s| && NextToken(s, p).0.kind == EndOfStream
    ensures NextToken(s, NextToken(s, p).1) == NextToken(s, p)
  {
  }

  /** The two kinds of bracket that the parser skips as a unit. */
  datatype Group = Parentheses | Braces

  function Opener(g: Group): TokenType {
    if g == Parentheses then OpenParen else OpenBrace
  }

  function Closer(g: Group): TokenType {
    if g == Parentheses then CloseParen else CloseBrace
  }

  function CloserChar(g: Group): char {
    if g == Parentheses then ')' else '}'
  }

  /**
   * parseParentheses / parseBraces: called just after an opener has been
   * consumed, skips tokens up to and including the matching closer,
   * recursing on inner openers, or up to end of stream.
   */
  function SkipNested(s: seq<char>, p: nat, g: Group): (r: nat)
    requires p <= |s|
    ensures p <= r <= |s|
    ensures At(s, r) == NUL || (0 < r && At(s, r - 1) == CloserChar(g))
    decreases |s| - p
  {
    var (t, q) := NextToken(s, p);
    if t.kind == EndOfStream || t.kind == Closer(g) then q
    else if t.kind == Opener(g) then SkipNested(s, SkipNested(s, q, g), g)
    else SkipNested(s, q, g)
  }

  /**
   * Reference definition of "the matching closer": a flat scan that keeps a
   * depth counter instead of recursing. Only the group's own opener and
   * closer change the depth; every other token, brackets `[ ]` included,
   * is passed over.
   */
  function MatchDepth(s: seq<char>, p: nat, g: Group, depth: nat): (r: nat)
    requires p <= |s|
    ensures p <= r <= |s|
    decreases |s| - p
  {
    var (t, q) := NextToken(s, p);
    if t.kind == EndOfStream then q
    else if t.kind == Closer(g) then (if depth == 0 then q else MatchDepth(s, q, g, depth - 1))
    else if t.kind == Opener(g) then MatchDepth(s, q, g, depth + 1)
    else MatchDepth(s, q, g, depth)
  }

  /** At end of input a depth scan stops at once, whatever the depth. */
  lemma MatchDepthAtEnd(s: seq<char>, p: nat, g: Group, depth: nat)
    requires p <= |s| && At(s, p) == NUL
    ensures MatchDepth(s, p, g, depth) == p
  {
    assert SkipWhitespace(s, p) == p;
  }

  /**
   * The recursive skip ends where the flat scan at depth d ends after it:
   * at depth 0 they agree; at depth d + 1 the skip consumes one complete
   * nested group.
   */
  lemma {:induction false} SkipNestedThenDepth(s: seq<char>, p: nat, g: Group, depth: nat)
    requires p <= |s|
    ensures MatchDepth(s, p, g, depth)
            == if depth == 0 then SkipNested(s, p, g) else MatchDepth(s, SkipNested(s, p, g), g, depth - 1)
    decreases |s| - p
  {
    var (t, q) := NextToken(s, p);
    if t.kind == EndOfStream {
      if depth > 0 {
        MatchDepthAtEnd(s, q, g, depth - 1);
      }
    } else if t.kind == Closer(g) {
    } else if t.kind == Opener(g) {
      var m := SkipNested(s, q, g);
      SkipNestedThenDepth(s, q, g, depth + 1);
      SkipNestedThenDepth(s, m, g, depth);
    } else {
      SkipNestedThenDepth(s, q, g, depth);
    }
  }

  /** parseParentheses/parseBraces stop exactly at the matching closer found by depth counting. */
  lemma SkipNestedIsMatchingCloser(s: seq<char>, p: nat, g: Group)
    requires p <= |s|
    ensures SkipNested(s, p, g) == MatchDepth(s, p, g, 0)
  {
    SkipNestedThenDepth(s, p, g, 0);
  }
}
