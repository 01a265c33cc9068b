/**
 * The tokenizer of preprocessor.c: a cursor into the NUL-terminated source
 * text that getToken and its helpers advance in place. Each method is proved
 * against the function of module Lexer that specifies the same loop.
 */
module TokenizerImpl {
  import opened Lexer

  /**
   * tokenEquals: compares the token's text with a C string literal,
   * character by character; the token type plays no part.
   */
  method TokenEquals(token: Token, m: seq<char>) returns (r: bool)
    requires NUL !in m
    ensures r <==> token.text == m
  {
    var index := 0;
    while index < |token.text|
      invariant index <= |token.text| && index <= |m|
      invariant token.text[..index] == m[..index]
    {
      if At(m, index) == NUL || token.text[index] != At(m, index) {
        assert index < |m| ==> token.text[index] != m[index];
        return false;
      }
      index := index + 1;
    }
    r := At(m, index) == NUL;
    assert token.text == token.text[..index];
    assert r ==> m == m[..index];
  }

  class Tokenizer {
    /** The source text; the cursor reads NUL at and past its end. */
    const src: seq<char>
    /** The C `At` cursor, as an offset into src. */
    var at: nat

    ghost predicate Valid()
      reads this
    {
      at <= |src|
    }

    constructor (source: seq<char>)
      ensures Valid() && src == source && at == 0
    {
      src := source;
      at := 0;
    }

    /** eatAllWhitespace */
    method EatAllWhitespace()
      requires Valid()
      modifies this
      ensures Valid() && at == SkipWhitespace(src, old(at))
      ensures Blank(src, old(at), at) && !IsWhitespace(At(src, at)) && !CommentStart(src, at)
    {
      var p := at;
      while true
        invariant p <= |src|
        invariant SkipWhitespace(src, p) == SkipWhitespace(src, old(at))
        decreases |src| - p
      {
        SkipWhitespaceStep(src, p);
        if IsWhitespace(At(src, p)) {
          p := p + 1;
        } else if At(src, p) == '/' && At(src, p + 1) == '/' {
          p := CommentLineEnd(p + 2);
        } else if At(src, p) == '/' && At(src, p + 1) == '*' {
          p := CommentBlockEnd(p + 2);
          if At(src, p) == '*' {
            p := p + 2;
          }
        } else {
          break;
        }
      }
      SkipWhitespaceBlank(src, old(at));
      at := p;
    }

    // The inner loop of eatAllWhitespace over the body of a line comment.
    method CommentLineEnd(i: nat) returns (p: nat)
      requires i <= |src|
      ensures p == LineCommentEnd(src, i)
    {
      p := i;
      while At(src, p) != NUL && !IsEndOfLine(At(src, p))
        invariant i <= p <= LineCommentEnd(src, i) && LineCommentEnd(src, p) == LineCommentEnd(src, i)
        decreases |src| - p
      {
        p := p + 1;
      }
    }

    // The inner loop of eatAllWhitespace over the body of a block comment; stops on its closing star.
    method CommentBlockEnd(i: nat) returns (p: nat)
      requires i <= |src|
      ensures p == BlockCommentEnd(src, i)
    {
      p := i;
      while At(src, p) != NUL && !BlockCommentClose(src, p)
        invariant i <= p <= BlockCommentEnd(src, i) && BlockCommentEnd(src, p) == BlockCommentEnd(src, i)
        decreases |src| - p
      {
        p := p + 1;
      }
    }

    /** getToken; at end of stream the cursor stays on the terminator. */
    method GetToken() returns (t: Token)
      requires Valid()
      modifies this
      ensures Valid() && (t, at) == NextToken(src, old(at))
    {
      EatAllWhitespace();
      var p := at;
      var c := At(src, p);
      if c == NUL {
        t := Token(EndOfStream, p, [NUL]);
        return;
      }
      if Punctuation(c).Some? {
        t := Token(Punctuation(c).value, p, [c]);
        at := p + 1;
      } else if c == '"' {
        var e := StringTextEnd(p + 1);
        t := Token(String, p + 1, src[p + 1..e]);
        at := if At(src, e) == '"' then e + 1 else e;
      } else if IsAlpha(c) {
        var e := IdentifierTextEnd(p + 1);
        t := Token(Identifier, p, src[p..e]);
        at := e;
      } else {
        t := Token(Unknown, p, [c]);
        at := p + 1;
      }
    }

    // The loop of getToken over the text of a string literal, stepping over escaped characters.
    method StringTextEnd(i: nat) returns (p: nat)
      requires i <= |src|
      ensures p == StringEnd(src, i)
    {
      p := i;
      while At(src, p) != NUL && At(src, p) != '"'
        invariant i <= p <= |src|
        invariant StringEnd(src, p) == StringEnd(src, i)
        decreases |src| - p
      {
        if At(src, p) == '\\' && At(src, p + 1) != NUL {
          p := p + 1;
        }
        p := p + 1;
      }
    }

    // The loop of getToken over the letters, digits and underscores of an identifier.
    method IdentifierTextEnd(i: nat) returns (p: nat)
      requires i <= |src|
      ensures p == IdentifierEnd(src, i)
    {
      p := i;
      while IsIdentifierChar(At(src, p))
        invariant i <= p <= |src|
        invariant IdentifierEnd(src, p) == IdentifierEnd(src, i)
        decreases |src| - p
      {
        p := p + 1;
      }
    }

    /** requireToken: consumes one token and says whether it has the desired type. */
    method RequireToken(desired: TokenType) returns (ok: bool)
      requires Valid()
      modifies this
      ensures Valid() && at == NextToken(src, old(at)).1
      ensures ok <==> NextToken(src, old(at)).0.kind == desired
    {
      var t := GetToken();
      ok := t.kind == desired;
    }

    /** parseParentheses: called after a `(`, consumes up to its matching `)` or end of stream. */
    method ParseParentheses()
      requires Valid()
      modifies this
      ensures Valid() && at == SkipNested(src, old(at), Parentheses)
      decreases |src| - at
    {
      while true
        invariant Valid() && old(at) <= at
        invariant SkipNested(src, at, Parentheses) == SkipNested(src, old(at), Parentheses)
        decreases |src| - at
      {
        var t := GetToken();
        if t.kind == EndOfStream || t.kind == CloseParen {
          return;
        }
        if t.kind == OpenParen {
          ParseParentheses();
        }
      }
    }

    /** parseBraces: called after a `{`, consumes up to its matching `}` or end of stream. */
    method ParseBraces()
      requires Valid()
      modifies this
      ensures Valid() && at == SkipNested(src, old(at), Braces)
      decreases |src| - at
    {
      while true
        invariant Valid() && old(at) <= at
        invariant SkipNested(src, at, Braces) == SkipNested(src, old(at), Braces)
        decreases |src| - at
      {
        var t := GetToken();
        if t.kind == EndOfStream || t.kind == CloseBrace {
          return;
        }
        if t.kind == OpenBrace {
          ParseBraces();
        }
      }
    }
  }
}
