/**
 * The molgy lexer (src/lexer/lexer.rs): a single-pass byte scanner whose
 * state is the input, a cursor and a one-byte lookahead. Each operation is
 * proved against the reference definition in module Scanning.
 */
module Lexer {
  import opened Token
  import opened Scanning

  class Lexer {
    var character: byte
    var cursor: nat
    const input: seq<byte>

    /**
     * The invariant between operations: the lookahead is the byte just before
     * the cursor, or 0 when the cursor is 0 or past the end. It holds for a new
     * lexer, and every ReadChar re-establishes it whatever the state before.
     */
    ghost predicate Synced()
      reads this
    {
      character == Look(input, cursor)
    }

    /** Lexer::new: cursor 0, lookahead 0, over the bytes of the content. */
    constructor (fileContent: seq<byte>)
      ensures input == fileContent && cursor == 0 && character == 0
      ensures Synced()
    {
      input := fileContent;
      cursor := 0;
      character := 0;
    }

    /** The only step that advances the cursor: loads the byte at the cursor, or 0 past the end. */
    method ReadChar()
      modifies this
      ensures cursor == old(cursor) + 1
      ensures character == if old(cursor) >= |input| then 0 else input[old(cursor)]
      ensures Synced()
    {
      if cursor >= |input| {
        character := 0;
      } else {
        character := input[cursor];
      }
      cursor := cursor + 1;
    }

    /** Reads on while the lookahead is ASCII whitespace. */
    method RemoveWhitespace()
      requires Synced()
      modifies this
      ensures Synced()
      ensures cursor == ScanWhile(input, old(cursor), Blank)
      ensures old(cursor) <= cursor && !IsWhitespace(character)
    {
      while IsWhitespace(character)
        invariant Synced()
        invariant old(cursor) <= cursor
        invariant ScanWhile(input, cursor, Blank) == ScanWhile(input, old(cursor), Blank)
        decreases |input| + 1 - cursor
      {
        ReadChar();
      }
    }

    /**
     * Accumulates the lookahead while it is an ASCII letter or '_'. On return
     * the result is every byte read, and the lookahead is the first byte that
     * cannot extend it.
     */
    method GetIdentifier() returns (result: seq<byte>)
      requires Synced()
      modifies this
      ensures Synced()
      ensures cursor == ScanWhile(input, old(cursor), Word)
      ensures result == Span(input, old(cursor), cursor)
      ensures !InClass(Word, character)
    {
      result := [];
      while IsAlpha(character) || character == Underscore
        invariant Synced()
        invariant old(cursor) <= cursor
        invariant old(cursor) < cursor ==> 1 <= old(cursor) && cursor <= |input| + 1
        invariant result == Span(input, old(cursor), cursor)
        invariant ScanWhile(input, cursor, Word) == ScanWhile(input, old(cursor), Word)
        decreases |input| + 1 - cursor
      {
        result := result + [character];
        ReadChar();
      }
    }

    /** Accumulates the lookahead while it is an ASCII digit; otherwise as GetIdentifier. */
    method GetNumber() returns (result: seq<byte>)
      requires Synced()
      modifies this
      ensures Synced()
      ensures cursor == ScanWhile(input, old(cursor), Digits)
      ensures result == Span(input, old(cursor), cursor)
      ensures !InClass(Digits, character)
    {
      result := [];
      while IsDigit(character)
        invariant Synced()
        invariant old(cursor) <= cursor
        invariant old(cursor) < cursor ==> 1 <= old(cursor) && cursor <= |input| + 1
        invariant result == Span(input, old(cursor), cursor)
        invariant ScanWhile(input, cursor, Digits) == ScanWhile(input, old(cursor), Digits)
        decreases |input| + 1 - cursor
      {
        result := result + [character];
        ReadChar();
      }
    }

    /**
     * Skips whitespace and classifies the lookahead. After an identifier or a
     * number the cursor is stepped back by one, so that the final ReadChar
     * loads the boundary byte again instead of skipping it; the step back
     * cannot underflow, because the run read at least one byte.
     */
    method NextToken() returns (token: Token)
      requires Synced()
      modifies this
      ensures Synced()
      ensures Step(token, cursor) == Next(input, old(cursor))
    {
      RemoveWhitespace();
      var value: seq<byte> := [];
      var kind := FirstByteKind(character);
      if kind == Identifier {
        value := GetIdentifier();
        cursor := cursor - 1;
      } else if kind == Number {
        value := GetNumber();
        cursor := cursor - 1;
      }
      if value == [] {
        value := [character];
      }
      ReadChar();
      token := New(value, kind);
    }

    /** Produces tokens while the cursor has not passed the end of the input. */
    method GetTokens() returns (tokens: seq<Token>)
      requires Synced()
      modifies this
      ensures Synced() && cursor > |input|
      ensures old(cursor) <= |input| ==> cursor == EndCursor(input)
      ensures old(cursor) > |input| ==> cursor == old(cursor)
      ensures tokens == Tokens(input, old(cursor))
    {
      tokens := [];
      ghost var start := cursor;
      while cursor <= |input|
        invariant Synced()
        invariant tokens + Tokens(input, cursor) == Tokens(input, start)
        invariant start <= |input| ==> cursor <= EndCursor(input) && (cursor > |input| ==> cursor == EndCursor(input))
        invariant start > |input| ==> cursor == start
        decreases |input| + 1 - cursor
      {
        ghost var before := cursor;
        var token := NextToken();
        TokensStep(input, before, token, cursor);
        NextEnd(input, before);
        tokens := tokens + [token];
      }
    }
  }

  /** Lexer equality is structural: lookahead, cursor and input all equal. */
  predicate SameState(a: Lexer, b: Lexer)
    reads a, b
  {
    a.character == b.character && a.cursor == b.cursor && a.input == b.input
  }

  /** Two new lexers compare equal exactly when they were built from the same content. */
  method NewLexersEqual(a: seq<byte>, b: seq<byte>) returns (equal: bool)
    ensures equal <==> a == b
  {
    var x := new Lexer(a);
    var y := new Lexer(b);
    equal := SameState(x, y);
  }

  /**
   * A new lexer over the content, asked for its tokens: the reference token
   * sequence, whatever lexer instance computes it.
   */
  method Lex(content: seq<byte>) returns (tokens: seq<Token>)
    ensures tokens == Tokenize(content)
  {
    var lexer := new Lexer(content);
    tokens := lexer.GetTokens();
  }
}
