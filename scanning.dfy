/**
 * A reference definition of what the molgy lexer computes (src/lexer/lexer.rs),
 * as functions of the input bytes and the lexer's cursor, and the properties
 * of the token sequence that follow from it.
 *
 * Between operations the lexer's lookahead byte is determined by its cursor:
 * it is the byte just before the cursor, or 0 when there is none (Look). So a
 * lexer state is described here by its cursor alone.
 */
module Scanning {
  import opened Token

  /** ASCII whitespace as Rust's u8::is_ascii_whitespace defines it: space, \t, \n, \x0C, \r. */
  predicate IsWhitespace(b: byte) { b == 32 || b == 9 || b == 10 || b == 12 || b == 13 }

  predicate IsAlpha(b: byte) { 65 <= b <= 90 || 97 <= b <= 122 }

  predicate IsDigit(b: byte) { 48 <= b <= 57 }

  const Underscore: byte := 95

  /** The byte classes that the "scan until mismatch" loops skip or accumulate. */
  datatype ByteClass = Blank | Word | Digits

  predicate InClass(cls: ByteClass, b: byte)
  {
    match cls
    case Blank => IsWhitespace(b)
    case Word => IsAlpha(b) || b == Underscore
    case Digits => IsDigit(b)
  }

  /** The lookahead byte of a lexer whose cursor is `c`: input[c - 1], or 0 when c is 0 or past the end. */
  function Look(input: seq<byte>, c: nat): byte
  {
    if 1 <= c <= |input| then input[c - 1] else 0
  }

  /**
   * The cursor at which a lexer starting at cursor `c` stops reading bytes of
   * class `cls`: every lookahead on the way is in the class, the one it stops
   * at is not. It never moves past the cursor that follows the last byte.
   */
  function ScanWhile(input: seq<byte>, c: nat, cls: ByteClass): (e: nat)
    ensures c <= e
    ensures !InClass(cls, Look(input, e))
    ensures forall j :: c <= j < e ==> InClass(cls, Look(input, j))
    ensures c < e ==> 1 <= c && e <= |input| + 1
    decreases |input| + 1 - c
  {
    if InClass(cls, Look(input, c)) then ScanWhile(input, c + 1, cls) else c
  }

  /** The bytes a lexer reads while its cursor goes from `c` to `e`. */
  function Span(input: seq<byte>, c: nat, e: nat): (s: seq<byte>)
    requires c <= e
    requires c < e ==> 1 <= c && e <= |input| + 1
    ensures |s| == e - c
    ensures forall i :: 0 <= i < |s| ==> s[i] == Look(input, c + i)
  {
    if c == e then [] else input[c - 1..e - 1]
  }

  /** The bytes that form a token by themselves: { } ( ) = + ; : , " */
  const Symbols: seq<byte> := [123, 125, 40, 41, 61, 43, 59, 58, 44, 34]

  /**
   * The kind a token gets from its first byte: a letter starts an identifier,
   * a digit a number, each symbol byte has its own kind, 0 marks the end of
   * input, and every other byte (a leading '_' and every byte from 0x80 on
   * among them) is illegal.
   */
  function FirstByteKind(b: byte): (k: TokenType)
    ensures k == Identifier <==> IsAlpha(b)
    ensures k == Number <==> IsDigit(b)
    ensures k == Eof <==> b == 0
    ensures k == Illegal <==> !IsAlpha(b) && !IsDigit(b) && b != 0 && b !in Symbols
  {
    if IsAlpha(b) then Identifier
    else if IsDigit(b) then Number
    else if b == 123 then LCurly
    else if b == 125 then RCurly
    else if b == 40 then LParen
    else if b == 41 then RParen
    else if b == 61 then Assign
    else if b == 43 then Plus
    else if b == 59 then Semicolon
    else if b == 58 then Colon
    else if b == 44 then Comma
    else if b == 34 then DQuotes
    else if b == 0 then Eof
    else Illegal
  }

  /** Each symbol byte has a kind of its own. */
  lemma SymbolKindsDistinct(a: byte, b: byte)
    requires a in Symbols && b in Symbols && a != b
    ensures FirstByteKind(a) != FirstByteKind(b)
  {
  }

  /**
   * A token the lexer can produce: an identifier is a letter followed by
   * letters and underscores, a number is a run of digits, and any other token
   * is the one byte its kind was chosen by.
   */
  predicate WellFormed(t: Token)
  {
    match t.kind
    case Identifier =>
      |t.value| >= 1 && IsAlpha(t.value[0]) &&
      forall i :: 0 <= i < |t.value| ==> InClass(Word, t.value[i])
    case Number =>
      |t.value| >= 1 &&
      forall i :: 0 <= i < |t.value| ==> InClass(Digits, t.value[i])
    case _ =>
      |t.value| == 1 && FirstByteKind(t.value[0]) == t.kind
  }

  /** One token and the cursor after it. */
  datatype Step = Step(token: Token, cursor: nat)

  /**
   * The token a lexer at cursor `c` produces next, and its cursor afterwards.
   * It skips whitespace up to cursor k, and the lookahead there decides the
   * kind. An identifier or a number is the longest run of its class that
   * starts there: the lookahead after it cannot extend it. Every other token
   * is that single byte. The cursor always moves forward.
   */
  function Next(input: seq<byte>, c: nat): (s: Step)
    ensures c < s.cursor
  {
    var k := ScanWhile(input, c, Blank);
    var b := Look(input, k);
    var kind := FirstByteKind(b);
    if kind == Identifier then
      var e := ScanWhile(input, k, Word);
      Step(New(Span(input, k, e), Identifier), e)
    else if kind == Number then
      var e := ScanWhile(input, k, Digits);
      Step(New(Span(input, k, e), Number), e)
    else
      Step(New([b], kind), k + 1)
  }

  /**
   * What Next produces. Whitespace is skipped up to cursor k and the
   * lookahead there decides the kind. An identifier or a number is the longest
   * run of its class that starts there: the lookahead after it cannot extend
   * it. Every other token is that single byte. The token is well formed.
   */
  lemma NextSpec(input: seq<byte>, c: nat)
    ensures var s := Next(input, c);
      var k := ScanWhile(input, c, Blank);
      var kind := s.token.kind;
      var v := s.token.value;
      WellFormed(s.token) &&
      kind == FirstByteKind(Look(input, k)) &&
      (kind == Identifier || kind == Number ==>
         |v| == s.cursor - k &&
         (forall i :: 0 <= i < |v| ==> v[i] == Look(input, k + i)) &&
         !InClass(if kind == Identifier then Word else Digits, Look(input, s.cursor))) &&
      (kind != Identifier && kind != Number ==> v == [Look(input, k)] && s.cursor == k + 1)
  {
  }

  /**
   * The tokens a lexer at cursor `c` produces until its cursor passes the
   * end of the input: none once it has, at most one per remaining cursor
   * position otherwise, each of them well formed.
   */
  function Tokens(input: seq<byte>, c: nat): (ts: seq<Token>)
    ensures ts == [] <==> c > |input|
    ensures c <= |input| + 1 ==> |ts| <= |input| + 1 - c
    decreases |input| + 1 - c
  {
    if c > |input| then []
    else
      var s := Next(input, c);
      [s.token] + Tokens(input, s.cursor)
  }

  /** Every token the lexer produces is well formed. */
  lemma {:induction false} TokensWellFormed(input: seq<byte>, c: nat)
    ensures forall i :: 0 <= i < |Tokens(input, c)| ==> WellFormed(Tokens(input, c)[i])
    decreases |input| + 1 - c
  {
    if c <= |input| {
      var s := Next(input, c);
      NextSpec(input, c);
      TokensWellFormed(input, s.cursor);
      assert Tokens(input, c) == [s.token] + Tokens(input, s.cursor);
    }
  }

  /** The token sequence of a fresh lexer, whose first token is always EOF with value NUL. */
  function Tokenize(input: seq<byte>): (ts: seq<Token>)
    ensures 1 <= |ts| <= |input| + 1
    ensures ts[0] == Token([0], Eof)
  {
    assert Next(input, 0) == Step(Token([0], Eof), 1);
    Tokens(input, 0)
  }

  /** A fresh lexer produces the leading EOF token and goes on from cursor 1. */
  lemma FreshStart(input: seq<byte>)
    ensures Tokenize(input) == [Token([0], Eof)] + Tokens(input, 1)
  {
    assert Next(input, 0) == Step(Token([0], Eof), 1);
  }

  /** Empty input gives the single EOF token. */
  lemma EmptyInput()
    ensures Tokenize([]) == [Token([0], Eof)]
  {
  }

  // ---------------------------------------------------------------------
  // Coverage: no byte is skipped or duplicated.

  /** A byte that ends up in some token value other than EOF's: neither whitespace nor NUL. */
  predicate Visible(b: byte) { !IsWhitespace(b) && b != 0 }

  /** The input with whitespace and NUL bytes removed. */
  function VisibleBytes(s: seq<byte>): seq<byte>
  {
    if s == [] then [] else (if Visible(s[0]) then [s[0]] else []) + VisibleBytes(s[1..])
  }

  /** The values of the tokens other than EOF, concatenated in order. */
  function Values(ts: seq<Token>): seq<byte>
  {
    if ts == [] then [] else Contribution(ts[0]) + Values(ts[1..])
  }

  lemma {:induction false} VisibleBytesAppend(a: seq<byte>, b: seq<byte>)
    ensures VisibleBytes(a + b) == VisibleBytes(a) + VisibleBytes(b)
  {
    if a == [] {
      assert a + b == b;
    } else {
      var head := if Visible(a[0]) then [a[0]] else [];
      assert (a + b)[0] == a[0] && (a + b)[1..] == a[1..] + b;
      assert VisibleBytes(a + b) == head + VisibleBytes(a[1..] + b);
      VisibleBytesAppend(a[1..], b);
      assert VisibleBytes(a) == head + VisibleBytes(a[1..]);
    }
  }

  lemma {:induction false} VisibleBytesAll(s: seq<byte>)
    requires forall i :: 0 <= i < |s| ==> Visible(s[i])
    ensures VisibleBytes(s) == s
  {
    if s != [] {
      VisibleBytesAll(s[1..]);
    }
  }

  lemma {:induction false} VisibleBytesNone(s: seq<byte>)
    requires forall i :: 0 <= i < |s| ==> !Visible(s[i])
    ensures VisibleBytes(s) == []
  {
    if s != [] {
      VisibleBytesNone(s[1..]);
    }
  }

  /** The value a token contributes to Values: none for EOF. */
  function Contribution(t: Token): seq<byte>
  {
    if t.kind == Eof then [] else t.value
  }

  /** The whitespace skipped before a token holds no visible byte. */
  lemma {:induction false} SkipCovers(input: seq<byte>, c: nat)
    requires 1 <= c <= |input|
    ensures var k := ScanWhile(input, c, Blank);
      k <= |input| + 1 && VisibleBytes(input[c - 1..]) == VisibleBytes(input[k - 1..])
  {
    var k := ScanWhile(input, c, Blank);
    var blanks := input[c - 1..k - 1];
    assert input[c - 1..] == blanks + input[k - 1..];
    forall i | 0 <= i < |blanks|
      ensures !Visible(blanks[i])
    {
      assert blanks[i] == Look(input, c + i);
    }
    VisibleBytesNone(blanks);
    VisibleBytesAppend(blanks, input[k - 1..]);
  }

  /** A run of visible bytes read from cursor k to e is kept whole. */
  lemma RunCovers(input: seq<byte>, k: nat, e: nat)
    requires 1 <= k < e <= |input| + 1
    requires forall j :: k <= j < e ==> Visible(Look(input, j))
    ensures VisibleBytes(input[k - 1..]) == input[k - 1..e - 1] + VisibleBytes(input[e - 1..])
  {
    var run := input[k - 1..e - 1];
    assert input[k - 1..] == run + input[e - 1..];
    forall i | 0 <= i < |run|
      ensures Visible(run[i])
    {
      assert run[i] == Look(input, k + i);
    }
    VisibleBytesAll(run);
    VisibleBytesAppend(run, input[e - 1..]);
  }

  /** A single byte read at cursor k is kept exactly when it is visible. */
  lemma ByteCovers(input: seq<byte>, k: nat)
    requires 1 <= k <= |input|
    ensures VisibleBytes(input[k - 1..])
         == (if Visible(input[k - 1]) then [input[k - 1]] else []) + VisibleBytes(input[k..])
  {
    assert input[k - 1..][1..] == input[k..];
  }

  /** An identifier or number read from cursor k to e accounts for the visible bytes in between. */
  lemma RunTokenCovers(input: seq<byte>, k: nat, t: Token, e: nat)
    requires 1 <= k < e <= |input| + 1
    requires t.kind == Identifier || t.kind == Number
    requires WellFormed(t) && |t.value| == e - k
    requires forall i :: 0 <= i < |t.value| ==> t.value[i] == Look(input, k + i)
    ensures VisibleBytes(input[k - 1..]) == Contribution(t) + VisibleBytes(input[e - 1..])
  {
    forall j | k <= j < e
      ensures Visible(Look(input, j))
    {
      assert Look(input, j) == t.value[j - k];
    }
    RunCovers(input, k, e);
    assert input[k - 1..e - 1] == t.value;
  }

  /** A token of the single byte read at cursor k, not whitespace, accounts for that byte. */
  lemma ByteTokenCovers(input: seq<byte>, k: nat, t: Token)
    requires 1 <= k <= |input| && !IsWhitespace(input[k - 1])
    requires t.value == [input[k - 1]] && t.kind == FirstByteKind(input[k - 1])
    ensures VisibleBytes(input[k - 1..]) == Contribution(t) + VisibleBytes(input[k..])
  {
    ByteCovers(input, k);
  }

  /**
   * One token accounts exactly for the visible bytes between its start cursor
   * and the cursor after it; past the end of the input there are none left.
   */
  lemma NextCovers(input: seq<byte>, c: nat)
    requires 1 <= c <= |input|
    ensures var s := Next(input, c);
      if s.cursor <= |input| + 1
      then VisibleBytes(input[c - 1..]) == Contribution(s.token) + VisibleBytes(input[s.cursor - 1..])
      else VisibleBytes(input[c - 1..]) == Contribution(s.token) == []
  {
    var s := Next(input, c);
    var k := ScanWhile(input, c, Blank);
    NextSpec(input, c);
    SkipCovers(input, c);
    if k == |input| + 1 {
      assert s.cursor == |input| + 2 && s.token.kind == Eof;
      assert input[k - 1..] == [];
    } else if s.token.kind == Identifier || s.token.kind == Number {
      RunTokenCovers(input, k, s.token, s.cursor);
    } else {
      ByteTokenCovers(input, k, s.token);
    }
  }

  /**
   * From any cursor in the input, the non-EOF token values spell the rest of
   * the input without its whitespace and NUL bytes.
   */
  lemma {:induction false} TokensCover(input: seq<byte>, c: nat)
    requires 1 <= c <= |input| + 1
    ensures Values(Tokens(input, c)) == VisibleBytes(input[c - 1..])
    decreases |input| + 1 - c
  {
    if c <= |input| {
      var s := Next(input, c);
      var ts := Tokens(input, c);
      assert ts[0] == s.token && ts[1..] == Tokens(input, s.cursor);
      assert Values(ts) == Contribution(s.token) + Values(Tokens(input, s.cursor));
      NextCovers(input, c);
      if s.cursor <= |input| + 1 {
        TokensCover(input, s.cursor);
      }
    }
  }

  /**
   * No byte is skipped or duplicated: the values of the non-EOF tokens,
   * concatenated, are the input without whitespace and NUL bytes. (NUL bytes
   * become EOF tokens; for input without NUL this is the input without whitespace.)
   */
  lemma TokenizeCovers(input: seq<byte>)
    ensures Values(Tokenize(input)) == VisibleBytes(input)
  {
    var ts := Tokenize(input);
    FreshStart(input);
    assert ts[1..] == Tokens(input, 1);
    TokensCover(input, 1);
  }

  // ---------------------------------------------------------------------
  // The final token.

  /** The input is non-empty and its last byte is whitespace or NUL. */
  predicate EndsBlankOrNul(input: seq<byte>)
  {
    |input| > 0 && (IsWhitespace(input[|input| - 1]) || input[|input| - 1] == 0)
  }

  lemma {:induction false} LastOfTokens(input: seq<byte>, c: nat)
    requires 1 <= c <= |input|
    ensures var ts := Tokens(input, c);
      ts[|ts| - 1].kind == Eof <==> EndsBlankOrNul(input)
    decreases |input| + 1 - c
  {
    var s := Next(input, c);
    var ts := Tokens(input, c);
    assert ts == [s.token] + Tokens(input, s.cursor);
    if s.cursor <= |input| {
      LastOfTokens(input, s.cursor);
      assert ts[|ts| - 1] == Tokens(input, s.cursor)[|Tokens(input, s.cursor)| - 1];
    } else {
      assert ts == [s.token];
      var k := ScanWhile(input, c, Blank);
      var n := |input|;
      if k == n + 1 {
        assert InClass(Blank, Look(input, n));
      } else if s.token.kind == Identifier || s.token.kind == Number {
        assert Look(input, n) == s.token.value[n - k];
      } else {
        assert k == n;
      }
    }
  }

  /**
   * A trailing EOF token appears exactly when the input ends in whitespace or
   * a NUL byte. An empty input gives only the leading EOF.
   */
  lemma TrailingEof(input: seq<byte>)
    ensures var ts := Tokenize(input);
      |ts| >= 2 && ts[|ts| - 1].kind == Eof <==> EndsBlankOrNul(input)
  {
    var ts := Tokenize(input);
    FreshStart(input);
    if |input| > 0 {
      LastOfTokens(input, 1);
      assert ts[|ts| - 1] == Tokens(input, 1)[|Tokens(input, 1)| - 1];
    }
  }

  // ---------------------------------------------------------------------
  // The source's example.

  /** The input holds the bytes of `print("Hello, World");`. */
  predicate HelloBytes(input: seq<byte>)
  {
    |input| == 22 &&
    input[0] == 112 && input[1] == 114 && input[2] == 105 && input[3] == 110 &&
    input[4] == 116 && input[5] == 40 && input[6] == 34 && input[7] == 72 &&
    input[8] == 101 && input[9] == 108 && input[10] == 108 && input[11] == 111 &&
    input[12] == 44 && input[13] == 32 && input[14] == 87 && input[15] == 111 &&
    input[16] == 114 && input[17] == 108 && input[18] == 100 && input[19] == 34 &&
    input[20] == 41 && input[21] == 59
  }

  /** A lookahead that is neither whitespace nor the start of an identifier or number is a one-byte token. */
  lemma SingleByteStep(input: seq<byte>, c: nat)
    requires !IsWhitespace(Look(input, c))
    requires !IsAlpha(Look(input, c)) && !IsDigit(Look(input, c))
    ensures Next(input, c) == Step(Token([Look(input, c)], FirstByteKind(Look(input, c))), c + 1)
  {
    assert ScanWhile(input, c, Blank) == c;
  }

  /** Tokens from a cursor within the input whose next step is known: that token, then the tokens after it. */
  lemma TokensStep(input: seq<byte>, c: nat, t: Token, d: nat)
    requires c <= |input| && Next(input, c) == Step(t, d)
    ensures Tokens(input, c) == [t] + Tokens(input, d)
  {
  }

  /**
   * The cursor a lexer rests at after its last token: one past the cursor
   * that follows the last byte, or two past it when the input ends in
   * whitespace, because the final EOF token is then read after the blanks.
   */
  function EndCursor(input: seq<byte>): nat
  {
    if |input| > 0 && IsWhitespace(input[|input| - 1]) then |input| + 2 else |input| + 1
  }

  /**
   * A step from a cursor within the input never goes beyond EndCursor, and a
   * step that passes the end of the input lands exactly on it.
   */
  lemma NextEnd(input: seq<byte>, c: nat)
    requires c <= |input|
    ensures Next(input, c).cursor <= EndCursor(input)
    ensures Next(input, c).cursor > |input| ==> Next(input, c).cursor == EndCursor(input)
  {
    var k := ScanWhile(input, c, Blank);
    if c < k {
      assert InClass(Blank, Look(input, k - 1));
    }
  }

  /** A known first token in front of known tokens from the cursor after it. */
  lemma Prepend(input: seq<byte>, c: nat, d: nat, t: Token, rest: seq<Token>)
    requires Tokens(input, c) == [t] + Tokens(input, d) && Tokens(input, d) == rest
    ensures Tokens(input, c) == [t] + rest
  {
  }

  lemma HelloPrint(input: seq<byte>)
    requires HelloBytes(input)
    ensures Tokens(input, 1) == [Token([112, 114, 105, 110, 116], Identifier)] + Tokens(input, 6)
  {
    assert ScanWhile(input, 6, Word) == 6;
    assert ScanWhile(input, 5, Word) == 6;
    assert ScanWhile(input, 4, Word) == 6;
    assert ScanWhile(input, 3, Word) == 6;
    assert ScanWhile(input, 2, Word) == 6;
    assert ScanWhile(input, 1, Word) == 6;
    assert ScanWhile(input, 1, Blank) == 1;
    TokensStep(input, 1, Token([112, 114, 105, 110, 116], Identifier), 6);
  }

  lemma HelloHello(input: seq<byte>)
    requires HelloBytes(input)
    ensures Tokens(input, 8) == [Token([72, 101, 108, 108, 111], Identifier)] + Tokens(input, 13)
  {
    assert ScanWhile(input, 13, Word) == 13;
    assert ScanWhile(input, 12, Word) == 13;
    assert ScanWhile(input, 11, Word) == 13;
    assert ScanWhile(input, 10, Word) == 13;
    assert ScanWhile(input, 9, Word) == 13;
    assert ScanWhile(input, 8, Word) == 13;
    assert ScanWhile(input, 8, Blank) == 8;
    TokensStep(input, 8, Token([72, 101, 108, 108, 111], Identifier), 13);
  }

  /** The blank at cursor 14 is skipped; `World` follows. */
  lemma HelloWorldWord(input: seq<byte>)
    requires HelloBytes(input)
    ensures Tokens(input, 14) == [Token([87, 111, 114, 108, 100], Identifier)] + Tokens(input, 20)
  {
    assert ScanWhile(input, 15, Blank) == 15;
    assert ScanWhile(input, 14, Blank) == 15;
    assert ScanWhile(input, 20, Word) == 20;
    assert ScanWhile(input, 19, Word) == 20;
    assert ScanWhile(input, 18, Word) == 20;
    assert ScanWhile(input, 17, Word) == 20;
    assert ScanWhile(input, 16, Word) == 20;
    assert ScanWhile(input, 15, Word) == 20;
    TokensStep(input, 14, Token([87, 111, 114, 108, 100], Identifier), 20);
  }

  lemma HelloSymbol(input: seq<byte>, c: nat, b: byte, kind: TokenType)
    requires HelloBytes(input)
    requires c in {6, 7, 13, 20, 21, 22} && b == input[c - 1] && kind == FirstByteKind(b)
    ensures Tokens(input, c) == [Token([b], kind)] + Tokens(input, c + 1)
  {
    SingleByteStep(input, c);
    TokensStep(input, c, Token([b], kind), c + 1);
  }

  /** `(` at cursor 6 is a token by itself. */
  lemma HelloLParen(input: seq<byte>)
    requires HelloBytes(input)
    ensures Tokens(input, 6) == [Token([40], LParen)] + Tokens(input, 7)
  {
    HelloSymbol(input, 6, 40, LParen);
  }

  /** `"` at cursor 7 is a token by itself. */
  lemma HelloOpenQuote(input: seq<byte>)
    requires HelloBytes(input)
    ensures Tokens(input, 7) == [Token([34], DQuotes)] + Tokens(input, 8)
  {
    HelloSymbol(input, 7, 34, DQuotes);
  }

  /** `,` at cursor 13 is a token by itself. */
  lemma HelloComma(input: seq<byte>)
    requires HelloBytes(input)
    ensures Tokens(input, 13) == [Token([44], Comma)] + Tokens(input, 14)
  {
    HelloSymbol(input, 13, 44, Comma);
  }

  /** `"` at cursor 20 is a token by itself. */
  lemma HelloCloseQuote(input: seq<byte>)
    requires HelloBytes(input)
    ensures Tokens(input, 20) == [Token([34], DQuotes)] + Tokens(input, 21)
  {
    HelloSymbol(input, 20, 34, DQuotes);
  }

  /** `)` at cursor 21 is a token by itself. */
  lemma HelloRParen(input: seq<byte>)
    requires HelloBytes(input)
    ensures Tokens(input, 21) == [Token([41], RParen)] + Tokens(input, 22)
  {
    HelloSymbol(input, 21, 41, RParen);
  }

  /** `;` at cursor 22 is a token by itself. */
  lemma HelloSemicolon(input: seq<byte>)
    requires HelloBytes(input)
    ensures Tokens(input, 22) == [Token([59], Semicolon)] + Tokens(input, 23)
  {
    HelloSymbol(input, 22, 59, Semicolon);
  }

  /** From cursor 22: `;`, after which the cursor is past the end. */
  lemma HelloFrom22(input: seq<byte>)
    requires HelloBytes(input)
    ensures Tokens(input, 22) == [Token([59], Semicolon)]
  {
    HelloSemicolon(input);
    assert Tokens(input, 23) == [];
  }

  /** From cursor 21: `)`, then the tokens from cursor 22. */
  lemma HelloFrom21(input: seq<byte>)
    requires HelloBytes(input)
    ensures Tokens(input, 21) == [Token([41], RParen), Token([59], Semicolon)]
  {
    HelloRParen(input);
    HelloFrom22(input);
  }

  /** From cursor 20: `"`, then the tokens from cursor 21. */
  lemma HelloFrom20(input: seq<byte>)
    requires HelloBytes(input)
    ensures Tokens(input, 20) == [Token([34], DQuotes), Token([41], RParen), Token([59], Semicolon)]
  {
    HelloCloseQuote(input);
    HelloFrom21(input);
    Prepend(input, 20, 21, Token([34], DQuotes), [Token([41], RParen), Token([59], Semicolon)]);
  }

  /** From cursor 14: ` World`, then the tokens from cursor 20. */
  lemma HelloFrom14(input: seq<byte>)
    requires HelloBytes(input)
    ensures Tokens(input, 14) == [
      Token([87, 111, 114, 108, 100], Identifier), Token([34], DQuotes), Token([41], RParen),
      Token([59], Semicolon)]
  {
    HelloWorldWord(input);
    HelloFrom20(input);
    Prepend(input, 14, 20, Token([87, 111, 114, 108, 100], Identifier), [Token([34], DQuotes), Token([41], RParen),
      Token([59], Semicolon)]);
  }

  /** From cursor 13: `,`, then the tokens from cursor 14. */
  lemma HelloFrom13(input: seq<byte>)
    requires HelloBytes(input)
    ensures Tokens(input, 13) == [
      Token([44], Comma), Token([87, 111, 114, 108, 100], Identifier), Token([34], DQuotes),
      Token([41], RParen), Token([59], Semicolon)]
  {
    HelloComma(input);
    HelloFrom14(input);
    Prepend(input, 13, 14, Token([44], Comma), [Token([87, 111, 114, 108, 100], Identifier), Token([34], DQuotes),
      Token([41], RParen), Token([59], Semicolon)]);
  }

  /** From cursor 8: `Hello`, then the tokens from cursor 13. */
  lemma HelloFrom8(input: seq<byte>)
    requires HelloBytes(input)
    ensures Tokens(input, 8) == [
      Token([72, 101, 108, 108, 111], Identifier), Token([44], Comma), Token([87, 111, 114, 108, 100], Identifier),
      Token([34], DQuotes), Token([41], RParen), Token([59], Semicolon)]
  {
    HelloHello(input);
    HelloFrom13(input);
    Prepend(input, 8, 13, Token([72, 101, 108, 108, 111], Identifier), [Token([44], Comma), Token([87, 111, 114, 108, 100], Identifier),
      Token([34], DQuotes), Token([41], RParen), Token([59], Semicolon)]);
  }

  /** From cursor 7: `"`, then the tokens from cursor 8. */
  lemma HelloFrom7(input: seq<byte>)
    requires HelloBytes(input)
    ensures Tokens(input, 7) == [
      Token([34], DQuotes), Token([72, 101, 108, 108, 111], Identifier), Token([44], Comma),
      Token([87, 111, 114, 108, 100], Identifier), Token([34], DQuotes), Token([41], RParen),
      Token([59], Semicolon)]
  {
    HelloOpenQuote(input);
    HelloFrom8(input);
    Prepend(input, 7, 8, Token([34], DQuotes), [Token([72, 101, 108, 108, 111], Identifier), Token([44], Comma),
      Token([87, 111, 114, 108, 100], Identifier), Token([34], DQuotes), Token([41], RParen),
      Token([59], Semicolon)]);
  }

  /** From cursor 6: `(`, then the tokens from cursor 7. */
  lemma HelloFrom6(input: seq<byte>)
    requires HelloBytes(input)
    ensures Tokens(input, 6) == [
      Token([40], LParen), Token([34], DQuotes), Token([72, 101, 108, 108, 111], Identifier),
      Token([44], Comma), Token([87, 111, 114, 108, 100], Identifier), Token([34], DQuotes),
      Token([41], RParen), Token([59], Semicolon)]
  {
    HelloLParen(input);
    HelloFrom7(input);
    Prepend(input, 6, 7, Token([40], LParen), [Token([34], DQuotes), Token([72, 101, 108, 108, 111], Identifier),
      Token([44], Comma), Token([87, 111, 114, 108, 100], Identifier), Token([34], DQuotes),
      Token([41], RParen), Token([59], Semicolon)]);
  }

  /** The ten tokens of the example; the cursor goes 1, 6, 7, 8, 13, 14, 20, 21, 22 and stops at 23. */
  lemma HelloTokens(input: seq<byte>)
    requires HelloBytes(input)
    ensures Tokenize(input) == [
        Token([0], Eof), Token([112, 114, 105, 110, 116], Identifier), Token([40], LParen),
        Token([34], DQuotes), Token([72, 101, 108, 108, 111], Identifier), Token([44], Comma),
        Token([87, 111, 114, 108, 100], Identifier), Token([34], DQuotes), Token([41], RParen),
        Token([59], Semicolon)]
  {
    HelloPrint(input);
    HelloFrom6(input);
    FreshStart(input);
  }

  /**
   * `print("Hello, World");` gives ten tokens: the leading EOF, then one per
   * lexeme, and no trailing EOF since the input ends in ';'.
   */
  lemma HelloWorld()
    ensures Tokenize(AsciiBytes("print(\"Hello, World\");")) == [
      Token([0], Eof),
      Token(AsciiBytes("print"), Identifier),
      Token(AsciiBytes("("), LParen),
      Token(AsciiBytes("\""), DQuotes),
      Token(AsciiBytes("Hello"), Identifier),
      Token(AsciiBytes(","), Comma),
      Token(AsciiBytes("World"), Identifier),
      Token(AsciiBytes("\""), DQuotes),
      Token(AsciiBytes(")"), RParen),
      Token(AsciiBytes(";"), Semicolon)]
  {
    HelloAscii();
    HelloTokens(AsciiBytes("print(\"Hello, World\");"));
    HelloWords();
  }

  lemma HelloAscii()
    ensures HelloBytes(AsciiBytes("print(\"Hello, World\");"))
  {
  }

  lemma HelloWords()
    ensures AsciiBytes("print") == [112, 114, 105, 110, 116]
    ensures AsciiBytes("Hello") == [72, 101, 108, 108, 111]
    ensures AsciiBytes("World") == [87, 111, 114, 108, 100]
    ensures AsciiBytes("(") == [40] && AsciiBytes(")") == [41] && AsciiBytes("\"") == [34]
    ensures AsciiBytes(",") == [44] && AsciiBytes(";") == [59]
  {
  }
}
