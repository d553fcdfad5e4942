/**
 * The token data model of the molgy lexer: the closed set of token kinds,
 * the value+kind pair produced for each lexeme, and the textual rendering of
 * both (src/lexer/token.rs).
 */
module Token {

  /** A byte of the source text. */
  newtype byte = b: int | 0 <= b < 256

  datatype Option<T> = None | Some(value: T)

  /**
   * The token kinds. The first twelve are the ones the enum declares; Colon
   * and DQuotes are used by the scanner but missing from the enum, and are
   * added here under their variant names.
   */
  datatype TokenType =
    | Illegal | Eof
    // identifiers and literals
    | Identifier | Number
    // operators
    | Assign | Plus
    // delimiters
    | Comma | Semicolon | LParen | RParen | LCurly | RCurly
    | Colon | DQuotes

  /**
   * The display of a kind: its upper-case variant name. Every name is made of
   * capital letters and is at most ten characters long.
   */
  function Name(k: TokenType): (s: string)
    ensures 3 <= |s| <= 10
    ensures forall i :: 0 <= i < |s| ==> 'A' <= s[i] <= 'Z'
  {
    match k
    case Illegal => "ILLEGAL"
    case Eof => "EOF"
    case Identifier => "IDENTIFIER"
    case Number => "NUMBER"
    case Assign => "ASSIGN"
    case Plus => "PLUS"
    case Comma => "COMMA"
    case Semicolon => "SEMICOLON"
    case LParen => "LPAREN"
    case RParen => "RPAREN"
    case LCurly => "LCURLY"
    case RCurly => "RCURLY"
    case Colon => "COLON"
    case DQuotes => "DQUOTES"
  }

  /** The kind whose name is `s`, if any: the inverse of Name. */
  function KindNamed(s: string): Option<TokenType>
  {
    if s == "ILLEGAL" then Some(Illegal)
    else if s == "EOF" then Some(Eof)
    else if s == "IDENTIFIER" then Some(Identifier)
    else if s == "NUMBER" then Some(Number)
    else if s == "ASSIGN" then Some(Assign)
    else if s == "PLUS" then Some(Plus)
    else if s == "COMMA" then Some(Comma)
    else if s == "SEMICOLON" then Some(Semicolon)
    else if s == "LPAREN" then Some(LParen)
    else if s == "RPAREN" then Some(RParen)
    else if s == "LCURLY" then Some(LCurly)
    else if s == "RCURLY" then Some(RCurly)
    else if s == "COLON" then Some(Colon)
    else if s == "DQUOTES" then Some(DQuotes)
    else None
  }

  /** A kind can be read back from its name. */
  lemma NameRoundTrip(k: TokenType)
    ensures KindNamed(Name(k)) == Some(k)
  {
    match k
    case Illegal =>
    case Eof =>
    case Identifier =>
    case Number =>
    case Assign =>
    case Plus =>
    case Comma =>
    case Semicolon =>
    case LParen =>
    case RParen =>
    case LCurly =>
    case RCurly =>
    case Colon =>
    case DQuotes =>
  }

  /** Distinct kinds render to distinct names. */
  lemma NamesDistinct(a: TokenType, b: TokenType)
    ensures a != b ==> Name(a) != Name(b)
  {
    NameRoundTrip(a);
    NameRoundTrip(b);
  }

  /** A token: the exact lexeme it was made from and its kind. */
  datatype Token = Token(value: seq<byte>, kind: TokenType)

  /** Token::new pairs any value with any kind, unchanged and unchecked. */
  function New(value: seq<byte>, kind: TokenType): (t: Token)
    ensures t.value == value && t.kind == kind
  {
    Token(value, kind)
  }

  /** Token equality is structural: two tokens are equal exactly when value and kind are. */
  lemma NewEqualIff(v1: seq<byte>, k1: TokenType, v2: seq<byte>, k2: TokenType)
    ensures New(v1, k1) == New(v2, k2) <==> v1 == v2 && k1 == k2
  {
  }

  /** The bytes of an ASCII text; for ASCII, UTF-8 encodes each character as its own code. */
  function AsciiBytes(s: string): (b: seq<byte>)
    requires forall i :: 0 <= i < |s| ==> s[i] as int < 128
    ensures |b| == |s|
    ensures forall i :: 0 <= i < |s| ==> b[i] as int == s[i] as int
  {
    seq(|s|, i requires 0 <= i < |s| => s[i] as int as byte)
  }

  /** A token value as text: each byte becomes the character with that code. */
  function Text(v: seq<byte>): (s: string)
    ensures |s| == |v|
    ensures forall i :: 0 <= i < |v| ==> s[i] as int == v[i] as int
  {
    seq(|v|, i requires 0 <= i < |v| => v[i] as int as char)
  }

  function Max(a: int, b: int): int { if a < b then b else a }

  /**
   * Right-aligns `s` in a field of `width` characters, padding with spaces on
   * the left; a longer `s` is kept whole, never truncated.
   */
  function PadLeft(s: string, width: nat): (r: string)
    ensures |r| == Max(|s|, width)
    ensures r[|r| - |s|..] == s
    ensures forall i :: 0 <= i < |r| - |s| ==> r[i] == ' '
  {
    if |s| >= width then s else seq(width - |s|, _ => ' ') + s
  }

  /** A run of n spaces. */
  function Spaces(n: nat): (s: string)
    ensures |s| == n && forall i :: 0 <= i < n ==> s[i] == ' '
  {
    seq(n, _ => ' ')
  }

  /** A padded field is the missing number of spaces followed by the text itself. */
  lemma PadLeftSpaces(s: string, width: nat)
    ensures PadLeft(s, width) == Spaces(Max(|s|, width) - |s|) + s
  {
    var r := PadLeft(s, width);
    assert r[..|r| - |s|] == Spaces(Max(|s|, width) - |s|);
    assert r == r[..|r| - |s|] + r[|r| - |s|..];
  }

  /**
   * The token layout as the source writes it. The kind is formatted with a
   * width of 20, but the kind's display writes its name directly and so
   * ignores the requested width: the name is not padded.
   */
  function RenderAsWritten(t: Token): (r: string)
    ensures |r| == Max(|t.value|, 10) + 13 + |Name(t.kind)|
    ensures r[|r| - |Name(t.kind)|..] == Name(t.kind)
  {
    "Value: " + PadLeft(Text(t.value), 10) + " Type:" + Name(t.kind)
  }

  /**
   * The token layout as intended: "Value: ", the value right-aligned in 10
   * columns, " Type:", the kind's name right-aligned in 20 columns.
   */
  function Render(t: Token): (r: string)
    ensures |r| == Max(|t.value|, 10) + 33
  {
    "Value: " + PadLeft(Text(t.value), 10) + " Type:" + PadLeft(Name(t.kind), 20)
  }

  /**
   * The intended layout piece by piece, for a value column of width w (10,
   * or the value's length if that is more): "Value: ", spaces, the value flush
   * right in its column, " Type:", spaces, and the kind's name flush right in
   * a column of 20. The line is w + 33 characters long.
   */
  lemma RenderLayout(t: Token)
    ensures var w := Max(|t.value|, 10);
      var name := Name(t.kind);
      Render(t) == "Value: " + Spaces(w - |t.value|) + Text(t.value)
                 + " Type:" + Spaces(20 - |name|) + name &&
      |Render(t)| == w + 33
  {
    Pieces(Text(t.value), Name(t.kind));
  }

  /**
   * The source's layout piece by piece: "Value: ", spaces, the value flush
   * right in its column, " Type:", and the kind's name with no spaces before
   * it. It is the intended line with the padding of the kind column removed.
   */
  lemma RenderAsWrittenLayout(t: Token)
    ensures var w := Max(|t.value|, 10);
      RenderAsWritten(t) == "Value: " + Spaces(w - |t.value|) + Text(t.value) + " Type:" + Name(t.kind)
    ensures var r := Render(t);
      RenderAsWritten(t) == r[..|r| - 20] + Name(t.kind)
  {
    var head := "Value: " + PadLeft(Text(t.value), 10) + " Type:";
    PadLeftSpaces(Text(t.value), 10);
    assert head == "Value: " + Spaces(Max(|t.value|, 10) - |t.value|) + Text(t.value) + " Type:";
    var r := Render(t);
    assert r == head + PadLeft(Name(t.kind), 20);
    assert r[..|r| - 20] == head;
  }

  /** RenderLayout for any value text and any name that fits its column. */
  lemma Pieces(value: string, name: string)
    requires |name| <= 20
    ensures "Value: " + PadLeft(value, 10) + " Type:" + PadLeft(name, 20)
         == "Value: " + Spaces(Max(|value|, 10) - |value|) + value + " Type:" + Spaces(20 - |name|) + name
  {
    PadLeftSpaces(value, 10);
    PadLeftSpaces(name, 20);
    Regroup("Value: ", Spaces(Max(|value|, 10) - |value|), value, " Type:", Spaces(20 - |name|), name);
  }

  lemma Regroup(a: string, b: string, c: string, d: string, e: string, f: string)
    ensures a + (b + c) + d + (e + f) == a + b + c + d + e + f
  {
  }

  /** The source's layout is always shorter than the intended one: the kind column is never filled. */
  lemma RenderAsWrittenIsShort(t: Token)
    ensures |RenderAsWritten(t)| < |Render(t)|
    ensures |Render(t)| - |RenderAsWritten(t)| == 20 - |Name(t.kind)|
  {
  }

  /** The source's rendering of the test's final token is 32 characters, not the intended 43. */
  lemma RenderAsWrittenSemicolon()
    ensures |RenderAsWritten(Token([59], Semicolon))| == 32
    ensures |Render(Token([59], Semicolon))| == 43
  {
    assert |Name(Semicolon)| == 9;
  }
}
