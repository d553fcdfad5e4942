# molgy lexer, modelled in Dafny

This project models the lexer of the molgy language. The lexer has two parts:

- **`Lexer`** (`src/lexer/lexer.rs`) is a single-pass byte scanner. Its state is the input bytes, a
  cursor, and a one-byte lookahead `character`.
  - `read_char` is the only step that advances the cursor.
  - `remove_whitespace`, `get_identifier` and `get_number` read on while the lookahead stays in a byte class.
  - `next_token` classifies the lookahead. After an identifier or a number it steps the cursor back by one.
  - `get_tokens` calls `next_token` until the cursor passes the end of the input.
- **`TokenType` / `Token`** (`src/lexer/token.rs`) are the closed set of token kinds, the
  value+kind pair, and their textual display.

The project has three modules:

- `Token` (`token.dfy`) holds the token data model and its rendering. It is pure.
- `Scanning` (`scanning.dfy`) is a pure reference definition of what the lexer computes. It works
  as functions of the input and the cursor, with lemmas about the token sequence.
  - `Next` gives one token and the cursor after it.
  - `Tokens` gives every token from a cursor on.
  - `Tokenize` gives the output of a fresh lexer.
- `Lexer` (`lexer.dfy`) is the lexer itself: a class whose fields are the lexer's state, with one
  method per Rust method. Each method's loops carry invariants, and each method is proved against the
  `Scanning` functions.

Between operations the lexer keeps one invariant, `Synced`: the lookahead is the byte just before
the cursor, or 0 when the cursor is 0 or past the end. It holds for a new lexer and after every
`read_char`. Because of it, the step back after an identifier or number is correct and cannot
underflow. In Dafny, `cursor` is a `nat`, so each decrement is checked to stay non-negative.

Two behaviours of the code are reproduced as written:

- **Leading EOF.** The lookahead starts as 0, so the first token is always `EOF` with value NUL.
- **Trailing EOF.** A trailing `EOF` appears only when the input ends in whitespace or a NUL byte
  (`TrailingEof`). An input that ends in `;` ends with the `SEMICOLON` token, as the test at
  `src/lexer/lexer.rs:129-140` expects. So a trailing EOF does not always follow a non-empty
  input: the code produces one only when the last byte is whitespace or NUL.

The scanner uses `TokenType::COLON` (`src/lexer/lexer.rs:77`) and `TokenType::DQUOTES`
(`src/lexer/lexer.rs:79`). The enum (`src/lexer/token.rs:4-23`) and its display
(`src/lexer/token.rs:27-40`) declare neither. The model adds them as `Colon` and `DQuotes`, so
there are 14 kinds. Their display is not given by the source, so the model renders them by their
variant names, `COLON` and `DQUOTES`.

Values are byte sequences. `char::from(u8)` turns each byte into the one character with that code,
and `Text` renders a value the same way.

## Model

| member | source | states |
|---|---|---|
| Token.Name | src/lexer/token.rs:25-41 | Every kind's display is its upper-case name: 3 to 10 capital letters. |
| Token.NameRoundTrip | src/lexer/token.rs:27-40 | The display is injective: each kind can be read back from its name (KindNamed). |
| Token.NamesDistinct | src/lexer/token.rs:25-41 | Distinct kinds render to distinct names. |
| Token.New | src/lexer/token.rs:56-60 | `Token::new` stores the value and the kind unchanged, with no check that they fit each other. |
| Token.NewEqualIff | src/lexer/token.rs:44-48 | Token equality is structural. Two tokens are equal exactly when value and kind are. A different value, as in the test at src/lexer/token.rs:69-74, makes them unequal. |
| Token.AsciiBytes | src/lexer/lexer.rs:12 | `into_bytes` of an ASCII text gives one byte per character, with that character's code. |
| Token.Text | src/lexer/lexer.rs:25 | `char::from(u8)` maps each byte to the character with that code, one to one. |
| Token.PadLeft | src/lexer/token.rs:52 | `{:>n}` right-aligns in a field of n characters: the result has length max(len, n), ends with the text, and begins with spaces. A longer text is not truncated. |
| Token.PadLeftSpaces | src/lexer/token.rs:52 | A padded field is exactly the missing number of spaces, then the text itself. |
| Token.RenderAsWritten | src/lexer/token.rs:50-54 | The token's display as the code writes it. The line is max(len, 10) + 13 + the name's length characters long, and it ends with the kind's name. RenderAsWrittenLayout gives it piece by piece. |
| Token.RenderAsWrittenLayout | src/lexer/token.rs:50-54 | The display as written, piece by piece: `Value: `, spaces, the value flush right in a column of max(len, 10), ` Type:`, then the kind's name with no spaces before it. It equals the intended line with the 20 characters of the kind column replaced by the bare name. |
| Token.Render | src/lexer/token.rs:50-54 | The token's display as intended, with the kind's name right-aligned in 20 columns. The line is max(len, 10) + 33 characters long. RenderLayout gives it piece by piece. |
| Token.RenderLayout | src/lexer/token.rs:50-54 | The intended layout, piece by piece: `Value: `, spaces, the value flush right in a column of max(len, 10), ` Type:`, spaces, and the kind's name flush right in a column of 20. The line is max(len, 10) + 33 characters long. |
| Token.Pieces | src/lexer/token.rs:52 | The same layout for any value text and any name of at most 20 characters. |
| Token.RenderAsWrittenIsShort | src/lexer/token.rs:52 | As written, the rendering is shorter than the intended layout by exactly 20 minus the name's length. The kind column is never padded. |
| Token.RenderAsWrittenSemicolon | src/lexer/token.rs:52 | For the token `;`/SEMICOLON the code writes 32 characters where the intended layout has 43. |
| Scanning.ScanWhile | src/lexer/lexer.rs:15-41 | A "read while in class" loop stops at the first cursor whose lookahead is not in the class. Every lookahead before it is in the class, and it never goes past the cursor after the last byte. |
| Scanning.Span | src/lexer/lexer.rs:21-41 | The accumulated value of `get_identifier`/`get_number` is exactly the lookaheads read, in order. |
| Scanning.FirstByteKind | src/lexer/lexer.rs:59-83 | Classification by the first byte. A letter, and nothing else, starts an IDENTIFIER. A digit, and nothing else, starts a NUMBER. 0, and nothing else, is EOF. The bytes `{ } ( ) = + ; : , "` each have their own kind. Every other byte, including a leading `_` and any byte from 0x80 on, is ILLEGAL. |
| Scanning.SymbolKindsDistinct | src/lexer/lexer.rs:70-79 | Two different symbol bytes never get the same kind. |
| Scanning.Next | src/lexer/lexer.rs:54-91 | One `next_token` call always advances the cursor, so the loop in `get_tokens` terminates. |
| Scanning.NextSpec | src/lexer/lexer.rs:54-91 | What one token is. Whitespace is skipped, and the first lookahead after it decides the kind. An identifier or a number is the longest run of its class starting there (maximal munch): the lookahead after it cannot extend it. Every other token is that one byte, and the cursor moves just past it. The token is well formed. |
| Scanning.Tokens | src/lexer/lexer.rs:93-101 | The loop's output from a cursor is empty exactly when the cursor has passed the end. Otherwise it holds at most one token per remaining cursor position. |
| Scanning.TokensWellFormed | src/lexer/lexer.rs:93-101 | Every token the loop produces is well formed. An identifier starts with a letter and continues with letters and `_`. A number is all digits. Every other token is the one byte that decided its kind. |
| Scanning.Tokenize | src/lexer/lexer.rs:11-13 | A fresh lexer's output starts with EOF with value NUL and has between 1 and len+1 tokens. |
| Scanning.FreshStart | src/lexer/lexer.rs:12 | The first token of a fresh lexer is EOF/NUL, and lexing then goes on from cursor 1. |
| Scanning.EmptyInput | src/lexer/lexer.rs:93-101 | Empty input gives exactly `[EOF "\0"]`. |
| Scanning.RunTokenCovers | src/lexer/lexer.rs:59-69 | An identifier or number token accounts for exactly the bytes it was read from. |
| Scanning.ByteTokenCovers | src/lexer/lexer.rs:70-87 | A one-byte token accounts for its byte. Its value counts unless it is EOF. |
| Scanning.NextCovers | src/lexer/lexer.rs:54-91 | One token accounts for exactly the visible bytes between its start cursor and the cursor after it. The whitespace it skips contributes nothing. |
| Scanning.TokensCover | src/lexer/lexer.rs:55-90 | No byte is skipped or duplicated. From any cursor, the values of the non-EOF tokens, concatenated in order, equal the rest of the input without its whitespace and NUL bytes. |
| Scanning.TokenizeCovers | src/lexer/lexer.rs:93-101 | The same for a whole run. For input with no NUL byte, this is the input with its whitespace removed. |
| Scanning.LastOfTokens | src/lexer/lexer.rs:80 | From a cursor inside the input, the last token is EOF exactly when the input ends in whitespace or NUL. |
| Scanning.TrailingEof | src/lexer/lexer.rs:93-101 | A fresh lexer's output has an EOF after the leading one as its last token exactly when the input ends in whitespace or a NUL byte. |
| Scanning.SingleByteStep | src/lexer/lexer.rs:70-87 | A lookahead that is neither blank nor a letter nor a digit becomes a token of that one byte, and the cursor moves by one. |
| Scanning.NextEnd | src/lexer/lexer.rs:54-101 | A `next_token` call from a cursor within the input never takes the cursor beyond len+1, or len+2 when the input ends in whitespace (the final EOF is read after the trailing blanks). A call that passes the end lands exactly there. |
| Scanning.TokensStep | src/lexer/lexer.rs:95-98 | One iteration of the loop in `get_tokens`: the token of the next step, then the tokens after it. |
| Scanning.HelloPrint | src/lexer/lexer.rs:131 | On `print("Hello, World");` the token from cursor 1 is `print`, and the cursor moves to 6. |
| Scanning.HelloHello | src/lexer/lexer.rs:134 | On the same input, `Hello` is read from cursor 8 up to 13. |
| Scanning.HelloWorldWord | src/lexer/lexer.rs:136 | The blank at cursor 14 is skipped and `World` is read up to cursor 20. |
| Scanning.HelloSymbol | src/lexer/lexer.rs:132-139 | Each punctuation byte of the example is a token by itself. |
| Scanning.HelloLParen | src/lexer/lexer.rs:132 | `(` at cursor 6 is one LPAREN token. |
| Scanning.HelloOpenQuote | src/lexer/lexer.rs:133 | `"` at cursor 7 is one DQUOTES token. |
| Scanning.HelloComma | src/lexer/lexer.rs:135 | `,` at cursor 13 is one COMMA token. |
| Scanning.HelloCloseQuote | src/lexer/lexer.rs:137 | `"` at cursor 20 is one DQUOTES token. |
| Scanning.HelloRParen | src/lexer/lexer.rs:138 | `)` at cursor 21 is one RPAREN token. |
| Scanning.HelloSemicolon | src/lexer/lexer.rs:139 | `;` at cursor 22 is one SEMICOLON token. |
| Scanning.HelloFrom22 | src/lexer/lexer.rs:139-140 | From cursor 22 the only token is `;`. The cursor then passes the end, so no trailing EOF follows. |
| Scanning.HelloFrom21 | src/lexer/lexer.rs:138-140 | The tokens from cursor 21. |
| Scanning.HelloFrom20 | src/lexer/lexer.rs:137-140 | From cursor 20 the tokens are `"`, `)`, `;`. |
| Scanning.HelloFrom14 | src/lexer/lexer.rs:136-139 | The tokens from cursor 14. |
| Scanning.HelloFrom13 | src/lexer/lexer.rs:135-139 | The tokens from cursor 13. |
| Scanning.HelloFrom8 | src/lexer/lexer.rs:134-139 | The tokens from cursor 8. |
| Scanning.HelloFrom7 | src/lexer/lexer.rs:133-139 | The tokens from cursor 7. |
| Scanning.HelloFrom6 | src/lexer/lexer.rs:132-139 | The tokens from cursor 6. |
| Scanning.HelloTokens | src/lexer/lexer.rs:129-140 | Any input holding those bytes gives exactly the ten expected tokens. |
| Scanning.HelloAscii | src/lexer/lexer.rs:125 | The bytes of `print("Hello, World");`. |
| Scanning.HelloWords | src/lexer/lexer.rs:130-139 | The bytes of the expected values. |
| Scanning.HelloWorld | src/lexer/lexer.rs:123-143 | `print("Hello, World");` lexes to EOF/NUL, print, (, ", Hello, ",", World, ", ), ; — ten tokens and no trailing EOF. |
| Lexer.Lexer.Synced | src/lexer/lexer.rs:43-89 | The invariant between operations: the lookahead is `input[cursor - 1]` when 1 <= cursor <= len, and 0 otherwise. read_char (lines 43-52) re-establishes it from any state. So after the step back at lines 62 and 67, the read_char at line 89 loads the boundary byte again. |
| Lexer.Lexer.constructor | src/lexer/lexer.rs:11-13 | A new lexer has cursor 0, lookahead 0, input equal to the content bytes, and is Synced. |
| Lexer.Lexer.ReadChar | src/lexer/lexer.rs:43-52 | The lookahead becomes `input[cursor]`, or 0 when the cursor is at or past the end. The cursor rises by exactly 1 and the input is constant. Afterwards the lexer is Synced, whatever its state before. |
| Lexer.Lexer.RemoveWhitespace | src/lexer/lexer.rs:15-19 | The cursor stops where ScanWhile(Blank) stops, and never moves back. On return the lookahead is not ASCII whitespace. |
| Lexer.Lexer.GetIdentifier | src/lexer/lexer.rs:21-30 | Returns the maximal run of letters and `_` read from the lookahead on (the Span up to ScanWhile(Word)). On return the lookahead is the first byte that cannot extend it. |
| Lexer.Lexer.GetNumber | src/lexer/lexer.rs:32-41 | Returns the maximal run of digits, on the same terms. |
| Lexer.Lexer.NextToken | src/lexer/lexer.rs:54-91 | The token and the new cursor are exactly `Next` of the old cursor. The step back at lines 62 and 67 never underflows, and the lexer stays Synced. |
| Lexer.Lexer.GetTokens | src/lexer/lexer.rs:93-101 | The loop terminates with the cursor past the end. It returns exactly `Tokens` from the starting cursor. The final state is fixed: from a cursor within the input, the cursor ends at len+1, or at len+2 when the input ends in whitespace; from a cursor already past the end, nothing changes. |
| Lexer.NewLexersEqual | src/lexer/lexer.rs:104-121 | Two new lexers are field-by-field equal exactly when their contents are equal. |
| Lexer.Lex | src/bin/main.rs:45-47 | A new lexer's `get_tokens` returns `Tokenize` of the content. So every property proved of `Tokenize` holds for the lexer's output. |

## Findings

| source | as written | input that shows it | evidently intended | confidence | as-written member | corrected member |
|---|---|---|---|---|---|---|
| src/lexer/token.rs:52 (with 27-40) | `{:>20}` formats the kind, but the kind's `Display` writes its name with `write!`, which ignores the requested width and fill. The kind is printed unpadded. | Token `;`/SEMICOLON renders as `Value:          ; Type:SEMICOLON`, 32 characters | The name right-aligned in 20 columns, 43 characters in all | high, not executed | Token.RenderAsWritten, Token.RenderAsWrittenLayout, Token.RenderAsWrittenSemicolon, Token.RenderAsWrittenIsShort | Token.Render, Token.RenderLayout |

## Left out

- `src/bin/main.rs` is not part of this model, apart from the two lines that build a lexer and take its tokens (`Lex`). The argument-count check, the `.molgy` suffix check, reading the file and printing the tokens are command-line plumbing and I/O.
- Machine integers: `cursor` is a `usize`, and it is modelled as an unbounded `nat`. Wrap-around at 2^64 cannot be reached by any input that fits in memory.
- UTF-8: the content is a Rust `String`, so its bytes are valid UTF-8. The model accepts any byte sequence, which includes every valid one.
- A token value built from a byte from 0x80 on is a one-character string in Rust, which UTF-8 stores in two bytes. The model keeps the byte itself, the same one-to-one view that `Text` renders.
- `String` allocation and concatenation in `get_identifier`/`get_number` are modelled as appending to a sequence.
- The `Debug` derives are left out. They produce only diagnostic text.
- The `Lexer` equality derived in Rust is modelled as `SameState`, a field-by-field comparison, because Dafny compares class instances by reference.
- Lexer.Lexer.ReadChar: the `input` field is a `const`, so "never changes the input" is enforced by its declaration rather than stated in an `ensures`.
