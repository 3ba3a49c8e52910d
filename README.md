# A verified model of a small JSON front end

The system is a JSON lexer and recursive-descent parser written in Python.

- **Lexer** (`lexer.py`). `Lexer.tokenize` scans a string by ordered-alternative prefix matching over eleven fixed patterns. It records a row/column position for every token. It then drops the whitespace tokens and appends one EOF token.
- **Parser** (`parser.py`). It pops tokens from the front of a shared list and builds a syntax tree for this grammar:
  - `Expr := Literal | '[' List | '{' Object`
  - `List := (Expr (',' Expr)*)? ']'`
  - `Object := (Attribute (',' Attribute)*)? '}'`
  - `Attribute := String ':' Expr`
- **Syntax tree** (`_ast_.py`). It defines literal, list, object and attribute nodes, each tagged with its node kind.

The model is organised as follows:

- `wrappers.dfy` holds `Option` and `Result`. Every `exit(1)` of the source becomes an `Err` value.
- `ast.dfy` (module `JsonAst`) has the syntax tree as datatypes. `Expr` has one constructor per expression node. `Attribute` is a separate datatype that can only sit in an object's body.
- `lexer.dfy` (module `JsonLexer`) has:
  - the token types, the priority list of patterns, and one hand-written prefix matcher per regular expression;
  - `Lex`, the specification of the whole scan;
  - a class `Lexer` with the source's fields (`json`, `rawPos`, `tokenList`, `tokenPos`). Its methods `NextToken`, `ExcludeWhitespaces` and `Tokenize` are proved against `Lex`, `NonWhitespace` and `Finish`.
- `lexer_facts.dfy` (module `LexerFacts`) holds what is proved about the scan:
  - the first matching pattern in priority order wins;
  - the token texts concatenate back to the input;
  - the exact position bookkeeping;
  - whitespace removal;
  - the shape of the returned list;
  - scanning glued-together lexemes gives them back.
- `parser.dfy` (module `JsonParser`) has:
  - the parsing functions `ExprAt`, `ListRest`, `ObjectRest`, `AttributeAt` and `LiteralAt` over a token sequence, each returning the value and the tokens left;
  - a class `Parser` whose `tokens` field is the source's global token list. Each of its methods (`At`, `Eat`, `Expect`, `ParseExpr`, `ParseList`, `ParseObject`, `ParseAttribute`, `ParseLiteral`) is proved to agree with the matching function;
  - `ProduceAst`, which runs a fresh `Lexer` and a `Parser`.
- `grammar.dfy` (module `JsonGrammar`) renders a tree as the lexemes of its compact JSON text (`Lexemes`). It proves that the parser and this renderer are inverse to each other on tokens:
  - tokens spelling `Lexemes(e)` parse to `e`, whatever follows;
  - whatever the parser accepts spells the lexemes of what it built.

  The separator rule, the order of elements, that leftover tokens are never read, and that the grammar is unambiguous all follow from these two lemmas.
- `roundtrip.dfy` (module `JsonRoundTrip`) lifts this to text. Rendering a valid tree and running `produce_ast` gives the tree back. Every tree `produce_ast` returns is valid. Rendering is injective. A successful parse never takes the EOF token.
- `examples.dfy` (module `JsonExamples`) works through concrete inputs:
  - accepted texts;
  - each of the parser's error paths;
  - the lexer's failure;
  - the empty input;
  - a newline's position.

## Model

| member | source | states |
|---|---|---|
| JsonAst.KindOf | _ast_.py:22-54 | every expression node is tagged Literal, Object or List according to its constructor, both ways, and never Attribute |
| JsonAst.AttributeKindOf | _ast_.py:31-35 | an attribute's tag is one no expression node carries, so Attribute is not an expression kind |
| JsonLexer.Priority | lexer.py:36-48 | every token type but EOF has a place in the pattern priority list, and that place holds it |
| JsonLexer.PriorityAt | lexer.py:36-48 | the priority list holds no EOF, and the place of its i-th entry is i (no type is listed twice) |
| JsonLexer.MatchWord | lexer.py:38-47 | a fixed pattern (`{`, `}`, `[`, `]`, `:`, `,`, `null`) matches exactly when the input starts with its text, and takes that many characters |
| JsonLexer.MatchBoolean | lexer.py:44 | `true\|false` matches exactly when the input starts with `true` or `false`, and the match is one of those two words |
| JsonLexer.MatchString | lexer.py:45 | a string matches exactly when the input opens with a quote that is closed later; the match runs to the next quote, with no escapes |
| JsonLexer.MatchNumber | lexer.py:46 | a number matches exactly when the input starts with a digit; the match is all digits and is not followed by a digit (maximal) |
| JsonLexer.MatchPattern | lexer.py:36-48 | a match of any pattern is non-empty, fits in the input and is a lexeme of that pattern's kind |
| JsonLexer.FirstMatchFrom | lexer.py:75-78 | the pattern found is never EOF and takes between 1 and all remaining characters |
| JsonLexer.FirstMatch | lexer.py:75-78 | the token taken at an offset is never EOF and consumes at least one character, so the scan advances |
| JsonLexer.FirstMatchFromPattern | lexer.py:75-79 | what the scan takes is a match of the chosen pattern and a lexeme of its kind |
| JsonLexer.NonWhitespace | lexer.py:67-69 | filtering never lengthens the token list |
| JsonLexer.FindFirstMatch | lexer.py:75-78 | the loop over the patterns returns the first pattern in priority order that matches, or nothing |
| JsonLexer.Lexer.constructor | lexer.py:50-54 | a fresh lexer is at offset 0 with no tokens, at row 1, column 1 |
| JsonLexer.Lexer.NextToken | lexer.py:72-92 | at the end it reports Done and changes nothing; it is stuck at the current position when no pattern matches; otherwise it records the first match's token (a lone newline moves to the next row at column 0 first), advances the offset by the match length and the column past the token |
| JsonLexer.Lexer.ExcludeWhitespaces | lexer.py:67-69 | the token list becomes its whitespace-free filtering; offset and position are untouched |
| JsonLexer.Lexer.CreateEofToken | lexer.py:62-65 | the EOF token has kind EOF and text `"\0"`, at the current row and one column past the current column |
| JsonLexer.Lexer.Tokenize | lexer.py:56-60 | the result is the specified scan of the pending input, filtered, with the EOF token at the final position appended, or the scan's error; on success the whole input was consumed |
| LexerFacts.FirstMatchFromIsFirst | lexer.py:75-78 | from a given place in the priority list, every earlier pattern failed; no result means all remaining patterns fail |
| LexerFacts.FirstMatchIsFirst | lexer.py:75-78 | the scan is stuck exactly when no pattern matches; otherwise every pattern of higher priority than the chosen one fails |
| LexerFacts.LexStep | lexer.py:72-89 | a successful scan is the first match's token, recorded and positioned as the source does, followed by the scan of the rest |
| LexerFacts.LexSpellsInput | lexer.py:79-88 | before whitespace removal the token texts concatenate to exactly the input |
| LexerFacts.LexTokensAreLexemes | lexer.py:75-87 | every scanned token is a lexeme of its own kind (non-empty, never EOF) |
| LexerFacts.LexPositions | lexer.py:80-88 | each token is recorded where the previous one ended (moved to the next row at column 0 if it is a newline), and the scan ends just after the last token |
| LexerFacts.LexRows | lexer.py:80-84 | the final row is the start row plus the number of newline tokens, rows never decrease, and newlines inside a string do not count |
| LexerFacts.LexColumns | lexer.py:84-88 | without newline tokens the row stays and the column advances by the input's length |
| LexerFacts.NonWhitespaceAppend | lexer.py:67-69 | filtering distributes over concatenation, so relative order is kept |
| LexerFacts.NonWhitespaceMembers | lexer.py:67-69 | a token survives filtering exactly when it was present and is not whitespace |
| LexerFacts.NonWhitespaceKeeps | lexer.py:67-69 | a list without whitespace is unchanged by filtering |
| LexerFacts.NonWhitespaceDrops | lexer.py:67-69 | a list of whitespace tokens filters to nothing |
| LexerFacts.TokenizedShape | lexer.py:56-65 | the returned list ends with exactly one EOF token, `"\0"` one column past the final position; before it come the non-whitespace scanned tokens in order, none of them EOF or whitespace |
| LexerFacts.WhitespaceOnly | lexer.py:56-69 | empty or whitespace-only input yields exactly one token, EOF |
| LexerFacts.EmptyInput | lexer.py:22-24 | the empty input yields only EOF, at row 1, column 2 |
| LexerFacts.MatchStartsWith | lexer.py:36-48 | whatever a pattern matches starts with a character that pattern can start with |
| LexerFacts.LexemeStartsWith | lexer.py:36-48 | every lexeme starts with a character its own pattern can start with |
| LexerFacts.StartsWithUnique | lexer.py:36-48 | no character can start lexemes of two different kinds |
| LexerFacts.LexemeMatchesFirst | lexer.py:36-48 | in front of any text, a lexeme is taken whole and as its own kind, unless a number is followed by a digit |
| LexerFacts.LexJoin | lexer.py:72-89 | scanning the concatenation of delimited lexemes gives back exactly those lexemes |
| JsonParser.Expected | parser.py:18-23 | `expect(k)` succeeds exactly when the front token is of kind k, takes that one token, and otherwise fails naming k and the token found |
| JsonParser.LiteralAt | parser.py:82-95 | it succeeds exactly on string, number, boolean and null tokens and takes one token; string, number and boolean keep the raw lexeme as their value, null has none; anything else fails on that token |
| JsonParser.Separator | parser.py:51-52 | before the first element nothing is taken; before any later one a comma is required, and exactly that one token is taken |
| JsonParser.ExprAt | parser.py:32-44 | a successful parse takes at least one token from the front and leaves a suffix, and it only succeeds on a lookahead that starts an expression |
| JsonParser.ListRest | parser.py:46-56 | a successful list loop takes at least one token from the front and leaves a suffix |
| JsonParser.ObjectRest | parser.py:58-69 | a successful object loop takes at least one token from the front and leaves a suffix |
| JsonParser.AttributeAt | parser.py:71-80 | a successful attribute parse takes at least one token from the front and leaves a suffix |
| JsonParser.ListRestCloses | parser.py:50-54 | the last token the list loop takes is always `]` |
| JsonParser.ObjectRestCloses | parser.py:63-67 | the last token the object loop takes is always `}` |
| JsonParser.AttributeAtShape | parser.py:71-80 | an attribute is a string token, a colon and a value, named by the string's raw lexeme; a number, boolean or null as name is rejected as a bad key |
| JsonParser.Parser.constructor | parser.py:25-28 | the parser starts on the given token list |
| JsonParser.Parser.At | parser.py:11-12 | the lookahead is the front token and is present exactly when tokens remain |
| JsonParser.Parser.Eat | parser.py:14-16 | pops the front token, or fails on an empty list |
| JsonParser.Parser.Expect | parser.py:18-23 | pops the front token and returns it when it has the expected kind, else fails as `Expected` says |
| JsonParser.Parser.ParseExpr | parser.py:32-44 | returns what `ExprAt` specifies and leaves exactly the tokens it leaves |
| JsonParser.Parser.ParseList | parser.py:46-56 | the loop returns what `ListRest` specifies from the empty list, and leaves exactly its tokens |
| JsonParser.Parser.ParseObject | parser.py:58-69 | the loop returns what `ObjectRest` specifies from the empty body, and leaves exactly its tokens |
| JsonParser.Parser.ParseAttribute | parser.py:71-80 | returns what `AttributeAt` specifies and leaves exactly its tokens |
| JsonParser.Parser.ParseLiteral | parser.py:82-95 | returns what `LiteralAt` specifies and leaves exactly its tokens |
| JsonParser.ProduceAst | parser.py:25-30 | tokenizing with a fresh lexer and parsing one expression gives `AstOf(json)`; a lexer failure is reported as such |
| JsonGrammar.ExprAtLiteral | parser.py:33-35 | a literal-kind lookahead is handed to `parse_literal` |
| JsonGrammar.ExprAtList | parser.py:36-38 | `[` is taken and the list loop runs on the rest |
| JsonGrammar.ExprAtObject | parser.py:39-41 | `{` is taken and the object loop runs on the rest |
| JsonGrammar.ParseSpelled | parser.py:32-95 | tokens spelling the compact lexemes of a well-formed tree parse back to exactly that tree, leaving every token after them |
| JsonGrammar.ParseSpelledList | parser.py:46-56 | tokens spelling a list parse to that list, elements in order |
| JsonGrammar.ParseSpelledObject | parser.py:58-69 | tokens spelling an object parse to that object, attributes in order |
| JsonGrammar.ListRestSpelled | parser.py:50-54 | the list loop reads comma-separated elements up to `]` and appends them in order |
| JsonGrammar.ObjectRestSpelled | parser.py:63-67 | the object loop reads comma-separated attributes up to `}` and appends them in order |
| JsonGrammar.AttributeSpelled | parser.py:71-80 | tokens spelling an attribute parse back to it |
| JsonGrammar.ParsedSpells | parser.py:32-95 | whatever the parser accepts is well formed, and the tokens it took spell its compact lexemes: commas exactly between elements, closers matching openers |
| JsonGrammar.ListRestParsed | parser.py:46-56 | an accepted list loop took its elements' spellings, separated by commas, then `]` |
| JsonGrammar.ObjectRestParsed | parser.py:58-69 | an accepted object loop took its attributes' spellings, separated by commas, then `}` |
| JsonGrammar.AttributeParsed | parser.py:71-80 | an accepted attribute is well formed and the tokens taken spell it |
| JsonGrammar.ExprAtConsumesLexemes | parser.py:32-44 | a parse takes exactly as many tokens as its result has lexemes |
| JsonGrammar.SpelledPrefixParses | parser.py:32-44 | a spelled tree parses the same whatever tokens follow |
| JsonGrammar.ExprAtIgnoresRest | parser.py:25-30 | extra tokens after an accepted value change neither the value nor what it took |
| JsonGrammar.SpelledUnique | parser.py:32-44 | the grammar is unambiguous: two well-formed trees spelled by the same tokens are equal |
| JsonRoundTrip.TokenizedJoin | lexer.py:56-60 | tokenizing compact delimited lexemes gives exactly those lexemes, then EOF |
| JsonRoundTrip.LexemeFixed | lexer.py:38-47 | a lexeme of punctuation or `null` kind is its fixed text |
| JsonRoundTrip.TokenizedLexemes | lexer.py:56-89 | every token returned before EOF is a lexeme of its kind |
| JsonRoundTrip.TokenizedFixed | lexer.py:38-47 | every returned punctuation and null token carries its fixed text |
| JsonRoundTrip.RenderParses | parser.py:25-30 | `produce_ast` on the compact rendering of a valid tree returns that tree |
| JsonRoundTrip.ParsedIsValid | parser.py:25-30 | every tree `produce_ast` returns is valid, its input's tokens spell it, and rendering and parsing it again returns it |
| JsonRoundTrip.ParseLeavesEof | parser.py:25-30 | after a successful parse the tokens left are non-empty and still end with EOF: EOF is never taken |
| JsonRoundTrip.RenderInjective | parser.py:32-44 | two valid trees with the same rendering are equal |
| JsonExamples.ListOfNumbers | parser.py:46-56 | `[1,2]` gives a list of the numbers "1" then "2" |
| JsonExamples.ObjectWithList | parser.py:58-80 | `{"a":[null]}` gives an object whose attribute is named `"a"` with its quotes and holds a list of null |
| JsonExamples.TrailingComma | parser.py:50-53 | `[1,]` fails: after the comma an expression is due and `]` starts none |
| JsonExamples.ObjectTrailingComma | parser.py:63-66 | `{"a":1,}` fails: after the comma an attribute is due, and its name is read by `parse_literal`, which rejects `}` |
| JsonExamples.MissingComma | parser.py:18-23 | `[1 2]` fails in `expect`, which wanted a comma and found `2` |
| JsonExamples.NumberAsName | parser.py:71-75 | `{1:2}` fails because the attribute name is a number |
| JsonExamples.TrailingTokensIgnored | parser.py:25-30 | `1 2` gives the number "1": leftover tokens are not checked |
| JsonExamples.UnknownCharacter | lexer.py:91-92 | `-` fails in the lexer at row 1, column 1 |
| JsonExamples.EmptyText | parser.py:42-44 | the empty text fails in `parse_expr` on the EOF token at row 1, column 2 |
| JsonExamples.NewlinePosition | lexer.py:80-82 | after a single newline the EOF token is at row 2, column 2 |
| JsonExamples.UnclosedObjectTokens | lexer.py:56-65 | `{` tokenizes to the brace at row 1, column 1, then EOF at row 1, column 3 |
| JsonExamples.UnclosedObject | parser.py:82-95 | `{` fails: `parse_literal` takes the EOF token where an attribute name is due, and rejects it |

## Left out

- The `__main__` demonstration blocks and every `__repr__` are not modelled: they only print.
- The printed diagnostics and `exit(1)` are not modelled as such. Each becomes an `Err` value (`LexFailure`, `UnexpectedToken`, `InvalidAttributeKey`) carrying the kind expected and the token found, or the lexer's position.
- `parse_literal` prints the next token (`at()`) when it fails. The model's error carries the token that was taken instead, since the printed text is not modelled.
- The global `prev` is not modelled. `eat` assigns a local of that name, so the global is never updated and only feeds a printed message.
- Python's `re` engine is not modelled. Each of the eleven patterns is a hand-written prefix matcher with the same language.
- The numeric values of the enum members are not modelled; nothing depends on them.
- The attribute field `label` is called `name`, because `label` is a reserved word in Dafny.
- Calling `at()` on an empty token list raises `IndexError` in Python. From `produce_ast` this happens when `parse_literal` takes the EOF token, as for `{`, `[{` or `{"a":1,`: its failure message calls `at()` on the now-empty list (parser.py:94), so the process aborts with `IndexError` instead of printing. The model reports that abort as `UnexpectedToken` naming the EOF token (`JsonExamples.UnclosedObject`). Both are an abort with no tree, but the kind of failure differs. The model's `OutOfTokens` stands for `at()` or `eat()` on an empty list when the parse functions are given tokens without a final EOF.
- JsonParser.Parser.ParseExpr: after an error the contract does not say which tokens remain, because the source's process exits at that point. The same holds for `ParseList`, `ParseObject`, `ParseAttribute`, `ParseLiteral` and `Expect`.
- List aliasing is not modelled. The source creates `List(content)` and `Object(attributes)` before the loop and appends to the shared Python list. The model builds the sequence and wraps it at the end, which is the same final value.
- JsonGrammar.ParsedSpells holds only for token lists whose punctuation and `null` tokens carry their fixed text (`FixedSpelled`). Every list `tokenize` returns meets this (`TokenizedFixed`).
- Lexer.NextToken: a position's row and column are unbounded integers; Python integers are unbounded too, so nothing wraps.
- JsonRoundTrip.RenderParses and JsonRoundTrip.ParsedIsValid have no nesting bound. The source recurses once per nesting level: two frames per list (`parse_expr`, `parse_list`) and three per object (adding `parse_attribute`). Under CPython's default recursion limit of 1000, text nested more than roughly 500 lists or 330 objects deep aborts with `RecursionError`, for example `"["*500 + "]"*500`. So the round trip holds for the source only below that depth. The model has no recursion limit.
