/**
 * The lexer (lexer.py): ordered-alternative prefix matching over eleven fixed
 * patterns, with row/column bookkeeping, whitespace removal and a final EOF token.
 *
 * Each regular expression of the source's priority table is written out as a
 * hand-made prefix matcher.  `Lex` is the specification of the whole scan; the
 * class `Lexer` keeps the source's fields and its methods are proved against it.
 */
module JsonLexer {
  import opened Wrappers

  datatype TokenType =
    | Whitespace | Lbrace | Rbrace | Lbracket | Rbracket | Colon | Comma
    | Boolean | String | Number | Null | EOF

  /** Where a token was recorded.  Rows count from 1; a newline token sits in column 0. */
  datatype TokenPos = TokenPos(row: int, col: int)

  datatype Token = Token(ttype: TokenType, value: string, pos: TokenPos)

  /** The position a fresh lexer starts from. */
  const Start := TokenPos(1, 1)

  /** The patterns in the order they are tried at every offset (EOF has no pattern). */
  const TokenTypes: seq<TokenType> :=
    [Whitespace, Lbrace, Rbrace, Lbracket, Rbracket, Colon, Comma, Boolean, String, Number, Null]

  /** The index of a kind in the priority list. */
  function Priority(k: TokenType): (i: nat)
    requires k != EOF
    ensures i < |TokenTypes| && TokenTypes[i] == k
  {
    match k
    case Whitespace => 0
    case Lbrace => 1
    case Rbrace => 2
    case Lbracket => 3
    case Rbracket => 4
    case Colon => 5
    case Comma => 6
    case Boolean => 7
    case String => 8
    case Number => 9
    case Null => 10
  }

  /** Priority is the inverse of indexing the priority list. */
  lemma PriorityAt(i: nat)
    requires i < |TokenTypes|
    ensures TokenTypes[i] != EOF && Priority(TokenTypes[i]) == i
  {
    assert TokenTypes[i] in TokenTypes;
    assert TokenTypes[Priority(TokenTypes[i])] == TokenTypes[i];
  }

  datatype LexError = UnknownPattern(pos: TokenPos)

  predicate IsWhitespaceChar(c: char)
  {
    c == ' ' || c == '\n' || c == '\t' || c == '\r'
  }

  predicate IsDigit(c: char)
  {
    '0' <= c <= '9'
  }

  /** Whether `text` is a lexeme the pattern of kind `k` can produce. */
  predicate IsLexeme(k: TokenType, text: string)
  {
    match k
    case Whitespace => |text| == 1 && IsWhitespaceChar(text[0])
    case Lbrace => text == "{"
    case Rbrace => text == "}"
    case Lbracket => text == "["
    case Rbracket => text == "]"
    case Colon => text == ":"
    case Comma => text == ","
    case Boolean => text == "true" || text == "false"
    case String =>
      2 <= |text| && text[0] == '"' && text[|text| - 1] == '"'
      && forall i :: 0 < i < |text| - 1 ==> text[i] != '"'
    case Number => 1 <= |text| && forall i :: 0 <= i < |text| ==> IsDigit(text[i])
    case Null => text == "null"
    case EOF => false
  }

  // ---------------------------------------------------------------------------
  // The eleven patterns as prefix matchers.  Each returns the length of the
  // prefix of `s` it matches.

  /** A fixed word such as `{` or `null`. */
  function MatchWord(w: string, s: string): (r: Option<nat>)
    ensures r.Some? <==> |w| <= |s| && s[..|w|] == w
    ensures r.Some? ==> r.value == |w|
  {
    if |w| <= |s| && s[..|w|] == w then Some(|w|) else None
  }

  /** `true|false`: the first alternative is tried first. */
  function MatchBoolean(s: string): (r: Option<nat>)
    ensures r.Some? <==> (4 <= |s| && s[..4] == "true") || (5 <= |s| && s[..5] == "false")
    ensures r.Some? ==> r.value <= |s| && (s[..r.value] == "true" || s[..r.value] == "false")
  {
    if MatchWord("true", s).Some? then MatchWord("true", s) else MatchWord("false", s)
  }

  /** The first index at or after `i` holding a double quote. */
  function FindQuote(s: string, i: nat): (r: Option<nat>)
    requires i <= |s|
    decreases |s| - i
    ensures r.Some? ==> i <= r.value < |s| && s[r.value] == '"'
    ensures r.Some? ==> forall k :: i <= k < r.value ==> s[k] != '"'
    ensures r.None? ==> forall k :: i <= k < |s| ==> s[k] != '"'
  {
    if i == |s| then None
    else if s[i] == '"' then Some(i)
    else FindQuote(s, i + 1)
  }

  /** `"[^"]*"`: from a quote to the next quote, with no escapes. */
  function MatchString(s: string): (r: Option<nat>)
    ensures r.Some? <==> 0 < |s| && s[0] == '"' && exists k :: 0 < k < |s| && s[k] == '"'
    ensures r.Some? ==> 2 <= r.value <= |s| && IsLexeme(String, s[..r.value])
  {
    if 0 < |s| && s[0] == '"' then
      match FindQuote(s, 1)
      case Some(j) => Some(j + 1)
      case None => None
    else None
  }

  /** The end of the run of digits that starts at `i`. */
  function DigitRun(s: string, i: nat): (r: nat)
    requires i <= |s|
    decreases |s| - i
    ensures i <= r <= |s|
    ensures forall k :: i <= k < r ==> IsDigit(s[k])
    ensures r < |s| ==> !IsDigit(s[r])
  {
    if i < |s| && IsDigit(s[i]) then DigitRun(s, i + 1) else i
  }

  /** `[0-9]+`: the longest non-empty run of digits. */
  function MatchNumber(s: string): (r: Option<nat>)
    ensures r.Some? <==> 0 < |s| && IsDigit(s[0])
    ensures r.Some? ==> 1 <= r.value <= |s| && forall k :: 0 <= k < r.value ==> IsDigit(s[k])
    ensures r.Some? && r.value < |s| ==> !IsDigit(s[r.value])
  {
    if 0 < |s| && IsDigit(s[0]) then Some(DigitRun(s, 0)) else None
  }

  /** The pattern of kind `k` applied at the front of `s`. */
  function MatchPattern(k: TokenType, s: string): (r: Option<nat>)
    ensures r.Some? ==> 1 <= r.value <= |s| && IsLexeme(k, s[..r.value])
  {
    match k
    case Whitespace => if 0 < |s| && IsWhitespaceChar(s[0]) then Some(1) else None
    case Lbrace => MatchWord("{", s)
    case Rbrace => MatchWord("}", s)
    case Lbracket => MatchWord("[", s)
    case Rbracket => MatchWord("]", s)
    case Colon => MatchWord(":", s)
    case Comma => MatchWord(",", s)
    case Boolean => MatchBoolean(s)
    case String => MatchString(s)
    case Number => MatchNumber(s)
    case Null => MatchWord("null", s)
    case EOF => None
  }

  datatype Match = Match(kind: TokenType, len: nat)

  /** The first pattern, from index `i` of the priority list on, that matches a prefix of `s`. */
  function FirstMatchFrom(s: string, i: nat): (r: Option<Match>)
    requires i <= |TokenTypes|
    decreases |TokenTypes| - i
    ensures r.Some? ==> r.value.kind != EOF && 1 <= r.value.len <= |s|
  {
    if i == |TokenTypes| then None
    else match MatchPattern(TokenTypes[i], s)
      case Some(n) => Some(Match(TokenTypes[i], n))
      case None => FirstMatchFrom(s, i + 1)
  }

  /** The token the scan takes at the front of `s`: the first pattern in priority order that matches. */
  function FirstMatch(s: string): (r: Option<Match>)
    ensures r.Some? ==> r.value.kind != EOF && 1 <= r.value.len <= |s|
  {
    FirstMatchFrom(s, 0)
  }

  /** What the first matching pattern found is a match of that pattern, and so a lexeme of its kind. */
  lemma {:induction false} FirstMatchFromPattern(s: string, i: nat)
    requires i <= |TokenTypes|
    ensures var r := FirstMatchFrom(s, i);
      r.Some? ==> MatchPattern(r.value.kind, s) == Some(r.value.len) && IsLexeme(r.value.kind, s[..r.value.len])
    decreases |TokenTypes| - i
  {
    if i < |TokenTypes| && MatchPattern(TokenTypes[i], s).None? {
      FirstMatchFromPattern(s, i + 1);
    }
  }

  // ---------------------------------------------------------------------------
  // Position bookkeeping.

  /** Where a token with text `text` is recorded when the lexer stands at `p`. */
  function Recorded(p: TokenPos, text: string): TokenPos
  {
    if text == "\n" then TokenPos(p.row + 1, 0) else p
  }

  /** The position just after a token recorded at `q`: its column plus its length. */
  function After(q: TokenPos, text: string): TokenPos
  {
    TokenPos(q.row, q.col + |text|)
  }

  /** The token taken for match `m` at the front of `s` when the lexer stands at `p`, and the position after it. */
  function TakeToken(m: Match, s: string, p: TokenPos): (Token, TokenPos)
    requires m.len <= |s|
  {
    var text := s[..m.len];
    var q := Recorded(p, text);
    (Token(m.kind, text, q), After(q, text))
  }

  // ---------------------------------------------------------------------------
  // The whole scan, as a specification.

  /** The tokens scanned so far (whitespace included) and the position reached. */
  type Scan = Result<(seq<Token>, TokenPos), LexError>

  /** `pre` followed by the tokens of a scan; an error stays an error. */
  function Prefixed(pre: seq<Token>, r: Scan): Scan
  {
    match r
    case Ok((ts, e)) => Ok((pre + ts, e))
    case Err(x) => Err(x)
  }

  /** Scans `s` starting at position `p`: the token of the first matching pattern, then the rest. */
  function Lex(s: string, p: TokenPos): Scan
    decreases |s|
  {
    if s == [] then Ok(([], p))
    else match FirstMatch(s)
      case None => Err(UnknownPattern(p))
      case Some(m) =>
        var (token, next) := TakeToken(m, s, p);
        Prefixed([token], Lex(s[m.len..], next))
  }

  /** Gluing two runs of tokens in front of a scan, one after the other or at once, is the same. */
  lemma PrefixedTwice(a: seq<Token>, b: seq<Token>, r: Scan)
    ensures Prefixed(a, Prefixed(b, r)) == Prefixed(a + b, r)
  {
    if r.Ok? {
      assert a + (b + r.value.0) == (a + b) + r.value.0;
    }
  }

  /** The list comprehension that drops whitespace tokens. */
  function NonWhitespace(ts: seq<Token>): (r: seq<Token>)
    ensures |r| <= |ts|
  {
    if ts == [] then []
    else (if ts[0].ttype == Whitespace then [] else [ts[0]]) + NonWhitespace(ts[1..])
  }

  /** The end-of-input token, placed one column past the final position. */
  function EofToken(e: TokenPos): Token
  {
    Token(EOF, "\0", TokenPos(e.row, e.col + 1))
  }

  /** What `tokenize` returns for a finished scan. */
  function Finish(r: Scan): Result<seq<Token>, LexError>
  {
    match r
    case Ok((ts, e)) => Ok(NonWhitespace(ts) + [EofToken(e)])
    case Err(x) => Err(x)
  }

  /** The token list a fresh lexer produces for `json`. */
  function Tokenized(json: string): Result<seq<Token>, LexError>
  {
    Finish(Lex(json, Start))
  }

  /** The `for` loop of `_next_token`: tries the patterns in priority order and stops at the first match. */
  method FindFirstMatch(rest: string) returns (found: Option<Match>)
    ensures found == FirstMatch(rest)
  {
    var i := 0;
    while i < |TokenTypes|
      invariant 0 <= i <= |TokenTypes|
      invariant FirstMatchFrom(rest, i) == FirstMatch(rest)
    {
      var m := MatchPattern(TokenTypes[i], rest);
      if m.Some? {
        return Some(Match(TokenTypes[i], m.value));
      }
      i := i + 1;
    }
    return None;
  }

  // ---------------------------------------------------------------------------
  // The lexer object.

  /** The outcome of one `_next_token` call: a token was taken, the input is exhausted, or no pattern matched. */
  datatype StepResult = Advanced | Done | Stuck(pos: TokenPos)

  class Lexer {
    const json: string
    var rawPos: nat
    var tokenList: seq<Token>
    var tokenPos: TokenPos

    ghost predicate Valid()
      reads this
    {
      rawPos <= |json|
    }

    /** The scan still to come, glued after the tokens already recorded. */
    ghost function Pending(): Scan
      reads this
      requires Valid()
    {
      Prefixed(tokenList, Lex(json[rawPos..], tokenPos))
    }

    constructor (json: string)
      ensures Valid()
      ensures this.json == json && rawPos == 0 && tokenList == [] && tokenPos == Start
    {
      this.json := json;
      rawPos := 0;
      tokenList := [];
      tokenPos := Start;
    }

    /** Takes one token at `rawPos`: the first pattern in priority order that matches wins. */
    method NextToken() returns (r: StepResult)
      requires Valid()
      modifies this
      ensures Valid()
      ensures old(rawPos) == |json| ==> r == Done && unchanged(this)
      ensures old(rawPos) < |json| && FirstMatch(old(json[rawPos..])).None? ==>
        r == Stuck(old(tokenPos)) && unchanged(this)
      ensures old(rawPos) < |json| && FirstMatch(old(json[rawPos..])).Some? ==>
        var m := FirstMatch(old(json[rawPos..])).value;
        var (token, next) := TakeToken(m, old(json[rawPos..]), old(tokenPos));
        && r == Advanced
        && rawPos == old(rawPos) + m.len
        && tokenList == old(tokenList) + [token]
        && tokenPos == next
    {
      if rawPos >= |json| {
        return Done;
      }
      var rest := json[rawPos..];
      var found := FindFirstMatch(rest);
      match found
      case None =>
        return Stuck(tokenPos);
      case Some(m) =>
        var text := rest[..m.len];
        if text == "\n" {
          tokenPos := TokenPos(tokenPos.row + 1, 0);
        }
        var token := Token(m.kind, text, tokenPos);
        rawPos := rawPos + m.len;
        tokenList := tokenList + [token];
        tokenPos := TokenPos(tokenPos.row, tokenPos.col + |text|);
        return Advanced;
    }

    /** Drops the whitespace tokens from the list, keeping the order of the others. */
    method ExcludeWhitespaces()
      modifies this
      ensures tokenList == NonWhitespace(old(tokenList))
      ensures rawPos == old(rawPos) && tokenPos == old(tokenPos)
    {
      tokenList := NonWhitespace(tokenList);
    }

    /** The EOF token: the text `"\0"`, one column past where the lexer stands. */
    function CreateEofToken(): (t: Token)
      reads this
      ensures t.ttype == EOF && t.value == "\0"
      ensures t.pos.row == tokenPos.row && t.pos.col == tokenPos.col + 1
    {
      EofToken(tokenPos)
    }

    /** Scans the rest of the input, drops whitespace and appends EOF. */
    method Tokenize() returns (r: Result<seq<Token>, LexError>)
      requires Valid()
      modifies this
      ensures Valid()
      ensures r == Finish(old(Pending()))
      ensures r.Ok? ==> rawPos == |json| && tokenList == r.value
      ensures r.Ok? ==> old(Pending()).value.1 == tokenPos
    {
      while true
        invariant Valid()
        invariant Pending() == old(Pending())
        decreases |json| - rawPos
      {
        ghost var s := json[rawPos..];
        ghost var p := tokenPos;
        ghost var before := tokenList;
        var step := NextToken();
        match step
        case Done =>
          break;
        case Stuck(pos) =>
          return Err(UnknownPattern(pos));
        case Advanced =>
          ghost var m := FirstMatch(s).value;
          ghost var (token, next) := TakeToken(m, s, p);
          assert s[m.len..] == json[rawPos..];
          assert Lex(s, p) == Prefixed([token], Lex(json[rawPos..], next));
          PrefixedTwice(before, [token], Lex(json[rawPos..], next));
      }
      assert json[rawPos..] == [];
      assert tokenList + [] == tokenList;
      assert old(Pending()) == Ok((tokenList, tokenPos));
      ExcludeWhitespaces();
      tokenList := tokenList + [CreateEofToken()];
      return Ok(tokenList);
    }
  }
}
