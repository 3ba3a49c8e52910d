/**
 * What the scan guarantees: the texts of the tokens spell the input, each token
 * is the first pattern in priority order to match at its offset, the position
 * bookkeeping, the shape of the final token list, and the converse direction:
 * a run of lexemes glued together scans back into exactly those lexemes.
 */
module LexerFacts {
  import opened Wrappers
  import opened JsonLexer

  /** The texts of `ts`, concatenated. */
  function Texts(ts: seq<Token>): string
  {
    if ts == [] then [] else ts[0].value + Texts(ts[1..])
  }

  /** A token spelling a prefix of `s`, followed by tokens spelling the rest, spells `s`. */
  lemma TextsGlue(t: Token, ts: seq<Token>, s: string, len: nat)
    requires len <= |s| && t.value == s[..len] && Texts(ts) == s[len..]
    ensures Texts([t] + ts) == s
  {
    assert ([t] + ts)[1..] == ts;
    assert s == s[..len] + s[len..];
  }

  /** The number of tokens whose text is exactly one newline. */
  function NewlineCount(ts: seq<Token>): nat
  {
    if ts == [] then 0 else (if ts[0].value == "\n" then 1 else 0) + NewlineCount(ts[1..])
  }

  // ---------------------------------------------------------------------------
  // One step.

  /** `FirstMatchFrom(s, i)` takes the first pattern from index `i` of the priority list on that matches. */
  lemma {:induction false} FirstMatchFromIsFirst(s: string, i: nat)
    requires i <= |TokenTypes|
    ensures FirstMatchFrom(s, i).None? ==> forall j :: i <= j < |TokenTypes| ==> MatchPattern(TokenTypes[j], s).None?
    ensures FirstMatchFrom(s, i).Some? ==> i <= Priority(FirstMatchFrom(s, i).value.kind)
    ensures FirstMatchFrom(s, i).Some? ==>
      forall j :: i <= j < Priority(FirstMatchFrom(s, i).value.kind) ==> MatchPattern(TokenTypes[j], s).None?
    decreases |TokenTypes| - i
  {
    if i < |TokenTypes| {
      var m := MatchPattern(TokenTypes[i], s);
      if m.Some? {
        assert FirstMatchFrom(s, i) == Some(Match(TokenTypes[i], m.value));
        PriorityAt(i);
      } else {
        assert FirstMatchFrom(s, i) == FirstMatchFrom(s, i + 1);
        FirstMatchFromIsFirst(s, i + 1);
      }
    }
  }

  /** The first pattern in priority order wins: every pattern before it fails, and the scan is stuck only when all fail. */
  lemma FirstMatchIsFirst(s: string)
    ensures FirstMatch(s).None? <==> forall k :: k != EOF ==> MatchPattern(k, s).None?
    ensures FirstMatch(s).Some? ==>
      forall k :: k != EOF && Priority(k) < Priority(FirstMatch(s).value.kind) ==> MatchPattern(k, s).None?
  {
    FirstMatchFromIsFirst(s, 0);
    if FirstMatch(s).None? {
      forall k | k != EOF
        ensures MatchPattern(k, s).None?
      {
        assert MatchPattern(TokenTypes[Priority(k)], s).None?;
      }
    } else {
      forall k | k != EOF && Priority(k) < Priority(FirstMatch(s).value.kind)
        ensures MatchPattern(k, s).None?
      {
        assert MatchPattern(TokenTypes[Priority(k)], s).None?;
      }
    }
  }

  /** Unfolds `Lex` once when a pattern matches at the front. */
  lemma LexUnfold(s: string, p: TokenPos)
    requires s != [] && FirstMatch(s).Some?
    ensures var m := FirstMatch(s).value;
      var (token, next) := TakeToken(m, s, p);
      Lex(s, p) == Prefixed([token], Lex(s[m.len..], next))
  {
  }

  // ---------------------------------------------------------------------------
  // The whole scan.

  /** One step of a successful scan: the token the first matching pattern takes, then the scan of the rest. */
  lemma LexStep(s: string, p: TokenPos) returns (token: Token, len: nat, next: TokenPos)
    requires s != [] && Lex(s, p).Ok?
    ensures FirstMatch(s).Some? && FirstMatch(s).value.len == len && FirstMatch(s).value.kind == token.ttype
    ensures 1 <= len <= |s| && token.value == s[..len]
    ensures token.pos == Recorded(p, token.value) && next == After(token.pos, token.value)
    ensures Lex(s[len..], next).Ok?
    ensures Lex(s, p).value.0 == [token] + Lex(s[len..], next).value.0
    ensures Lex(s, p).value.1 == Lex(s[len..], next).value.1
  {
    var m := FirstMatch(s).value;
    token, next := TakeToken(m, s, p).0, TakeToken(m, s, p).1;
    len := m.len;
  }

  /** Before whitespace removal, the token texts concatenate back to exactly the input. */
  lemma {:induction false} LexSpellsInput(s: string, p: TokenPos)
    requires Lex(s, p).Ok?
    ensures Texts(Lex(s, p).value.0) == s
    decreases |s|
  {
    if s != [] {
      var token, len, next := LexStep(s, p);
      LexSpellsInput(s[len..], next);
      TextsGlue(token, Lex(s[len..], next).value.0, s, len);
    }
  }

  /** Every token is a lexeme of its own kind (so never EOF and never empty). */
  lemma {:induction false} LexTokensAreLexemes(s: string, p: TokenPos)
    requires Lex(s, p).Ok?
    ensures forall t :: t in Lex(s, p).value.0 ==> IsLexeme(t.ttype, t.value)
    decreases |s|
  {
    if s != [] {
      var token, len, next := LexStep(s, p);
      LexTokensAreLexemes(s[len..], next);
    }
  }

  /**
   * Position bookkeeping: each token is recorded where the lexer stands (a newline
   * token one row down, in column 0), and the lexer then stands its length further right.
   */
  lemma {:induction false} LexPositions(s: string, p: TokenPos)
    requires Lex(s, p).Ok?
    ensures var (ts, e) := Lex(s, p).value;
      && (ts == [] ==> e == p)
      && (ts != [] ==> ts[0].pos == Recorded(p, ts[0].value))
      && (forall i :: 0 <= i < |ts| - 1 ==> ts[i + 1].pos == Recorded(After(ts[i].pos, ts[i].value), ts[i + 1].value))
      && (ts != [] ==> e == After(ts[|ts| - 1].pos, ts[|ts| - 1].value))
    decreases |s|
  {
    if s != [] {
      var token, len, next := LexStep(s, p);
      LexPositions(s[len..], next);
      var (ts, e) := Lex(s, p).value;
      var rest := Lex(s[len..], next).value.0;
      forall i | 0 <= i < |ts| - 1
        ensures ts[i + 1].pos == Recorded(After(ts[i].pos, ts[i].value), ts[i + 1].value)
      {
        if i > 0 {
          assert ts[i] == rest[i - 1] && ts[i + 1] == rest[i];
        }
      }
    }
  }

  /**
   * Rows: only a token that is exactly one newline moves to the next row (a newline
   * inside a string does not), so rows never decrease along the token list.
   */
  lemma {:induction false} LexRows(s: string, p: TokenPos)
    requires Lex(s, p).Ok?
    ensures var (ts, e) := Lex(s, p).value;
      && e.row == p.row + NewlineCount(ts)
      && (forall i :: 0 <= i < |ts| ==> p.row <= ts[i].pos.row <= e.row)
      && (forall i, j :: 0 <= i <= j < |ts| ==> ts[i].pos.row <= ts[j].pos.row)
    decreases |s|
  {
    if s != [] {
      var token, len, next := LexStep(s, p);
      LexRows(s[len..], next);
      var (ts, e) := Lex(s, p).value;
      var rest := Lex(s[len..], next).value.0;
      assert ts[1..] == rest;
      forall i | 0 <= i < |ts|
        ensures p.row <= ts[i].pos.row <= e.row
      {
        if i > 0 {
          assert ts[i] == rest[i - 1];
        }
      }
      forall i, j | 0 <= i <= j < |ts|
        ensures ts[i].pos.row <= ts[j].pos.row
      {
        if i > 0 {
          assert ts[i] == rest[i - 1] && ts[j] == rest[j - 1];
        } else if j > 0 {
          assert ts[j] == rest[j - 1];
        }
      }
    }
  }

  /** Without a newline token the row stays and the column advances by the length of the input. */
  lemma {:induction false} LexColumns(s: string, p: TokenPos)
    requires Lex(s, p).Ok? && NewlineCount(Lex(s, p).value.0) == 0
    ensures Lex(s, p).value.1 == TokenPos(p.row, p.col + |s|)
    decreases |s|
  {
    if s != [] {
      var token, len, next := LexStep(s, p);
      assert Lex(s, p).value.0[1..] == Lex(s[len..], next).value.0;
      LexColumns(s[len..], next);
    }
  }

  // ---------------------------------------------------------------------------
  // Whitespace removal and the final token list.

  /** The filter keeps the relative order: filtering a concatenation concatenates the filtered parts. */
  lemma {:induction false} NonWhitespaceAppend(a: seq<Token>, b: seq<Token>)
    ensures NonWhitespace(a + b) == NonWhitespace(a) + NonWhitespace(b)
    decreases |a|
  {
    if a != [] {
      var head := if a[0].ttype == Whitespace then [] else [a[0]];
      calc {
        NonWhitespace(a + b);
        { assert (a + b)[0] == a[0] && (a + b)[1..] == a[1..] + b; }
        head + NonWhitespace(a[1..] + b);
        { NonWhitespaceAppend(a[1..], b); }
        head + (NonWhitespace(a[1..]) + NonWhitespace(b));
        (head + NonWhitespace(a[1..])) + NonWhitespace(b);
      }
    } else {
      assert a + b == b;
    }
  }

  /** The filter keeps exactly the tokens that are not whitespace. */
  lemma {:induction false} NonWhitespaceMembers(ts: seq<Token>)
    ensures forall t :: t in NonWhitespace(ts) <==> t in ts && t.ttype != Whitespace
    decreases |ts|
  {
    if ts != [] {
      NonWhitespaceMembers(ts[1..]);
      assert ts == [ts[0]] + ts[1..];
    }
  }

  /** A list without whitespace tokens passes the filter unchanged. */
  lemma {:induction false} NonWhitespaceKeeps(ts: seq<Token>)
    requires forall t :: t in ts ==> t.ttype != Whitespace
    ensures NonWhitespace(ts) == ts
    decreases |ts|
  {
    if ts != [] {
      NonWhitespaceKeeps(ts[1..]);
    }
  }

  /** A list of whitespace tokens filters to nothing. */
  lemma {:induction false} NonWhitespaceDrops(ts: seq<Token>)
    requires forall t :: t in ts ==> t.ttype == Whitespace
    ensures NonWhitespace(ts) == []
    decreases |ts|
  {
    if ts != [] {
      NonWhitespaceDrops(ts[1..]);
    }
  }

  /**
   * The token list `tokenize` returns holds no whitespace, keeps the scanned order,
   * and ends with exactly one EOF token, whose text is "\0" and which sits one
   * column past the final position.
   */
  lemma TokenizedShape(json: string)
    requires Tokenized(json).Ok?
    ensures var ts := Tokenized(json).value;
      && |ts| >= 1
      && ts[|ts| - 1] == EofToken(Lex(json, Start).value.1)
      && ts[|ts| - 1].ttype == EOF && ts[|ts| - 1].value == "\0"
      && (forall i :: 0 <= i < |ts| - 1 ==> ts[i].ttype != EOF && ts[i].ttype != Whitespace)
      && ts[..|ts| - 1] == NonWhitespace(Lex(json, Start).value.0)
  {
    var ts := Tokenized(json).value;
    var scanned := Lex(json, Start).value.0;
    LexTokensAreLexemes(json, Start);
    NonWhitespaceMembers(scanned);
    assert ts[..|ts| - 1] == NonWhitespace(scanned);
    forall i | 0 <= i < |ts| - 1
      ensures ts[i].ttype != EOF && ts[i].ttype != Whitespace
    {
      assert ts[i] in NonWhitespace(scanned);
    }
  }

  /** Input made only of whitespace (the empty input included) yields exactly one token: EOF. */
  lemma WhitespaceOnly(json: string)
    requires forall i :: 0 <= i < |json| ==> IsWhitespaceChar(json[i])
    ensures Tokenized(json).Ok? && |Tokenized(json).value| == 1
    ensures Tokenized(json).value[0].ttype == EOF
  {
    WhitespaceScan(json, Start);
    NonWhitespaceDrops(Lex(json, Start).value.0);
  }

  lemma {:induction false} WhitespaceScan(s: string, p: TokenPos)
    requires forall i :: 0 <= i < |s| ==> IsWhitespaceChar(s[i])
    ensures Lex(s, p).Ok?
    ensures forall t :: t in Lex(s, p).value.0 ==> t.ttype == Whitespace
    decreases |s|
  {
    if s != [] {
      var m := FirstMatch(s).value;
      assert MatchPattern(Whitespace, s) == Some(1);
      assert m == Match(Whitespace, 1);
      var (token, next) := TakeToken(m, s, p);
      WhitespaceScan(s[1..], next);
    }
  }

  /** The empty input: only the EOF token, at row 1, column 2. */
  lemma EmptyInput()
    ensures Tokenized("") == Ok([Token(EOF, "\0", TokenPos(1, 2))])
  {
    assert Lex("", Start) == Ok(([], Start));
    assert NonWhitespace([]) + [EofToken(Start)] == [Token(EOF, "\0", TokenPos(1, 2))];
  }

  // ---------------------------------------------------------------------------
  // The converse: lexemes glued together scan back into those lexemes.

  /** A token's kind and text, without its position. */
  datatype Lexeme = Lexeme(kind: TokenType, text: string)

  /** The texts of the lexemes, concatenated. */
  function Join(lxs: seq<Lexeme>): string
  {
    if lxs == [] then [] else lxs[0].text + Join(lxs[1..])
  }

  /** The first `|lxs|` tokens of `ts` have the kinds and texts of `lxs`. */
  predicate Spells(ts: seq<Token>, lxs: seq<Lexeme>)
    decreases lxs
  {
    |lxs| <= |ts| && (lxs == [] || (ts[0].ttype == lxs[0].kind && ts[0].value == lxs[0].text && Spells(ts[1..], lxs[1..])))
  }

  /**
   * Lexemes that scan back one by one: each is a lexeme of its kind, and no number is
   * directly followed by another number (the two would scan as one run of digits).
   */
  predicate Delimited(lxs: seq<Lexeme>)
  {
    && (forall i :: 0 <= i < |lxs| ==> IsLexeme(lxs[i].kind, lxs[i].text))
    && (forall i :: 0 <= i < |lxs| - 1 ==> !(lxs[i].kind == Number && lxs[i + 1].kind == Number))
  }

  /** Whether the pattern of kind `k` can match a text that starts with `c`. */
  predicate StartsWith(k: TokenType, c: char)
  {
    match k
    case Whitespace => IsWhitespaceChar(c)
    case Lbrace => c == '{'
    case Rbrace => c == '}'
    case Lbracket => c == '['
    case Rbracket => c == ']'
    case Colon => c == ':'
    case Comma => c == ','
    case Boolean => c == 't' || c == 'f'
    case String => c == '"'
    case Number => IsDigit(c)
    case Null => c == 'n'
    case EOF => false
  }

  /** The first character of a text decides the only pattern that can match it. */
  lemma MatchStartsWith(k: TokenType, s: string)
    requires MatchPattern(k, s).Some?
    ensures s != [] && StartsWith(k, s[0])
  {
    var n := MatchPattern(k, s).value;
    assert s[..n][0] == s[0];
  }

  /** A lexeme starts with a character its own pattern can start with. */
  lemma LexemeStartsWith(k: TokenType, text: string)
    requires IsLexeme(k, text)
    ensures text != [] && StartsWith(k, text[0])
  {
  }

  lemma StartsWithUnique(k1: TokenType, k2: TokenType, c: char)
    requires StartsWith(k1, c) && StartsWith(k2, c)
    ensures k1 == k2
  {
  }

  /** `FirstMatchFrom` finds the pattern at index `j` when none of `i..j` matched. */
  lemma {:induction false} FirstMatchFromFinds(s: string, i: nat, j: nat)
    requires i <= j < |TokenTypes|
    requires forall k :: i <= k < j ==> MatchPattern(TokenTypes[k], s).None?
    requires MatchPattern(TokenTypes[j], s).Some?
    ensures FirstMatchFrom(s, i) == Some(Match(TokenTypes[j], MatchPattern(TokenTypes[j], s).value))
    decreases j - i
  {
    if i < j {
      FirstMatchFromFinds(s, i + 1, j);
    }
  }

  /** A lexeme in front of a text is matched exactly, provided a number is not followed by a digit. */
  lemma LexemeMatchesFirst(k: TokenType, text: string, rest: string)
    requires IsLexeme(k, text)
    requires k == Number && rest != [] ==> !IsDigit(rest[0])
    ensures FirstMatch(text + rest) == Some(Match(k, |text|))
  {
    var s := text + rest;
    assert s[..|text|] == text;
    assert s[0] == text[0];
    match k {
      case String =>
      var q := FindQuote(s, 1);
      assert s[|text| - 1] == '"';
      assert q.Some? && q.value == |text| - 1 by {
        if q.None? || q.value != |text| - 1 {
          assert false;
        }
      }
    case Number =>
      var n := DigitRun(s, 0);
      assert n == |text|;
    case Boolean =>
      if text == "false" {
        assert s[..4] != "true" by { assert s[0] == 'f'; }
      }
      case _ =>
    }
    assert MatchPattern(k, s) == Some(|text|);
    forall j | 0 <= j < Priority(k)
      ensures MatchPattern(TokenTypes[j], s).None?
    {
      if MatchPattern(TokenTypes[j], s).Some? {
        MatchStartsWith(TokenTypes[j], s);
        StartsWithUnique(TokenTypes[j], k, s[0]);
      }
    }
    FirstMatchFromFinds(s, 0, Priority(k));
  }

  /** Scanning delimited lexemes glued together gives back exactly those lexemes. */
  lemma {:induction false} LexJoin(lxs: seq<Lexeme>, p: TokenPos)
    requires Delimited(lxs)
    ensures Lex(Join(lxs), p).Ok?
    ensures |Lex(Join(lxs), p).value.0| == |lxs| && Spells(Lex(Join(lxs), p).value.0, lxs)
    decreases |lxs|
  {
    if lxs != [] {
      var l := lxs[0];
      var rest := Join(lxs[1..]);
      var s := Join(lxs);
      assert s == l.text + rest;
      if l.kind == Number && rest != [] {
        assert |lxs| > 1;
        assert Join(lxs[1..]) == lxs[1].text + Join(lxs[2..]);
        assert rest[0] == lxs[1].text[0];
        LexemeStartsWith(lxs[1].kind, lxs[1].text);
        if IsDigit(rest[0]) {
          StartsWithUnique(lxs[1].kind, Number, rest[0]);
        }
      }
      LexemeMatchesFirst(l.kind, l.text, rest);
      var m := FirstMatch(s).value;
      assert s[m.len..] == rest;
      var (token, next) := TakeToken(m, s, p);
      assert Delimited(lxs[1..]);
      LexJoin(lxs[1..], next);
      var ts := Lex(s, p).value.0;
      assert ts == [token] + Lex(rest, next).value.0;
      assert ts[1..] == Lex(rest, next).value.0;
    }
  }
}
