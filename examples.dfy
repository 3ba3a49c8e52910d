/**
 * Concrete inputs and what `produce_ast` makes of them: accepted texts, each error
 * path of the parser, the lexer's failure, and the position bookkeeping.
 */
module JsonExamples {
  import opened Wrappers
  import opened JsonLexer
  import opened LexerFacts
  import opened JsonAst
  import opened JsonParser
  import opened JsonGrammar
  import opened JsonRoundTrip

  function NumberLit(text: string): Expr
  {
    Lit(Literal(LiteralType.Num, Some(text)))
  }

  /** Dropping the one whitespace token at index `k`. */
  lemma NonWhitespaceSkips(ts: seq<Token>, k: nat)
    requires k < |ts| && ts[k].ttype == Whitespace
    requires forall i :: 0 <= i < |ts| && i != k ==> ts[i].ttype != Whitespace
    ensures NonWhitespace(ts) == ts[..k] + ts[k + 1..]
  {
    NoWhitespaceAround(ts, k);
    NonWhitespaceDropsOne(ts[..k], ts[k], ts[k + 1..]);
    SplitAt(ts, k);
  }

  lemma NoWhitespaceAround(ts: seq<Token>, k: nat)
    requires k < |ts|
    requires forall i :: 0 <= i < |ts| && i != k ==> ts[i].ttype != Whitespace
    ensures forall t :: t in ts[..k] ==> t.ttype != Whitespace
    ensures forall t :: t in ts[k + 1..] ==> t.ttype != Whitespace
  {
    forall t | t in ts[..k] ensures t.ttype != Whitespace {
      var i :| 0 <= i < k && ts[..k][i] == t;
      assert t == ts[i];
    }
    forall t | t in ts[k + 1..] ensures t.ttype != Whitespace {
      var i :| 0 <= i < |ts| - k - 1 && ts[k + 1..][i] == t;
      assert t == ts[k + 1 + i];
    }
  }

  /** One whitespace token between two runs without whitespace is the only token dropped. */
  lemma NonWhitespaceDropsOne(before: seq<Token>, w: Token, after: seq<Token>)
    requires w.ttype == Whitespace
    requires forall t :: t in before ==> t.ttype != Whitespace
    requires forall t :: t in after ==> t.ttype != Whitespace
    ensures NonWhitespace(before + [w] + after) == before + after
  {
    NonWhitespaceAppend(before + [w], after);
    NonWhitespaceAppend(before, [w]);
    NonWhitespaceKeeps(before);
    NonWhitespaceKeeps(after);
    assert NonWhitespace([w]) == [];
    assert before + [] == before;
  }

  lemma SplitAt(ts: seq<Token>, k: nat)
    requires k < |ts|
    ensures ts[..k] + [ts[k]] + ts[k + 1..] == ts
  {
  }

  /** Every lexeme in the list is a lexeme of its kind. */
  predicate AllLexemes(lxs: seq<Lexeme>)
  {
    lxs == [] || (IsLexeme(lxs[0].kind, lxs[0].text) && AllLexemes(lxs[1..]))
  }

  lemma {:induction false} AllLexemesAt(lxs: seq<Lexeme>, i: nat)
    requires AllLexemes(lxs) && i < |lxs|
    ensures IsLexeme(lxs[i].kind, lxs[i].text)
    decreases i
  {
    if i > 0 {
      AllLexemesAt(lxs[1..], i - 1);
    }
  }

  lemma ValidByLexemes(e: Expr)
    requires WellFormed(e) && AllLexemes(Lexemes(e))
    ensures ValidJson(e)
  {
    forall i | 0 <= i < |Lexemes(e)|
      ensures IsLexeme(Lexemes(e)[i].kind, Lexemes(e)[i].text)
    {
      AllLexemesAt(Lexemes(e), i);
    }
  }

  /** A list of lexemes, none of them whitespace and no two numbers adjacent, is one the lexer reads back. */
  lemma DelimitedByLexemes(lxs: seq<Lexeme>)
    requires AllLexemes(lxs)
    requires forall i :: 0 <= i < |lxs| ==> lxs[i].kind != Whitespace && lxs[i].kind != EOF
    requires forall i :: 0 <= i < |lxs| - 1 ==> !(lxs[i].kind == Number && lxs[i + 1].kind == Number)
    ensures Delimited(lxs) && Compact(lxs)
  {
    forall i | 0 <= i < |lxs|
      ensures IsLexeme(lxs[i].kind, lxs[i].text)
    {
      AllLexemesAt(lxs, i);
    }
  }

  /** The kinds and texts of the first tokens of a spelling, written out. */
  lemma SpellsPrefix(ts: seq<Token>, lxs: seq<Lexeme>)
    requires Spells(ts, lxs) && |lxs| >= 4
    ensures ts[0].ttype == lxs[0].kind && ts[0].value == lxs[0].text
    ensures ts[1].ttype == lxs[1].kind && ts[1].value == lxs[1].text
    ensures ts[2].ttype == lxs[2].kind && ts[2].value == lxs[2].text
    ensures ts[3].ttype == lxs[3].kind && ts[3].value == lxs[3].text
  {
    SpellsAt(ts, lxs, 2);
    SpellsAt(ts, lxs, 3);
  }

  /** A list of two numbers. */
  lemma ListOfNumbers()
    ensures AstOf("[1,2]") == Ok(List([NumberLit("1"), NumberLit("2")]))
  {
    ListOfNumbersValid();
    RenderParses(List([NumberLit("1"), NumberLit("2")]));
  }

  lemma ListOfNumbersValid()
    ensures Render(List([NumberLit("1"), NumberLit("2")])) == "[1,2]"
    ensures ValidJson(List([NumberLit("1"), NumberLit("2")]))
  {
    ListOfNumbersLexemes();
    ListOfNumbersText();
    ValidFrom(List([NumberLit("1"), NumberLit("2")]), ListOfNumbersSeq());
  }

  function ListOfNumbersSeq(): seq<Lexeme>
  {
    [Lexeme(Lbracket, "["), Lexeme(Number, "1"), Lexeme(Comma, ","), Lexeme(Number, "2"), Lexeme(Rbracket, "]")]
  }

  lemma ListOfNumbersLexemes()
    ensures Lexemes(List([NumberLit("1"), NumberLit("2")])) == ListOfNumbersSeq()
  {
  }

  lemma ListOfNumbersText()
    ensures Join(ListOfNumbersSeq()) == "[1,2]" && AllLexemes(ListOfNumbersSeq())
  {
    JoinFive(Lexeme(Lbracket, "["), Lexeme(Number, "1"), Lexeme(Comma, ","), Lexeme(Number, "2"), Lexeme(Rbracket, "]"));
  }

  /** An object whose attribute names keep their quotes, with a nested list and null. */
  lemma ObjectWithList()
    ensures AstOf("{\"a\":[null]}") == Ok(Object([Attribute(List([Lit(Literal(LiteralType.Null, None))]), "\"a\"")]))
  {
    ObjectWithListValid();
    RenderParses(Object([Attribute(List([Lit(Literal(LiteralType.Null, None))]), "\"a\"")]));
  }

  lemma ObjectWithListValid()
    ensures Render(Object([Attribute(List([Lit(Literal(LiteralType.Null, None))]), "\"a\"")])) == "{\"a\":[null]}"
    ensures ValidJson(Object([Attribute(List([Lit(Literal(LiteralType.Null, None))]), "\"a\"")]))
  {
    var nul := Lit(Literal(LiteralType.Null, None));
    var a := Attribute(List([nul]), "\"a\"");
    var e := Object([a]);
    assert WellFormed(List([nul])) by {
      assert WellFormed(nul);
    }
    assert WellFormed(e) by {
      assert [a][0] == a;
    }
    ObjectWithListLexemes();
    ObjectWithListText();
    ObjectWithListChecked();
    ValidFrom(e, ObjectWithListSeq());
  }

  /** A well-formed tree whose lexemes are all lexemes of their kinds is valid and renders as their text. */
  lemma ValidFrom(e: Expr, lxs: seq<Lexeme>)
    requires WellFormed(e) && Lexemes(e) == lxs && AllLexemes(lxs)
    ensures ValidJson(e) && Render(e) == Join(lxs)
  {
    ValidByLexemes(e);
  }

  function ObjectWithListSeq(): seq<Lexeme>
  {
    [Lexeme(Lbrace, "{"), Lexeme(String, "\"a\""), Lexeme(Colon, ":"), Lexeme(Lbracket, "["),
      Lexeme(TokenType.Null, "null"), Lexeme(Rbracket, "]"), Lexeme(Rbrace, "}")]
  }

  lemma ObjectWithListText()
    ensures Join(ObjectWithListSeq()) == "{\"a\":[null]}"
  {
    var front := [Lexeme(Lbrace, "{"), Lexeme(String, "\"a\""), Lexeme(Colon, ":")];
    var back := [Lexeme(Lbracket, "["), Lexeme(TokenType.Null, "null"), Lexeme(Rbracket, "]"), Lexeme(Rbrace, "}")];
    assert ObjectWithListSeq() == front + back;
    JoinAppend(front, back);
    JoinThree(Lexeme(Lbrace, "{"), Lexeme(String, "\"a\""), Lexeme(Colon, ":"));
    JoinFour(Lexeme(Lbracket, "["), Lexeme(TokenType.Null, "null"), Lexeme(Rbracket, "]"), Lexeme(Rbrace, "}"));
  }

  /** Joining two runs of lexemes is joining each and concatenating the texts. */
  lemma {:induction false} JoinAppend(a: seq<Lexeme>, b: seq<Lexeme>)
    ensures Join(a + b) == Join(a) + Join(b)
  {
    if a == [] {
      assert a + b == b;
    } else {
      var tail := a[1..];
      JoinAppend(tail, b);
      assert a == [a[0]] + tail;
      assert a + b == [a[0]] + (tail + b);
      JoinCons(a[0], tail + b);
      JoinCons(a[0], tail);
      StringAssoc(a[0].text, Join(tail), Join(b));
    }
  }

  lemma StringAssoc(x: string, y: string, z: string)
    ensures x + (y + z) == (x + y) + z
  {
  }

  lemma JoinCons(l: Lexeme, rest: seq<Lexeme>)
    ensures Join([l] + rest) == l.text + Join(rest)
  {
    assert ([l] + rest)[1..] == rest;
  }

  lemma JoinOne(a: Lexeme)
    ensures Join([a]) == a.text
  {
    JoinCons(a, []);
    assert [a] + [] == [a];
  }

  lemma JoinTwo(a: Lexeme, b: Lexeme)
    ensures Join([a, b]) == a.text + b.text
  {
    JoinCons(a, [b]);
    JoinOne(b);
    assert [a] + [b] == [a, b];
  }

  lemma JoinThree(a: Lexeme, b: Lexeme, c: Lexeme)
    ensures Join([a, b, c]) == a.text + (b.text + c.text)
  {
    JoinCons(a, [b, c]);
    JoinTwo(b, c);
    assert [a] + [b, c] == [a, b, c];
  }

  lemma JoinFour(a: Lexeme, b: Lexeme, c: Lexeme, d: Lexeme)
    ensures Join([a, b, c, d]) == a.text + (b.text + (c.text + d.text))
  {
    JoinCons(a, [b, c, d]);
    JoinThree(b, c, d);
    assert [a] + [b, c, d] == [a, b, c, d];
  }

  lemma JoinFive(a: Lexeme, b: Lexeme, c: Lexeme, d: Lexeme, e: Lexeme)
    ensures Join([a, b, c, d, e]) == a.text + (b.text + (c.text + (d.text + e.text)))
  {
    JoinCons(a, [b, c, d, e]);
    JoinFour(b, c, d, e);
    assert [a] + [b, c, d, e] == [a, b, c, d, e];
  }


  lemma ObjectWithListChecked()
    ensures AllLexemes(ObjectWithListSeq())
  {
    assert IsLexeme(String, "\"a\"");
  }

  lemma ListBodySingle(x: Expr)
    ensures ListBody([x], false) == Lexemes(x)
  {
    assert [x][1..] == [];
    assert [] + Lexemes(x) + [] == Lexemes(x);
  }

  lemma ObjectBodySingle(a: Attribute)
    ensures ObjectBody([a], false) == AttributeLexemes(a)
  {
    assert [a][1..] == [];
    assert [] + AttributeLexemes(a) + [] == AttributeLexemes(a);
  }

  lemma ObjectWithListLexemes()
    ensures Lexemes(Object([Attribute(List([Lit(Literal(LiteralType.Null, None))]), "\"a\"")])) == ObjectWithListSeq()
  {
    var nul := Lit(Literal(LiteralType.Null, None));
    var inner := List([nul]);
    var a := Attribute(inner, "\"a\"");
    var middle := [Lexeme(String, "\"a\""), Lexeme(Colon, ":"), Lexeme(Lbracket, "["),
      Lexeme(TokenType.Null, "null"), Lexeme(Rbracket, "]")];
    assert Lexemes(inner) == [Lexeme(Lbracket, "["), Lexeme(TokenType.Null, "null"), Lexeme(Rbracket, "]")] by {
      ListBodySingle(nul);
    }
    assert AttributeLexemes(a) == middle;
    assert Lexemes(Object([a])) == [Lexeme(Lbrace, "{")] + middle + [Lexeme(Rbrace, "}")] by {
      ObjectBodySingle(a);
    }
  }

  /** The tokens of `[1,]`: the lexer accepts it. */
  lemma TrailingCommaTokens()
    ensures Tokenized("[1,]").Ok? && |Tokenized("[1,]").value| == 5
    ensures var ts := Tokenized("[1,]").value;
      && ts[0].ttype == Lbracket && ts[1].ttype == Number && ts[1].value == "1"
      && ts[2].ttype == Comma && ts[3].ttype == Rbracket
  {
    TrailingCommaText();
    TrailingCommaShape();
    TokenizedJoin(TrailingCommaSeq());
    SpellsPrefix(Tokenized("[1,]").value, TrailingCommaSeq());
  }

  function TrailingCommaSeq(): seq<Lexeme>
  {
    [Lexeme(Lbracket, "["), Lexeme(Number, "1"), Lexeme(Comma, ","), Lexeme(Rbracket, "]")]
  }

  lemma TrailingCommaText()
    ensures Join(TrailingCommaSeq()) == "[1,]"
  {
    JoinFour(Lexeme(Lbracket, "["), Lexeme(Number, "1"), Lexeme(Comma, ","), Lexeme(Rbracket, "]"));
  }

  lemma TrailingCommaShape()
    ensures Delimited(TrailingCommaSeq()) && Compact(TrailingCommaSeq())
  {
    var lxs := TrailingCommaSeq();
    assert AllLexemes(lxs);
    DelimitedByLexemes(lxs);
  }

  /** After `[ 1 ,` an expression is due, and `]` starts none. */
  lemma TrailingCommaParse(ts: seq<Token>)
    requires |ts| >= 4 && ts[0].ttype == Lbracket && ts[1].ttype == Number && ts[1].value == "1"
    requires ts[2].ttype == Comma && ts[3].ttype == Rbracket
    ensures ExprAt(ts) == Err(UnexpectedToken(None, ts[3]))
  {
    var err := UnexpectedToken(None, ts[3]);
    assert ExprAt(ts[3..]) == Err(err) by {
      assert ts[3..][0] == ts[3];
    }
    assert ListRest(ts[2..], [NumberLit("1")]) == Err(err) by {
      assert ts[2..][0] == ts[2] && ts[2..][1..] == ts[3..];
    }
    assert ExprAt(ts[1..]) == Ok((NumberLit("1"), ts[2..])) by {
      assert ts[1..][0] == ts[1] && ts[1..][1..] == ts[2..];
      ExprAtLiteral(ts[1..]);
    }
    ListRestStep(ts[1..], [], ts[1..], NumberLit("1"), ts[2..]);
    assert [] + [NumberLit("1")] == [NumberLit("1")];
    ExprAtList(ts);
  }

  /** A trailing comma: after the comma an expression is due, and `]` is not one. */
  lemma TrailingComma()
    ensures AstOf("[1,]").Err?
    ensures AstOf("[1,]").error.UnexpectedToken? && AstOf("[1,]").error.expected == None
    ensures AstOf("[1,]").error.found.ttype == Rbracket
  {
    TrailingCommaTokens();
    TrailingCommaParse(Tokenized("[1,]").value);
  }

  function MissingCommaSeq(): seq<Lexeme>
  {
    [Lexeme(Lbracket, "["), Lexeme(Number, "1"), Lexeme(Whitespace, " "), Lexeme(Number, "2"), Lexeme(Rbracket, "]")]
  }

  /** `[1 2]` scans as the five lexemes it is written with, the space among them. */
  lemma MissingCommaSpelled()
    ensures Lex("[1 2]", Start).Ok?
    ensures |Lex("[1 2]", Start).value.0| == 5 && Spells(Lex("[1 2]", Start).value.0, MissingCommaSeq())
  {
    MissingCommaText();
    LexJoin(MissingCommaSeq(), Start);
  }

  lemma MissingCommaText()
    ensures Join(MissingCommaSeq()) == "[1 2]" && Delimited(MissingCommaSeq())
  {
    JoinFive(Lexeme(Lbracket, "["), Lexeme(Number, "1"), Lexeme(Whitespace, " "), Lexeme(Number, "2"), Lexeme(Rbracket, "]"));
    assert AllLexemes(MissingCommaSeq());
  }

  /** The scan of `[1 2]`: five tokens, the third of them the space. */
  lemma MissingCommaScanned()
    ensures Lex("[1 2]", Start).Ok?
    ensures var sc := Lex("[1 2]", Start).value.0;
      && |sc| == 5 && NonWhitespace(sc) == sc[..2] + sc[3..]
      && sc[0].ttype == Lbracket && sc[1].ttype == Number && sc[1].value == "1"
      && sc[3].ttype == Number && sc[3].value == "2"
  {
    MissingCommaSpelled();
    var lxs := MissingCommaSeq();
    var scanned := Lex("[1 2]", Start).value.0;
    SpellsPrefix(scanned, lxs);
    assert forall i :: 0 <= i < |scanned| && i != 2 ==> scanned[i].ttype != Whitespace by {
      forall i | 0 <= i < |scanned| && i != 2
        ensures scanned[i].ttype != Whitespace
      {
        SpellsAt(scanned, lxs, i);
      }
    }
    NonWhitespaceSkips(scanned, 2);
  }

  /** The tokens of `[1 2]`: the space is scanned, then dropped. */
  lemma MissingCommaTokens()
    ensures Tokenized("[1 2]").Ok? && |Tokenized("[1 2]").value| == 5
    ensures var ts := Tokenized("[1 2]").value;
      && ts[0].ttype == Lbracket && ts[1].ttype == Number && ts[1].value == "1"
      && ts[2].ttype == Number && ts[2].value == "2"
  {
    MissingCommaScanned();
    var (scanned, end) := Lex("[1 2]", Start).value;
    var kept := scanned[..2] + scanned[3..];
    assert |kept| == 4 && kept[0] == scanned[0] && kept[1] == scanned[1] && kept[2] == scanned[3];
    var ts := kept + [EofToken(end)];
    assert Tokenized("[1 2]") == Ok(ts);
    assert ts[0] == kept[0] && ts[1] == kept[1] && ts[2] == kept[2];
  }

  /** After `[ 1` either `]` or a comma is due. */
  lemma MissingCommaParse(ts: seq<Token>)
    requires |ts| >= 3 && ts[0].ttype == Lbracket && ts[1].ttype == Number && ts[1].value == "1"
    requires ts[2].ttype == Number
    ensures ExprAt(ts) == Err(UnexpectedToken(Some(Comma), ts[2]))
  {
    var err := UnexpectedToken(Some(Comma), ts[2]);
    assert ListRest(ts[2..], [NumberLit("1")]) == Err(err) by {
      assert ts[2..][0] == ts[2];
    }
    assert ExprAt(ts[1..]) == Ok((NumberLit("1"), ts[2..])) by {
      assert ts[1..][0] == ts[1] && ts[1..][1..] == ts[2..];
      ExprAtLiteral(ts[1..]);
    }
    ListRestStep(ts[1..], [], ts[1..], NumberLit("1"), ts[2..]);
    assert [] + [NumberLit("1")] == [NumberLit("1")];
    ExprAtList(ts);
  }

  /** The tokens of `{"a":1,}`: the lexer accepts it. */
  lemma ObjectTrailingCommaTokens()
    ensures Tokenized("{\"a\":1,}").Ok? && |Tokenized("{\"a\":1,}").value| == 7
    ensures var ts := Tokenized("{\"a\":1,}").value;
      && ts[0].ttype == Lbrace && ts[1].ttype == String && ts[1].value == "\"a\""
      && ts[2].ttype == Colon && ts[3].ttype == Number && ts[3].value == "1"
      && ts[4].ttype == Comma && ts[5].ttype == Rbrace
  {
    var lxs := ObjectTrailingCommaSeq();
    ObjectTrailingCommaText();
    ObjectTrailingCommaShape();
    TokenizedJoin(lxs);
    var ts := Tokenized("{\"a\":1,}").value;
    SpellsPrefix(ts, lxs);
    SpellsAt(ts, lxs, 4);
    SpellsAt(ts, lxs, 5);
  }

  function ObjectTrailingCommaSeq(): seq<Lexeme>
  {
    [Lexeme(Lbrace, "{"), Lexeme(String, "\"a\""), Lexeme(Colon, ":"), Lexeme(Number, "1"),
     Lexeme(Comma, ","), Lexeme(Rbrace, "}")]
  }

  lemma ObjectTrailingCommaText()
    ensures Join(ObjectTrailingCommaSeq()) == "{\"a\":1,}"
  {
    var rest := [Lexeme(String, "\"a\""), Lexeme(Colon, ":"), Lexeme(Number, "1"), Lexeme(Comma, ","), Lexeme(Rbrace, "}")];
    JoinCons(Lexeme(Lbrace, "{"), rest);
    JoinFive(Lexeme(String, "\"a\""), Lexeme(Colon, ":"), Lexeme(Number, "1"), Lexeme(Comma, ","), Lexeme(Rbrace, "}"));
    assert [Lexeme(Lbrace, "{")] + rest == ObjectTrailingCommaSeq();
  }

  lemma ObjectTrailingCommaShape()
    ensures Delimited(ObjectTrailingCommaSeq()) && Compact(ObjectTrailingCommaSeq())
  {
    var lxs := ObjectTrailingCommaSeq();
    assert IsLexeme(String, "\"a\"");
    assert AllLexemes(lxs);
    DelimitedByLexemes(lxs);
  }

  /** `"a" : 1` is read as one attribute, leaving the tokens from the comma on. */
  lemma ObjectTrailingCommaFirst(ts: seq<Token>)
    requires |ts| >= 4 && ts[0].ttype == String && ts[0].value == "\"a\""
    requires ts[1].ttype == Colon && ts[2].ttype == Number && ts[2].value == "1"
    ensures AttributeAt(ts) == Ok((Attribute(NumberLit("1"), "\"a\""), ts[3..]))
  {
    assert ts[2..][0] == ts[2] && ts[2..][1..] == ts[3..];
    ExprAtLiteral(ts[2..]);
    AttributeAtStep(ts, NumberLit("1"), ts[3..]);
  }

  /** After a comma an attribute is due, and `parse_literal` rejects `}` as its name. */
  lemma ObjectTrailingCommaRest(ts: seq<Token>, body: seq<Attribute>)
    requires |ts| >= 2 && body != [] && ts[0].ttype == Comma && ts[1].ttype == Rbrace
    ensures ObjectRest(ts, body) == Err(UnexpectedToken(None, ts[1]))
  {
    assert ts[1..][0] == ts[1];
    assert AttributeAt(ts[1..]) == Err(UnexpectedToken(None, ts[1]));
  }

  /** After `{ "a" : 1 ,` an attribute is due, and its name is read by `parse_literal`, which rejects `}`. */
  lemma ObjectTrailingCommaParse(ts: seq<Token>)
    requires |ts| >= 6 && ts[0].ttype == Lbrace && ts[1].ttype == String && ts[1].value == "\"a\""
    requires ts[2].ttype == Colon && ts[3].ttype == Number && ts[3].value == "1"
    requires ts[4].ttype == Comma && ts[5].ttype == Rbrace
    ensures ExprAt(ts) == Err(UnexpectedToken(None, ts[5]))
  {
    var a := Attribute(NumberLit("1"), "\"a\"");
    var rest := ts[1..];
    assert rest[3..] == ts[4..] && rest[0] == ts[1] && rest[1] == ts[2] && rest[2] == ts[3];
    ObjectTrailingCommaFirst(rest);
    assert ts[4..][0] == ts[4] && ts[4..][1] == ts[5];
    ObjectTrailingCommaRest(ts[4..], [a]);
    ObjectRestStep(rest, [], rest, a, ts[4..]);
    assert [] + [a] == [a];
    ExprAtObject(ts);
  }

  /** A trailing comma in an object: the name due after it is `}`, which is no literal. */
  lemma ObjectTrailingComma()
    ensures AstOf("{\"a\":1,}").Err?
    ensures AstOf("{\"a\":1,}").error.UnexpectedToken? && AstOf("{\"a\":1,}").error.expected == None
    ensures AstOf("{\"a\":1,}").error.found.ttype == Rbrace
  {
    ObjectTrailingCommaTokens();
    ObjectTrailingCommaParse(Tokenized("{\"a\":1,}").value);
  }

  /** Two elements without a comma between them: `expect` wanted a comma. */
  lemma MissingComma()
    ensures AstOf("[1 2]").Err?
    ensures AstOf("[1 2]").error.UnexpectedToken? && AstOf("[1 2]").error.expected == Some(Comma)
    ensures AstOf("[1 2]").error.found.value == "2"
  {
    MissingCommaTokens();
    MissingCommaParse(Tokenized("[1 2]").value);
  }

  /** The tokens of `{1:2}`. */
  lemma NumberAsNameTokens()
    ensures Tokenized("{1:2}").Ok? && |Tokenized("{1:2}").value| == 6
    ensures var ts := Tokenized("{1:2}").value;
      ts[0].ttype == Lbrace && ts[1].ttype == Number && ts[1].value == "1"
  {
    NumberAsNameText();
    NumberAsNameShape();
    TokenizedJoin(NumberAsNameSeq());
    SpellsPrefix(Tokenized("{1:2}").value, NumberAsNameSeq());
  }

  function NumberAsNameSeq(): seq<Lexeme>
  {
    [Lexeme(Lbrace, "{"), Lexeme(Number, "1"), Lexeme(Colon, ":"), Lexeme(Number, "2"), Lexeme(Rbrace, "}")]
  }

  lemma NumberAsNameText()
    ensures Join(NumberAsNameSeq()) == "{1:2}"
  {
    JoinFive(Lexeme(Lbrace, "{"), Lexeme(Number, "1"), Lexeme(Colon, ":"), Lexeme(Number, "2"), Lexeme(Rbrace, "}"));
  }

  lemma NumberAsNameShape()
    ensures Delimited(NumberAsNameSeq()) && Compact(NumberAsNameSeq())
  {
    var lxs := NumberAsNameSeq();
    assert AllLexemes(lxs);
    DelimitedByLexemes(lxs);
  }

  /** An attribute name must be a string. */
  lemma NumberAsName()
    ensures AstOf("{1:2}") == Err(InvalidAttributeKey(Literal(LiteralType.Num, Some("1"))))
  {
    NumberAsNameTokens();
    var ts := Tokenized("{1:2}").value;
    var err := InvalidAttributeKey(Literal(LiteralType.Num, Some("1")));
    assert ObjectRest(ts[1..], []) == Err(err) by {
      assert ts[1..][0] == ts[1];
      assert AttributeAt(ts[1..]) == Err(err);
    }
    ExprAtObject(ts);
  }

  /** Tokens after the first value are never looked at. */
  lemma TrailingTokensIgnored()
    ensures AstOf("1 2") == Ok(NumberLit("1"))
  {
    var lxs := TrailingTokensSeq();
    TrailingTokensText();
    LexJoin(lxs, Start);
    var scanned := Lex("1 2", Start).value.0;
    SpellsAt(scanned, lxs, 0);
    assert scanned == [scanned[0]] + scanned[1..];
    NonWhitespaceAppend([scanned[0]], scanned[1..]);
  }

  function TrailingTokensSeq(): seq<Lexeme>
  {
    [Lexeme(Number, "1"), Lexeme(Whitespace, " "), Lexeme(Number, "2")]
  }

  lemma TrailingTokensText()
    ensures Join(TrailingTokensSeq()) == "1 2" && Delimited(TrailingTokensSeq())
  {
    JoinThree(Lexeme(Number, "1"), Lexeme(Whitespace, " "), Lexeme(Number, "2"));
    assert AllLexemes(TrailingTokensSeq());
  }

  /** A character no pattern matches stops the lexer where it stands. */
  lemma UnknownCharacter()
    ensures AstOf("-") == Err(LexFailure(UnknownPattern(TokenPos(1, 1))))
  {
    if FirstMatch("-").Some? {
      FirstMatchFromPattern("-", 0);
      MatchStartsWith(FirstMatch("-").value.kind, "-");
      assert false;
    }
  }

  /** The empty input: `parse_expr` finds only the EOF token. */
  lemma EmptyText()
    ensures AstOf("") == Err(UnexpectedToken(None, Token(EOF, "\0", TokenPos(1, 2))))
  {
    EmptyInput();
  }

  /** A newline moves to the next row and column 0, so the EOF token after it sits in column 2. */
  lemma NewlinePosition()
    ensures Tokenized("\n") == Ok([Token(EOF, "\0", TokenPos(2, 2))])
  {
    assert FirstMatch("\n") == Some(Match(Whitespace, 1));
    assert "\n"[..1] == "\n" && "\n"[1..] == "";
    LexUnfold("\n", Start);
    assert Lex("", TokenPos(2, 1)) == Ok(([], TokenPos(2, 1)));
    assert [Token(Whitespace, "\n", TokenPos(2, 0))] + [] == [Token(Whitespace, "\n", TokenPos(2, 0))];
    NonWhitespaceDrops([Token(Whitespace, "\n", TokenPos(2, 0))]);
    assert Tokenized("\n") == Ok(NonWhitespace([Token(Whitespace, "\n", TokenPos(2, 0))]) + [EofToken(TokenPos(2, 1))]);
    assert [] + [EofToken(TokenPos(2, 1))] == [Token(EOF, "\0", TokenPos(2, 2))];
    assert Lex("\n", Start) == Ok(([Token(Whitespace, "\n", TokenPos(2, 0))], TokenPos(2, 1)));
  }

  /** The tokens of `{`: the brace at row 1, column 1, then EOF at column 3. */
  lemma UnclosedObjectTokens()
    ensures Tokenized("{") == Ok([Token(Lbrace, "{", Start), Token(EOF, "\0", TokenPos(1, 3))])
  {
    var brace := Token(Lbrace, "{", Start);
    assert FirstMatch("{") == Some(Match(Lbrace, 1));
    assert "{"[..1] == "{" && "{"[1..] == "";
    LexUnfold("{", Start);
    assert Lex("", TokenPos(1, 2)) == Ok(([], TokenPos(1, 2)));
    assert [brace] + [] == [brace];
    assert Lex("{", Start) == Ok(([brace], TokenPos(1, 2)));
    NonWhitespaceKeeps([brace]);
    assert Tokenized("{") == Ok(NonWhitespace([brace]) + [EofToken(TokenPos(1, 2))]);
    assert [brace] + [EofToken(TokenPos(1, 2))] == [brace, Token(EOF, "\0", TokenPos(1, 3))];
  }

  /**
   * An object left open: the attribute name is read by `parse_literal`, which takes the EOF
   * token and rejects it.  The parse stops with no result.
   */
  lemma UnclosedObject()
    ensures AstOf("{") == Err(UnexpectedToken(None, Token(EOF, "\0", TokenPos(1, 3))))
  {
    UnclosedObjectTokens();
    var ts := [Token(Lbrace, "{", Start), Token(EOF, "\0", TokenPos(1, 3))];
    assert ts[1..][0] == ts[1];
    assert AttributeAt(ts[1..]) == Err(UnexpectedToken(None, ts[1]));
    ExprAtObject(ts);
  }
}
