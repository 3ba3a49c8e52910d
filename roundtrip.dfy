/**
 * The round trip at the level of text: a tree rendered as compact JSON text is read
 * back by `produce_ast` as the same tree, and every tree `produce_ast` returns is one
 * that renders to valid lexemes, so reading back its rendering gives it again.
 */
module JsonRoundTrip {
  import opened Wrappers
  import opened JsonLexer
  import opened LexerFacts
  import opened JsonAst
  import opened JsonParser
  import opened JsonGrammar

  /** The compact JSON text of a tree: its lexemes, with no whitespace between them. */
  function Render(e: Expr): string
  {
    Join(Lexemes(e))
  }

  /** A tree the lexer and parser can produce: well formed, and each lexeme of its rendering is one of its kind. */
  predicate ValidJson(e: Expr)
  {
    && WellFormed(e)
    && forall i :: 0 <= i < |Lexemes(e)| ==> IsLexeme(Lexemes(e)[i].kind, Lexemes(e)[i].text)
  }

  /** Lexemes holding no whitespace or end-of-input kind, and no number directly after a number. */
  predicate Compact(lxs: seq<Lexeme>)
  {
    && (forall i :: 0 <= i < |lxs| ==> lxs[i].kind != Whitespace && lxs[i].kind != EOF)
    && (forall i :: 0 <= i < |lxs| - 1 ==> !(lxs[i].kind == Number && lxs[i + 1].kind == Number))
  }

  lemma CompactJoin(a: seq<Lexeme>, b: seq<Lexeme>)
    requires Compact(a) && Compact(b)
    requires a != [] && b != [] ==> a[|a| - 1].kind != Number || b[0].kind != Number
    ensures Compact(a + b)
  {
    forall i | 0 <= i < |a + b| - 1
      ensures !((a + b)[i].kind == Number && (a + b)[i + 1].kind == Number)
    {
      if i < |a| - 1 {
        assert (a + b)[i] == a[i] && (a + b)[i + 1] == a[i + 1];
      } else if i >= |a| {
        assert (a + b)[i] == b[i - |a|] && (a + b)[i + 1] == b[i + 1 - |a|];
      }
    }
  }

  /** The rendering of any tree is compact: punctuation separates every two values. */
  lemma {:induction false} LexemesCompact(e: Expr)
    ensures Compact(Lexemes(e))
    decreases e, 1
  {
    match e {
      case Lit(l) =>
      case List(content) =>
        ListBodyCompact(content, false);
        CompactJoin([Lexeme(Lbracket, "[")], ListBody(content, false));
        CompactJoin([Lexeme(Lbracket, "[")] + ListBody(content, false), [Lexeme(Rbracket, "]")]);
      case Object(body) =>
        ObjectBodyCompact(body, false);
        CompactJoin([Lexeme(Lbrace, "{")], ObjectBody(body, false));
        CompactJoin([Lexeme(Lbrace, "{")] + ObjectBody(body, false), [Lexeme(Rbrace, "}")]);
    }
  }

  lemma {:induction false} ListBodyCompact(es: seq<Expr>, sep: bool)
    ensures Compact(ListBody(es, sep))
    ensures sep && es != [] ==> ListBody(es, sep)[0].kind == Comma
    decreases es, 0
  {
    if es != [] {
      var sepL := if sep then [Lexeme(Comma, ",")] else [];
      var rest := ListBody(es[1..], true);
      LexemesCompact(es[0]);
      ListBodyCompact(es[1..], true);
      CompactJoin(sepL, Lexemes(es[0]));
      CompactJoin(sepL + Lexemes(es[0]), rest);
    }
  }

  lemma {:induction false} ObjectBodyCompact(attrs: seq<Attribute>, sep: bool)
    ensures Compact(ObjectBody(attrs, sep))
    ensures sep && attrs != [] ==> ObjectBody(attrs, sep)[0].kind == Comma
    decreases attrs, 0
  {
    if attrs != [] {
      var sepL := if sep then [Lexeme(Comma, ",")] else [];
      var rest := ObjectBody(attrs[1..], true);
      AttributeCompact(attrs[0]);
      ObjectBodyCompact(attrs[1..], true);
      CompactJoin(sepL, AttributeLexemes(attrs[0]));
      CompactJoin(sepL + AttributeLexemes(attrs[0]), rest);
    }
  }

  lemma {:induction false} AttributeCompact(a: Attribute)
    ensures Compact(AttributeLexemes(a))
    decreases a, 0
  {
    LexemesCompact(a.value);
    CompactJoin([Lexeme(String, a.name), Lexeme(Colon, ":")], Lexemes(a.value));
  }

  /** The `i`-th token of a spelling has the kind and text of the `i`-th lexeme. */
  lemma {:induction false} SpellsAt(ts: seq<Token>, lxs: seq<Lexeme>, i: nat)
    requires Spells(ts, lxs) && i < |lxs|
    ensures ts[i].ttype == lxs[i].kind && ts[i].value == lxs[i].text
    decreases i
  {
    if i > 0 {
      SpellsAt(ts[1..], lxs[1..], i - 1);
    }
  }

  /**
   * Compact, delimited lexemes glued together tokenize back to tokens that spell
   * exactly those lexemes, followed by the EOF token.
   */
  lemma TokenizedJoin(lxs: seq<Lexeme>)
    requires Delimited(lxs) && Compact(lxs)
    ensures Tokenized(Join(lxs)).Ok?
    ensures var ts := Tokenized(Join(lxs)).value;
      && |ts| == |lxs| + 1 && Spells(ts, lxs)
      && ts[|lxs|] == EofToken(Lex(Join(lxs), Start).value.1)
  {
    LexJoin(lxs, Start);
    var ts := Lex(Join(lxs), Start).value.0;
    var end := Lex(Join(lxs), Start).value.1;
    forall t | t in ts
      ensures t.ttype != Whitespace
    {
      var i :| 0 <= i < |ts| && ts[i] == t;
      SpellsAt(ts, lxs, i);
    }
    NonWhitespaceKeeps(ts);
    assert Tokenized(Join(lxs)) == Ok(ts + [EofToken(end)]);
    SpellsExtend(ts, [EofToken(end)], lxs);
  }

  /** `produce_ast` reads the rendering of a valid tree back as that tree. */
  lemma RenderParses(e: Expr)
    requires ValidJson(e)
    ensures AstOf(Render(e)) == Ok(e)
  {
    LexemesCompact(e);
    TokenizedJoin(Lexemes(e));
    ParseSpelled(e, Tokenized(Render(e)).value);
  }

  /** A lexeme of a kind with a fixed text is that text. */
  lemma LexemeFixed(k: TokenType, text: string)
    requires IsLexeme(k, text)
    ensures FixedText(k).Some? ==> text == FixedText(k).value
  {
  }

  /** Every token `tokenize` returns before EOF is a lexeme of its kind. */
  lemma TokenizedLexemes(json: string)
    requires Tokenized(json).Ok?
    ensures |Tokenized(json).value| >= 1
    ensures forall i :: 0 <= i < |Tokenized(json).value| - 1 ==>
      IsLexeme(Tokenized(json).value[i].ttype, Tokenized(json).value[i].value)
  {
    var ts := Tokenized(json).value;
    var n := |ts| - 1;
    var scanned := Lex(json, Start).value.0;
    TokenizedShape(json);
    LexTokensAreLexemes(json, Start);
    NonWhitespaceMembers(scanned);
    forall i | 0 <= i < n
      ensures IsLexeme(ts[i].ttype, ts[i].value)
    {
      assert ts[i] == ts[..n][i];
      assert ts[i] in scanned;
    }
  }

  /** The tokens `tokenize` returns carry the fixed texts of their kinds. */
  lemma TokenizedFixed(json: string)
    requires Tokenized(json).Ok?
    ensures FixedSpelled(Tokenized(json).value)
    ensures forall i :: 0 <= i < |Tokenized(json).value| - 1 ==>
      IsLexeme(Tokenized(json).value[i].ttype, Tokenized(json).value[i].value)
  {
    var ts := Tokenized(json).value;
    TokenizedLexemes(json);
    assert ts[|ts| - 1].ttype == EOF by {
      TokenizedShape(json);
    }
    forall i | 0 <= i < |ts|
      ensures FixedText(ts[i].ttype).Some? ==> ts[i].value == FixedText(ts[i].ttype).value
    {
      if i < |ts| - 1 {
        LexemeFixed(ts[i].ttype, ts[i].value);
      }
    }
  }

  /**
   * Every tree `produce_ast` returns is valid, the tokens it read spell its rendering,
   * and so reading back its rendering gives the same tree again.
   */
  lemma ParsedIsValid(json: string, e: Expr)
    requires AstOf(json) == Ok(e)
    ensures ValidJson(e)
    ensures Spells(Tokenized(json).value, Lexemes(e))
    ensures AstOf(Render(e)) == Ok(e)
  {
    var ts := Tokenized(json).value;
    TokenizedFixed(json);
    TokenizedShape(json);
    ParsedSpells(ts);
    LexemesCompact(e);
    forall i | 0 <= i < |Lexemes(e)|
      ensures IsLexeme(Lexemes(e)[i].kind, Lexemes(e)[i].text)
    {
      SpellsAt(ts, Lexemes(e), i);
    }
    RenderParses(e);
  }

  /**
   * `parse_expr` never takes the EOF token that `tokenize` appends: after a successful
   * parse the tokens left over still end with it, so they are never empty.
   */
  lemma ParseLeavesEof(json: string)
    requires Tokenized(json).Ok? && ExprAt(Tokenized(json).value).Ok?
    ensures var rest := ExprAt(Tokenized(json).value).value.1;
      rest != [] && rest[|rest| - 1].ttype == EOF
  {
    var ts := Tokenized(json).value;
    var e := ExprAt(ts).value.0;
    TokenizedFixed(json);
    TokenizedShape(json);
    ExprAtConsumesLexemes(ts);
    ParsedSpells(ts);
    LexemesCompact(e);
    var n := |Lexemes(e)|;
    if n == |ts| {
      SpellsAt(ts, Lexemes(e), n - 1);
      assert false;
    }
  }

  /** Different valid trees render differently. */
  lemma RenderInjective(e1: Expr, e2: Expr)
    requires ValidJson(e1) && ValidJson(e2) && Render(e1) == Render(e2)
    ensures e1 == e2
  {
    RenderParses(e1);
    RenderParses(e2);
  }
}
