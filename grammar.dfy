/**
 * The grammar the parser accepts, written the other way round: `Lexemes` renders a
 * tree as the lexemes of its compact JSON text.  The lemmas here prove that the
 * parser and this renderer are inverse to each other at the token level:
 *
 *  - `ParseSpelled`: tokens spelling `Lexemes(e)` parse back to exactly `e`, whatever follows;
 *  - `ParsedSpells`: whatever the parser accepts spells `Lexemes` of what it built,
 *
 * from which follow the separator and closer rules, that leftover tokens are never
 * examined, and that the grammar is unambiguous.
 */
module JsonGrammar {
  import opened Wrappers
  import opened JsonLexer
  import opened LexerFacts
  import opened JsonAst
  import opened JsonParser

  /** The lexeme a literal is written as; a literal's value is its lexeme. */
  function LiteralLexeme(l: Literal): Lexeme
  {
    var text := if l.value.Some? then l.value.value else "null";
    match l.literalType
    case Str => Lexeme(String, text)
    case Num => Lexeme(Number, text)
    case Bool => Lexeme(Boolean, text)
    case Null => Lexeme(TokenType.Null, "null")
  }

  /** The lexemes of the compact JSON text of `e`. */
  function Lexemes(e: Expr): seq<Lexeme>
    decreases e
  {
    match e
    case Lit(l) => [LiteralLexeme(l)]
    case List(content) => [Lexeme(Lbracket, "[")] + ListBody(content, false) + [Lexeme(Rbracket, "]")]
    case Object(body) => [Lexeme(Lbrace, "{")] + ObjectBody(body, false) + [Lexeme(Rbrace, "}")]
  }

  /** List elements, each after a comma except the first one when `sep` is false. */
  function ListBody(es: seq<Expr>, sep: bool): seq<Lexeme>
    decreases es
  {
    if es == [] then []
    else (if sep then [Lexeme(Comma, ",")] else []) + Lexemes(es[0]) + ListBody(es[1..], true)
  }

  /** Object attributes, each after a comma except the first one when `sep` is false. */
  function ObjectBody(attrs: seq<Attribute>, sep: bool): seq<Lexeme>
    decreases attrs
  {
    if attrs == [] then []
    else (if sep then [Lexeme(Comma, ",")] else []) + AttributeLexemes(attrs[0]) + ObjectBody(attrs[1..], true)
  }

  /** An attribute: its name as a string lexeme, a colon, then its value. */
  function AttributeLexemes(a: Attribute): seq<Lexeme>
    decreases a
  {
    [Lexeme(String, a.name), Lexeme(Colon, ":")] + Lexemes(a.value)
  }

  /** The text of the token kinds whose text is fixed: punctuation and `null`. */
  function FixedText(k: TokenType): Option<string>
  {
    match k
    case Lbrace => Some("{")
    case Rbrace => Some("}")
    case Lbracket => Some("[")
    case Rbracket => Some("]")
    case Comma => Some(",")
    case Colon => Some(":")
    case Null => Some("null")
    case _ => None
  }

  /** Tokens whose kind has a fixed text carry that text, as every token the lexer makes does. */
  predicate FixedSpelled(ts: seq<Token>)
  {
    forall i :: 0 <= i < |ts| ==> FixedText(ts[i].ttype).Some? ==> ts[i].value == FixedText(ts[i].ttype).value
  }

  // ---------------------------------------------------------------------------
  // Spelling a concatenation.

  lemma {:induction false} SpellsSplit(ts: seq<Token>, a: seq<Lexeme>, b: seq<Lexeme>)
    requires Spells(ts, a + b)
    ensures Spells(ts, a) && Spells(ts[|a|..], b)
    decreases a
  {
    if a != [] {
      assert (a + b)[1..] == a[1..] + b;
      SpellsSplit(ts[1..], a[1..], b);
      assert ts[1..][|a[1..]|..] == ts[|a|..];
    } else {
      assert a + b == b;
    }
  }
  /** Splits a spelling of `a + (b + c)` into the suffixes that spell `b + c` and `c`. */
  lemma SpellsThree(ts: seq<Token>, whole: seq<Lexeme>, a: seq<Lexeme>, b: seq<Lexeme>, c: seq<Lexeme>) returns (ts1: seq<Token>, ts2: seq<Token>)
    requires whole == a + (b + c) && Spells(ts, whole)
    ensures |whole| == |a| + |b| + |c| && |whole| <= |ts|
    ensures ts1 == ts[|a|..] && ts2 == ts1[|b|..]
    ensures a != [] ==> ts[0].ttype == a[0].kind
    ensures Spells(ts1, b) && Spells(ts2, c)
    ensures ts2[|c|..] == ts[|whole|..]
  {
    ts1 := ts[|a|..];
    ts2 := ts1[|b|..];
    SpellsSplit(ts, a, b + c);
    SpellsSplit(ts1, b, c);
  }
  /** The comma a spelling starts with is what `expect` reads before a later element. */
  lemma SeparatorReads(sep: bool, ts: seq<Token>)
    requires sep ==> ts != [] && ts[0].ttype == Comma
    ensures Separator(!sep, ts) == Ok(ts[if sep then 1 else 0..])
  {
  }

  lemma {:induction false} SpellsJoin(ts: seq<Token>, a: seq<Lexeme>, b: seq<Lexeme>)
    requires Spells(ts, a) && |a| <= |ts| && Spells(ts[|a|..], b)
    ensures Spells(ts, a + b)
    decreases a
  {
    if a != [] {
      assert ts[1..][|a[1..]|..] == ts[|a|..];
      SpellsJoin(ts[1..], a[1..], b);
      assert (a + b)[1..] == a[1..] + b;
    } else {
      assert a + b == b;
    }
  }

  lemma {:induction false} SpellsExtend(ts: seq<Token>, more: seq<Token>, lxs: seq<Lexeme>)
    requires Spells(ts, lxs)
    ensures Spells(ts + more, lxs)
    decreases lxs
  {
    if lxs != [] {
      SpellsExtend(ts[1..], more, lxs[1..]);
      assert (ts + more)[1..] == ts[1..] + more;
    }
  }

  /** The first lexeme of any expression opens a literal, a list or an object. */
  lemma LexemesStart(e: Expr)
    ensures |Lexemes(e)| >= 1
    ensures StartsExpr(Lexemes(e)[0].kind)
  {
  }

  // ---------------------------------------------------------------------------
  // One step of each parse function, as an equation.

  lemma ExprAtLiteral(ts: seq<Token>)
    requires ts != [] && IsLiteralKind(ts[0].ttype)
    ensures ExprAt(ts) == Ok((Lit(LiteralAt(ts).value.0), ts[1..]))
  {
  }

  lemma ExprAtList(ts: seq<Token>)
    requires ts != [] && ts[0].ttype == Lbracket
    ensures ExprAt(ts) == ListRest(ts[1..], [])
  {
  }

  lemma ExprAtObject(ts: seq<Token>)
    requires ts != [] && ts[0].ttype == Lbrace
    ensures ExprAt(ts) == ObjectRest(ts[1..], [])
  {
  }

  lemma ListRestStep(ts: seq<Token>, content: seq<Expr>, ts1: seq<Token>, x: Expr, ts2: seq<Token>)
    requires ts != [] && ts[0].ttype != Rbracket
    requires Separator(content == [], ts) == Ok(ts1) && ExprAt(ts1) == Ok((x, ts2))
    ensures ListRest(ts, content) == ListRest(ts2, content + [x])
  {
  }

  lemma ObjectRestStep(ts: seq<Token>, body: seq<Attribute>, ts1: seq<Token>, a: Attribute, ts2: seq<Token>)
    requires ts != [] && ts[0].ttype != Rbrace
    requires Separator(body == [], ts) == Ok(ts1) && AttributeAt(ts1) == Ok((a, ts2))
    ensures ObjectRest(ts, body) == ObjectRest(ts2, body + [a])
  {
  }

  lemma AttributeAtStep(ts: seq<Token>, v: Expr, ts3: seq<Token>)
    requires |ts| >= 2 && ts[0].ttype == String && ts[1].ttype == Colon
    requires ExprAt(ts[2..]) == Ok((v, ts3))
    ensures AttributeAt(ts) == Ok((Attribute(v, ts[0].value), ts3))
  {
  }

  // ---------------------------------------------------------------------------
  // Rendered tokens parse back.

  /** Tokens that spell `Lexemes(e)` parse to `e`, leaving exactly the tokens after them. */
  lemma {:induction false} ParseSpelled(e: Expr, ts: seq<Token>)
    requires WellFormed(e) && Spells(ts, Lexemes(e))
    ensures ExprAt(ts) == Ok((e, ts[|Lexemes(e)|..]))
    decreases e, 2
  {
    match e {
      case Lit(l) =>
        assert ts[0].ttype == LiteralLexeme(l).kind && ts[0].value == LiteralLexeme(l).text;
        ExprAtLiteral(ts);
      case List(content) =>
        ParseSpelledList(content, ts);
      case Object(attrs) =>
        ParseSpelledObject(attrs, ts);
    }
  }

  lemma {:induction false} ParseSpelledList(content: seq<Expr>, ts: seq<Token>)
    requires WellFormed(List(content)) && Spells(ts, Lexemes(List(content)))
    ensures ExprAt(ts) == Ok((List(content), ts[|Lexemes(List(content))|..]))
    decreases content, 4
  {
    var n := ListOpens(content, ts);
    ListLoopOpened(content, ts, n);
    ListOpened(ts, content, n);
  }

  /** A spelled list starts with its opener, then spells its body and closer. */
  lemma ListOpens(content: seq<Expr>, ts: seq<Token>) returns (n: nat)
    requires Spells(ts, Lexemes(List(content)))
    ensures ts != [] && ts[0].ttype == Lbracket && n < |ts| && n + 1 == |Lexemes(List(content))|
    ensures n == |ListBody(content, false)| + 1 && Spells(ts[1..], ListBody(content, false) + [Lexeme(Rbracket, "]")])
  {
    var body := ListBody(content, false) + [Lexeme(Rbracket, "]")];
    assert Lexemes(List(content)) == [Lexeme(Lbracket, "[")] + body;
    SpellsSplit(ts, [Lexeme(Lbracket, "[")], body);
    n := |body|;
  }

  /** After the opener, the loop reads the spelled body and closer as the list. */
  lemma {:induction false} ListLoopOpened(content: seq<Expr>, ts: seq<Token>, n: nat)
    requires WellFormed(List(content)) && ts != [] && n < |ts|
    requires n == |ListBody(content, false)| + 1 && Spells(ts[1..], ListBody(content, false) + [Lexeme(Rbracket, "]")])
    ensures ListRest(ts[1..], []) == Ok((List([] + content), ts[1..][n..]))
    decreases content, 3
  {
    AllWellFormedFrom(content);
    ListRestSpelled(content, [], false, ts[1..]);
  }

  /** An opener followed by a loop that reads `content` and the closer is that list. */
  lemma ListOpened(ts: seq<Token>, content: seq<Expr>, n: nat)
    requires ts != [] && ts[0].ttype == Lbracket && n < |ts|
    requires ListRest(ts[1..], []) == Ok((List([] + content), ts[1..][n..]))
    ensures ExprAt(ts) == Ok((List(content), ts[n + 1..]))
  {
    ExprAtList(ts);
    assert [] + content == content;
    assert ts[1..][n..] == ts[n + 1..];
  }

  lemma {:induction false} ParseSpelledObject(attrs: seq<Attribute>, ts: seq<Token>)
    requires WellFormed(Object(attrs)) && Spells(ts, Lexemes(Object(attrs)))
    ensures ExprAt(ts) == Ok((Object(attrs), ts[|Lexemes(Object(attrs))|..]))
    decreases attrs, 4
  {
    var n := ObjectOpens(attrs, ts);
    ObjectLoopOpened(attrs, ts, n);
    ObjectOpened(ts, attrs, n);
  }

  /** A spelled object starts with its opener, then spells its body and closer. */
  lemma ObjectOpens(attrs: seq<Attribute>, ts: seq<Token>) returns (n: nat)
    requires Spells(ts, Lexemes(Object(attrs)))
    ensures ts != [] && ts[0].ttype == Lbrace && n < |ts| && n + 1 == |Lexemes(Object(attrs))|
    ensures n == |ObjectBody(attrs, false)| + 1 && Spells(ts[1..], ObjectBody(attrs, false) + [Lexeme(Rbrace, "}")])
  {
    var body := ObjectBody(attrs, false) + [Lexeme(Rbrace, "}")];
    assert Lexemes(Object(attrs)) == [Lexeme(Lbrace, "{")] + body;
    SpellsSplit(ts, [Lexeme(Lbrace, "{")], body);
    n := |body|;
  }

  /** After the opener, the loop reads the spelled body and closer as the object. */
  lemma {:induction false} ObjectLoopOpened(attrs: seq<Attribute>, ts: seq<Token>, n: nat)
    requires WellFormed(Object(attrs)) && ts != [] && n < |ts|
    requires n == |ObjectBody(attrs, false)| + 1 && Spells(ts[1..], ObjectBody(attrs, false) + [Lexeme(Rbrace, "}")])
    ensures ObjectRest(ts[1..], []) == Ok((Object([] + attrs), ts[1..][n..]))
    decreases attrs, 3
  {
    AllValuesWellFormedFrom(attrs);
    ObjectRestSpelled(attrs, [], false, ts[1..]);
  }

  /** An opener followed by a loop that reads `attrs` and the closer is that object. */
  lemma ObjectOpened(ts: seq<Token>, attrs: seq<Attribute>, n: nat)
    requires ts != [] && ts[0].ttype == Lbrace && n < |ts|
    requires ObjectRest(ts[1..], []) == Ok((Object([] + attrs), ts[1..][n..]))
    ensures ExprAt(ts) == Ok((Object(attrs), ts[n + 1..]))
  {
    ExprAtObject(ts);
    assert [] + attrs == attrs;
    assert ts[1..][n..] == ts[n + 1..];
  }

  /** Splits the spelling of a non-empty list body and its closer into separator, head and tail. */
  lemma ListBodySpells(es: seq<Expr>, sep: bool, ts: seq<Token>) returns (ts1: seq<Token>, ts2: seq<Token>)
    requires es != [] && Spells(ts, ListBody(es, sep) + [Lexeme(Rbracket, "]")])
    ensures ts1 == ts[if sep then 1 else 0..]
    ensures sep ==> ts != [] && ts[0].ttype == Comma
    ensures Spells(ts1, Lexemes(es[0])) && ts2 == ts1[|Lexemes(es[0])|..]
    ensures Spells(ts2, ListBody(es[1..], true) + [Lexeme(Rbracket, "]")])
    ensures |ListBody(es, sep)| + 1 <= |ts|
    ensures ts2[|ListBody(es[1..], true)| + 1..] == ts[|ListBody(es, sep)| + 1..]
  {
    var sepL: seq<Lexeme> := if sep then [Lexeme(Comma, ",")] else [];
    var tail := ListBody(es[1..], true) + [Lexeme(Rbracket, "]")];
    ListBodyParts(es, sep);
    ts1, ts2 := SpellsThree(ts, ListBody(es, sep) + [Lexeme(Rbracket, "]")], sepL, Lexemes(es[0]), tail);
  }

  /** Splits the spelling of a non-empty object body and its closer into separator, head and tail. */
  lemma ObjectBodySpells(attrs: seq<Attribute>, sep: bool, ts: seq<Token>) returns (ts1: seq<Token>, ts2: seq<Token>)
    requires attrs != [] && Spells(ts, ObjectBody(attrs, sep) + [Lexeme(Rbrace, "}")])
    ensures ts1 == ts[if sep then 1 else 0..]
    ensures sep ==> ts != [] && ts[0].ttype == Comma
    ensures Spells(ts1, AttributeLexemes(attrs[0])) && ts2 == ts1[|AttributeLexemes(attrs[0])|..]
    ensures Spells(ts2, ObjectBody(attrs[1..], true) + [Lexeme(Rbrace, "}")])
    ensures |ObjectBody(attrs, sep)| + 1 <= |ts|
    ensures ts2[|ObjectBody(attrs[1..], true)| + 1..] == ts[|ObjectBody(attrs, sep)| + 1..]
  {
    var sepL: seq<Lexeme> := if sep then [Lexeme(Comma, ",")] else [];
    var tail := ObjectBody(attrs[1..], true) + [Lexeme(Rbrace, "}")];
    ObjectBodyParts(attrs, sep);
    ts1, ts2 := SpellsThree(ts, ObjectBody(attrs, sep) + [Lexeme(Rbrace, "}")], sepL, AttributeLexemes(attrs[0]), tail);
  }

  /** A body whose separator and first item are spelled does not start with the closer. */
  lemma BodyOpens(sep: bool, ts: seq<Token>, ts1: seq<Token>, first: seq<Lexeme>, closer: TokenType)
    requires sep ==> ts != [] && ts[0].ttype == Comma
    requires |ts| >= (if sep then 1 else 0) && ts1 == ts[if sep then 1 else 0..]
    requires Spells(ts1, first) && first != [] && first[0].kind != closer && closer != Comma
    ensures ts != [] && ts[0].ttype != closer
  {
    if !sep {
      assert ts1 == ts;
    }
  }

  /** An attribute's lexemes open with its name. */
  lemma AttributeLexemesStart(a: Attribute)
    ensures AttributeLexemes(a) != [] && AttributeLexemes(a)[0].kind == String
  {
  }

  /** Every element is well formed, stated element by element from the front. */
  predicate AllWellFormed(es: seq<Expr>)
  {
    es == [] || (WellFormed(es[0]) && AllWellFormed(es[1..]))
  }

  lemma {:induction false} AllWellFormedFrom(es: seq<Expr>)
    requires forall i :: 0 <= i < |es| ==> WellFormed(es[i])
    ensures AllWellFormed(es)
    decreases |es|
  {
    if es != [] {
      assert forall i :: 0 <= i < |es[1..]| ==> WellFormed(es[1..][i]) by {
        forall i | 0 <= i < |es[1..]|
          ensures WellFormed(es[1..][i])
        {
          assert es[1..][i] == es[i + 1];
        }
      }
      AllWellFormedFrom(es[1..]);
    }
  }

  /** Every attribute value is well formed, stated attribute by attribute from the front. */
  predicate AllValuesWellFormed(attrs: seq<Attribute>)
  {
    attrs == [] || (WellFormed(attrs[0].value) && AllValuesWellFormed(attrs[1..]))
  }

  lemma {:induction false} AllValuesWellFormedFrom(attrs: seq<Attribute>)
    requires forall i :: 0 <= i < |attrs| ==> WellFormed(attrs[i].value)
    ensures AllValuesWellFormed(attrs)
    decreases |attrs|
  {
    if attrs != [] {
      assert forall i :: 0 <= i < |attrs[1..]| ==> WellFormed(attrs[1..][i].value) by {
        forall i | 0 <= i < |attrs[1..]|
          ensures WellFormed(attrs[1..][i].value)
        {
          assert attrs[1..][i] == attrs[i + 1];
        }
      }
      AllValuesWellFormedFrom(attrs[1..]);
    }
  }

  lemma ConsAppend<T>(done: seq<T>, es: seq<T>)
    requires es != []
    ensures done + [es[0]] + es[1..] == done + es && done + [es[0]] != []
  {
    assert es == [es[0]] + es[1..];
  }

  /** Chains one step of the loop with the rest of the loop. */
  lemma ListRestTrans(ts: seq<Token>, done: seq<Expr>, ts2: seq<Token>, es: seq<Expr>, k2: nat, k: nat)
    requires es != [] && ListRest(ts, done) == ListRest(ts2, done + [es[0]])
    requires k2 <= |ts2| && k <= |ts| && ts2[k2..] == ts[k..]
    requires ListRest(ts2, done + [es[0]]) == Ok((List(done + [es[0]] + es[1..]), ts2[k2..]))
    ensures ListRest(ts, done) == Ok((List(done + es), ts[k..]))
  {
    ConsAppend(done, es);
  }

  /** The list loop, with `done` parsed already, reads the remaining elements and the closer. */
  lemma {:induction false} ListRestSpelled(es: seq<Expr>, done: seq<Expr>, sep: bool, ts: seq<Token>)
    requires sep == (done != [])
    requires AllWellFormed(es)
    requires Spells(ts, ListBody(es, sep) + [Lexeme(Rbracket, "]")])
    ensures ListRest(ts, done) == Ok((List(done + es), ts[|ListBody(es, sep)| + 1..]))
    decreases es, 2
  {
    if es == [] {
      assert ListBody(es, sep) + [Lexeme(Rbracket, "]")] == [Lexeme(Rbracket, "]")];
      assert ts[0].ttype == Rbracket;
      assert done + es == done;
    } else {
      ListRestSpelledCons(es, done, sep, ts);
    }
  }

  /** The first element of a non-empty list body is parsed and the loop goes on after it. */
  lemma {:induction false} ListRestHead(es: seq<Expr>, done: seq<Expr>, sep: bool, ts: seq<Token>) returns (ts2: seq<Token>)
    requires sep == (done != [])
    requires es != [] && AllWellFormed(es)
    requires Spells(ts, ListBody(es, sep) + [Lexeme(Rbracket, "]")])
    ensures AllWellFormed(es[1..])
    ensures ListRest(ts, done) == ListRest(ts2, done + [es[0]])
    ensures Spells(ts2, ListBody(es[1..], true) + [Lexeme(Rbracket, "]")])
    ensures |ListBody(es, sep)| + 1 <= |ts|
    ensures ts2[|ListBody(es[1..], true)| + 1..] == ts[|ListBody(es, sep)| + 1..]
    decreases es, 0
  {
    var ts1;
    ts1, ts2 := ListBodySpells(es, sep, ts);
    SeparatorReads(sep, ts);
    LexemesStart(es[0]);
    BodyOpens(sep, ts, ts1, Lexemes(es[0]), Rbracket);
    ParseSpelled(es[0], ts1);
    ListRestStep(ts, done, ts1, es[0], ts2);
    assert done + [es[0]] != [];
  }

  lemma {:induction false} ListRestSpelledCons(es: seq<Expr>, done: seq<Expr>, sep: bool, ts: seq<Token>)
    requires sep == (done != [])
    requires es != [] && AllWellFormed(es)
    requires Spells(ts, ListBody(es, sep) + [Lexeme(Rbracket, "]")])
    ensures ListRest(ts, done) == Ok((List(done + es), ts[|ListBody(es, sep)| + 1..]))
    decreases es, 1
  {
    var ts2 := ListRestHead(es, done, sep, ts);
    ListRestSpelledTail(es, done, ts, ts2, |ListBody(es, sep)| + 1);
  }

  /** The rest of the loop after its first step, told only what that step left. */
  lemma {:induction false} ListRestSpelledTail(es: seq<Expr>, done: seq<Expr>, ts: seq<Token>, ts2: seq<Token>, k: nat)
    requires es != [] && AllWellFormed(es[1..])
    requires ListRest(ts, done) == ListRest(ts2, done + [es[0]])
    requires Spells(ts2, ListBody(es[1..], true) + [Lexeme(Rbracket, "]")])
    requires k <= |ts| && ts2[|ListBody(es[1..], true)| + 1..] == ts[k..]
    ensures ListRest(ts, done) == Ok((List(done + es), ts[k..]))
    decreases es, 0
  {
    assert done + [es[0]] != [];
    ListRestSpelled(es[1..], done + [es[0]], true, ts2);
    ListRestTrans(ts, done, ts2, es, |ListBody(es[1..], true)| + 1, k);
  }

  /** Chains one step of the loop with the rest of the loop. */
  lemma ObjectRestTrans(ts: seq<Token>, done: seq<Attribute>, ts2: seq<Token>, attrs: seq<Attribute>, k2: nat, k: nat)
    requires attrs != [] && ObjectRest(ts, done) == ObjectRest(ts2, done + [attrs[0]])
    requires k2 <= |ts2| && k <= |ts| && ts2[k2..] == ts[k..]
    requires ObjectRest(ts2, done + [attrs[0]]) == Ok((Object(done + [attrs[0]] + attrs[1..]), ts2[k2..]))
    ensures ObjectRest(ts, done) == Ok((Object(done + attrs), ts[k..]))
  {
    ConsAppend(done, attrs);
  }

  /** The object loop, with `done` parsed already, reads the remaining attributes and the closer. */
  lemma {:induction false} ObjectRestSpelled(attrs: seq<Attribute>, done: seq<Attribute>, sep: bool, ts: seq<Token>)
    requires sep == (done != [])
    requires AllValuesWellFormed(attrs)
    requires Spells(ts, ObjectBody(attrs, sep) + [Lexeme(Rbrace, "}")])
    ensures ObjectRest(ts, done) == Ok((Object(done + attrs), ts[|ObjectBody(attrs, sep)| + 1..]))
    decreases attrs, 2
  {
    if attrs == [] {
      assert ObjectBody(attrs, sep) + [Lexeme(Rbrace, "}")] == [Lexeme(Rbrace, "}")];
      assert ts[0].ttype == Rbrace;
      assert done + attrs == done;
    } else {
      ObjectRestSpelledCons(attrs, done, sep, ts);
    }
  }

  /** The first attribute of a non-empty object body is parsed and the loop goes on after it. */
  lemma {:induction false} ObjectRestHead(attrs: seq<Attribute>, done: seq<Attribute>, sep: bool, ts: seq<Token>) returns (ts2: seq<Token>)
    requires sep == (done != [])
    requires attrs != [] && AllValuesWellFormed(attrs)
    requires Spells(ts, ObjectBody(attrs, sep) + [Lexeme(Rbrace, "}")])
    ensures AllValuesWellFormed(attrs[1..])
    ensures ObjectRest(ts, done) == ObjectRest(ts2, done + [attrs[0]])
    ensures Spells(ts2, ObjectBody(attrs[1..], true) + [Lexeme(Rbrace, "}")])
    ensures |ObjectBody(attrs, sep)| + 1 <= |ts|
    ensures ts2[|ObjectBody(attrs[1..], true)| + 1..] == ts[|ObjectBody(attrs, sep)| + 1..]
    decreases attrs, 0
  {
    var ts1;
    ts1, ts2 := ObjectBodySpells(attrs, sep, ts);
    SeparatorReads(sep, ts);
    AttributeLexemesStart(attrs[0]);
    BodyOpens(sep, ts, ts1, AttributeLexemes(attrs[0]), Rbrace);
    AttributeSpelled(attrs[0], ts1);
    ObjectRestStep(ts, done, ts1, attrs[0], ts2);
    assert done + [attrs[0]] != [];
  }

  lemma {:induction false} ObjectRestSpelledCons(attrs: seq<Attribute>, done: seq<Attribute>, sep: bool, ts: seq<Token>)
    requires sep == (done != [])
    requires attrs != [] && AllValuesWellFormed(attrs)
    requires Spells(ts, ObjectBody(attrs, sep) + [Lexeme(Rbrace, "}")])
    ensures ObjectRest(ts, done) == Ok((Object(done + attrs), ts[|ObjectBody(attrs, sep)| + 1..]))
    decreases attrs, 1
  {
    var ts2 := ObjectRestHead(attrs, done, sep, ts);
    ObjectRestSpelledTail(attrs, done, ts, ts2, |ObjectBody(attrs, sep)| + 1);
  }

  /** The rest of the loop after its first step, told only what that step left. */
  lemma {:induction false} ObjectRestSpelledTail(attrs: seq<Attribute>, done: seq<Attribute>, ts: seq<Token>, ts2: seq<Token>, k: nat)
    requires attrs != [] && AllValuesWellFormed(attrs[1..])
    requires ObjectRest(ts, done) == ObjectRest(ts2, done + [attrs[0]])
    requires Spells(ts2, ObjectBody(attrs[1..], true) + [Lexeme(Rbrace, "}")])
    requires k <= |ts| && ts2[|ObjectBody(attrs[1..], true)| + 1..] == ts[k..]
    ensures ObjectRest(ts, done) == Ok((Object(done + attrs), ts[k..]))
    decreases attrs, 0
  {
    assert done + [attrs[0]] != [];
    ObjectRestSpelled(attrs[1..], done + [attrs[0]], true, ts2);
    ObjectRestTrans(ts, done, ts2, attrs, |ObjectBody(attrs[1..], true)| + 1, k);
  }

  /** A name, a colon and the tokens of a value parse to that attribute. */
  lemma {:induction false} AttributeSpelled(a: Attribute, ts: seq<Token>)
    requires WellFormed(a.value) && Spells(ts, AttributeLexemes(a))
    ensures AttributeAt(ts) == Ok((a, ts[|AttributeLexemes(a)|..]))
    decreases a
  {
    var key := [Lexeme(String, a.name), Lexeme(Colon, ":")];
    SpellsSplit(ts, key, Lexemes(a.value));
    ParseSpelled(a.value, ts[2..]);
    AttributeAtStep(ts, a.value, ts[2..][|Lexemes(a.value)|..]);
    assert ts[2..][|Lexemes(a.value)|..] == ts[|AttributeLexemes(a)|..];
  }

  // ---------------------------------------------------------------------------
  // What the parser accepts is rendered tokens.

  lemma ListRestUnfold(ts: seq<Token>, content: seq<Expr>)
    requires ListRest(ts, content).Ok? && ts[0].ttype != Rbracket
    ensures Separator(content == [], ts).Ok?
    ensures var ts1 := Separator(content == [], ts).value;
      ExprAt(ts1).Ok? && ListRest(ts, content) == ListRest(ExprAt(ts1).value.1, content + [ExprAt(ts1).value.0])
  {
  }

  lemma ObjectRestUnfold(ts: seq<Token>, body: seq<Attribute>)
    requires ObjectRest(ts, body).Ok? && ts[0].ttype != Rbrace
    ensures Separator(body == [], ts).Ok?
    ensures var ts1 := Separator(body == [], ts).value;
      AttributeAt(ts1).Ok? && ObjectRest(ts, body) == ObjectRest(AttributeAt(ts1).value.1, body + [AttributeAt(ts1).value.0])
  {
  }

  lemma AttributeAtUnfold(ts: seq<Token>)
    requires AttributeAt(ts).Ok?
    ensures ExprAt(ts[2..]).Ok?
    ensures AttributeAt(ts) == Ok((Attribute(ExprAt(ts[2..]).value.0, ts[0].value), ExprAt(ts[2..]).value.1))
  {
  }

  lemma FixedSpelledSuffix(ts: seq<Token>, k: nat)
    requires FixedSpelled(ts) && k <= |ts|
    ensures FixedSpelled(ts[k..])
  {
    forall i | 0 <= i < |ts[k..]|
      ensures FixedText(ts[k..][i].ttype).Some? ==> ts[k..][i].value == FixedText(ts[k..][i].ttype).value
    {
      assert ts[k..][i] == ts[k + i];
    }
  }

  lemma SpellsSingle(ts: seq<Token>, lx: Lexeme)
    requires ts != [] && ts[0].ttype == lx.kind && ts[0].value == lx.text
    ensures Spells(ts, [lx])
  {
    assert [lx][1..] == [];
  }

  lemma SpellsPrepend(ts: seq<Token>, lx: Lexeme, rest: seq<Lexeme>)
    requires ts != [] && ts[0].ttype == lx.kind && ts[0].value == lx.text && Spells(ts[1..], rest)
    ensures Spells(ts, [lx] + rest)
  {
    assert ([lx] + rest)[1..] == rest;
  }

  /** What an accepted separator leaves: after a comma spelled `,` when `sep` holds, else nothing. */
  predicate SeparatorSpelled(sep: bool, ts: seq<Token>, ts1: seq<Token>)
  {
    if sep then ts != [] && ts[0].ttype == Comma && ts[0].value == "," && ts1 == ts[1..] else ts1 == ts
  }

  lemma SeparatorFixed(first: bool, ts: seq<Token>)
    requires FixedSpelled(ts) && Separator(first, ts).Ok?
    ensures SeparatorSpelled(!first, ts, Separator(first, ts).value)
  {
  }

  lemma AppendAssoc<T>(a: seq<T>, b: seq<T>, c: seq<T>, d: seq<T>)
    ensures a + b + c + d == a + (b + (c + d))
    ensures [] + (b + (c + d)) == b + (c + d)
  {
  }

  lemma ListBodyLength(es: seq<Expr>, sep: bool)
    requires es != []
    ensures |ListBody(es, sep)| == (if sep then 1 else 0) + |Lexemes(es[0])| + |ListBody(es[1..], true)|
  {
  }

  lemma ObjectBodyLength(attrs: seq<Attribute>, sep: bool)
    requires attrs != []
    ensures |ObjectBody(attrs, sep)| == (if sep then 1 else 0) + |AttributeLexemes(attrs[0])| + |ObjectBody(attrs[1..], true)|
  {
  }

  lemma ListBodyCons(es: seq<Expr>, sep: bool)
    requires es != []
    ensures var tail := Lexemes(es[0]) + (ListBody(es[1..], true) + [Lexeme(Rbracket, "]")]);
      ListBody(es, sep) + [Lexeme(Rbracket, "]")] == if sep then [Lexeme(Comma, ",")] + tail else tail
  {
    var sepL: seq<Lexeme> := if sep then [Lexeme(Comma, ",")] else [];
    AppendAssoc(sepL, Lexemes(es[0]), ListBody(es[1..], true), [Lexeme(Rbracket, "]")]);
  }

  /** A non-empty list body and its closer, as separator, first item and the rest. */
  lemma ListBodyParts(es: seq<Expr>, sep: bool)
    requires es != []
    ensures ListBody(es, sep) + [Lexeme(Rbracket, "]")] ==
      (if sep then [Lexeme(Comma, ",")] else []) + (Lexemes(es[0]) + (ListBody(es[1..], true) + [Lexeme(Rbracket, "]")]))
  {
    var sepL: seq<Lexeme> := if sep then [Lexeme(Comma, ",")] else [];
    AppendAssoc(sepL, Lexemes(es[0]), ListBody(es[1..], true), [Lexeme(Rbracket, "]")]);
  }

  lemma ObjectBodyCons(attrs: seq<Attribute>, sep: bool)
    requires attrs != []
    ensures var tail := AttributeLexemes(attrs[0]) + (ObjectBody(attrs[1..], true) + [Lexeme(Rbrace, "}")]);
      ObjectBody(attrs, sep) + [Lexeme(Rbrace, "}")] == if sep then [Lexeme(Comma, ",")] + tail else tail
  {
    var sepL: seq<Lexeme> := if sep then [Lexeme(Comma, ",")] else [];
    AppendAssoc(sepL, AttributeLexemes(attrs[0]), ObjectBody(attrs[1..], true), [Lexeme(Rbrace, "}")]);
  }

  /** A non-empty object body and its closer, as separator, first item and the rest. */
  lemma ObjectBodyParts(attrs: seq<Attribute>, sep: bool)
    requires attrs != []
    ensures ObjectBody(attrs, sep) + [Lexeme(Rbrace, "}")] ==
      (if sep then [Lexeme(Comma, ",")] else []) + (AttributeLexemes(attrs[0]) + (ObjectBody(attrs[1..], true) + [Lexeme(Rbrace, "}")]))
  {
    var sepL: seq<Lexeme> := if sep then [Lexeme(Comma, ",")] else [];
    AppendAssoc(sepL, AttributeLexemes(attrs[0]), ObjectBody(attrs[1..], true), [Lexeme(Rbrace, "}")]);
  }

  /** Joins separator, head and tail spellings back into the spelling of a non-empty list body and its closer. */
  lemma ListBodyJoin(es: seq<Expr>, sep: bool, ts: seq<Token>, ts1: seq<Token>, ts2: seq<Token>)
    requires es != [] && SeparatorSpelled(sep, ts, ts1)
    requires Spells(ts1, Lexemes(es[0])) && |Lexemes(es[0])| <= |ts1| && ts2 == ts1[|Lexemes(es[0])|..]
    requires Spells(ts2, ListBody(es[1..], true) + [Lexeme(Rbracket, "]")])
    ensures Spells(ts, ListBody(es, sep) + [Lexeme(Rbracket, "]")])
  {
    var tail := Lexemes(es[0]) + (ListBody(es[1..], true) + [Lexeme(Rbracket, "]")]);
    assert Spells(ts1, tail) by {
      SpellsJoin(ts1, Lexemes(es[0]), ListBody(es[1..], true) + [Lexeme(Rbracket, "]")]);
    }
    ListBodyCons(es, sep);
    if sep {
      assert ([Lexeme(Comma, ",")] + tail)[1..] == tail;
    }
  }

  /** Joins separator, head and tail spellings back into the spelling of a non-empty object body and its closer. */
  lemma ObjectBodyJoin(attrs: seq<Attribute>, sep: bool, ts: seq<Token>, ts1: seq<Token>, ts2: seq<Token>)
    requires attrs != [] && SeparatorSpelled(sep, ts, ts1)
    requires Spells(ts1, AttributeLexemes(attrs[0])) && |AttributeLexemes(attrs[0])| <= |ts1|
    requires ts2 == ts1[|AttributeLexemes(attrs[0])|..]
    requires Spells(ts2, ObjectBody(attrs[1..], true) + [Lexeme(Rbrace, "}")])
    ensures Spells(ts, ObjectBody(attrs, sep) + [Lexeme(Rbrace, "}")])
  {
    var tail := AttributeLexemes(attrs[0]) + (ObjectBody(attrs[1..], true) + [Lexeme(Rbrace, "}")]);
    assert Spells(ts1, tail) by {
      SpellsJoin(ts1, AttributeLexemes(attrs[0]), ObjectBody(attrs[1..], true) + [Lexeme(Rbrace, "}")]);
    }
    ObjectBodyCons(attrs, sep);
    if sep {
      assert ([Lexeme(Comma, ",")] + tail)[1..] == tail;
    }
  }

  /** `content` extends `done` by well-formed elements whose lexemes, and the closer, the tokens spell. */
  predicate ListTail(ts: seq<Token>, done: seq<Expr>, content: seq<Expr>)
  {
    && |done| <= |content| && content[..|done|] == done
    && (forall i :: |done| <= i < |content| ==> WellFormed(content[i]))
    && Spells(ts, ListBody(content[|done|..], done != []) + [Lexeme(Rbracket, "]")])
  }

  /** `body` extends `done` by attributes with well-formed values whose lexemes, and the closer, the tokens spell. */
  predicate ObjectTail(ts: seq<Token>, done: seq<Attribute>, body: seq<Attribute>)
  {
    && |done| <= |body| && body[..|done|] == done
    && (forall i :: |done| <= i < |body| ==> WellFormed(body[i].value))
    && Spells(ts, ObjectBody(body[|done|..], done != []) + [Lexeme(Rbrace, "}")])
  }

  /**
   * Whatever `parse_expr` accepts from tokens the lexer could have made is well formed,
   * and the tokens it consumed spell the lexemes of the tree it built.
   */
  lemma {:induction false} ParsedSpells(ts: seq<Token>)
    requires FixedSpelled(ts) && ExprAt(ts).Ok?
    ensures WellFormed(ExprAt(ts).value.0) && Spells(ts, Lexemes(ExprAt(ts).value.0))
    decreases |ts|, 1
  {
    if ts[0].ttype == Lbracket {
      ExprAtList(ts);
      FixedSpelledSuffix(ts, 1);
      ListRestParsed(ts[1..], []);
      var content := ListRest(ts[1..], []).value.0.content;
      ParsedList(ts, content);
      ListLexemes(content);
    } else if ts[0].ttype == Lbrace {
      ExprAtObject(ts);
      FixedSpelledSuffix(ts, 1);
      ObjectRestParsed(ts[1..], []);
      var body := ObjectRest(ts[1..], []).value.0.body;
      ParsedObject(ts, body);
      ObjectLexemes(body);
    } else {
      ExprAtLiteral(ts);
      SpellsSingle(ts, Lexemes(ExprAt(ts).value.0)[0]);
    }
  }

  lemma ListLexemes(content: seq<Expr>)
    ensures Lexemes(List(content)) == [Lexeme(Lbracket, "[")] + (ListBody(content, false) + [Lexeme(Rbracket, "]")])
  {
  }

  lemma ObjectLexemes(body: seq<Attribute>)
    ensures Lexemes(Object(body)) == [Lexeme(Lbrace, "{")] + (ObjectBody(body, false) + [Lexeme(Rbrace, "}")])
  {
  }

  lemma ParsedList(ts: seq<Token>, content: seq<Expr>)
    requires ts != [] && ts[0].ttype == Lbracket && ts[0].value == "[" && ListTail(ts[1..], [], content)
    ensures WellFormed(List(content)) && Spells(ts, [Lexeme(Lbracket, "[")] + (ListBody(content, false) + [Lexeme(Rbracket, "]")]))
  {
    assert content[0..] == content;
    assert ([Lexeme(Lbracket, "[")] + (ListBody(content, false) + [Lexeme(Rbracket, "]")]))[1..]
        == ListBody(content, false) + [Lexeme(Rbracket, "]")];
  }

  lemma ParsedObject(ts: seq<Token>, body: seq<Attribute>)
    requires ts != [] && ts[0].ttype == Lbrace && ts[0].value == "{" && ObjectTail(ts[1..], [], body)
    ensures WellFormed(Object(body)) && Spells(ts, [Lexeme(Lbrace, "{")] + (ObjectBody(body, false) + [Lexeme(Rbrace, "}")]))
  {
    assert body[0..] == body;
    assert ([Lexeme(Lbrace, "{")] + (ObjectBody(body, false) + [Lexeme(Rbrace, "}")]))[1..]
        == ObjectBody(body, false) + [Lexeme(Rbrace, "}")];
  }

  /** The list loop, started with `done`, builds a list that extends `done` by elements the tokens spell. */
  lemma {:induction false} ListRestParsed(ts: seq<Token>, done: seq<Expr>)
    requires FixedSpelled(ts) && ListRest(ts, done).Ok?
    ensures ListRest(ts, done).value.0.List? && ListTail(ts, done, ListRest(ts, done).value.0.content)
    decreases |ts|, 2
  {
    if ts[0].ttype == Rbracket {
      assert ListRest(ts, done).value.0 == List(done);
      ListTailEmpty(ts, done);
    } else {
      ListRestUnfold(ts, done);
      var ts1 := Separator(done == [], ts).value;
      var x := ExprAt(ts1).value.0;
      var ts2 := ExprAt(ts1).value.1;
      SeparatorFixed(done == [], ts);
      assert ts1 == ts[if done != [] then 1 else 0..];
      assert WellFormed(x) && Spells(ts1, Lexemes(x)) && |Lexemes(x)| <= |ts1| && ts2 == ts1[|Lexemes(x)|..] by {
        FixedSpelledSuffix(ts, if done != [] then 1 else 0);
        ParsedSpells(ts1);
        ParseSpelled(x, ts1);
      }
      assert FixedSpelled(ts2) by {
        FixedSpelledSuffix(ts, if done != [] then 1 else 0);
        FixedSpelledSuffix(ts1, |Lexemes(x)|);
      }
      ListRestParsed(ts2, done + [x]);
      ListTailCons(ts, done, ts1, x, ts2, ListRest(ts2, done + [x]).value.0.content);
    }
  }

  lemma ListTailEmpty(ts: seq<Token>, done: seq<Expr>)
    requires ts != [] && ts[0].ttype == Rbracket && ts[0].value == "]"
    ensures ListTail(ts, done, done)
  {
    assert done[..|done|] == done && done[|done|..] == [];
    assert ListBody([], done != []) + [Lexeme(Rbracket, "]")] == [Lexeme(Rbracket, "]")];
    SpellsSingle(ts, Lexeme(Rbracket, "]"));
  }

  /** Puts the head element and the rest of the loop together. */
  lemma ListTailCons(ts: seq<Token>, done: seq<Expr>, ts1: seq<Token>, x: Expr, ts2: seq<Token>, content: seq<Expr>)
    requires SeparatorSpelled(done != [], ts, ts1)
    requires WellFormed(x) && Spells(ts1, Lexemes(x)) && |Lexemes(x)| <= |ts1| && ts2 == ts1[|Lexemes(x)|..]
    requires ListTail(ts2, done + [x], content)
    ensures ListTail(ts, done, content)
  {
    var es := content[|done|..];
    assert content[..|done| + 1] == done + [x];
    assert es[0] == x by {
      assert content[|done|] == content[..|done| + 1][|done|];
    }
    assert es[1..] == content[|done + [x]|..];
    assert content[..|done|] == content[..|done| + 1][..|done|];
    assert done + [x] != [];
    ListBodyJoin(es, done != [], ts, ts1, ts2);
  }

  /** The object loop, started with `done`, builds an object that extends `done` by attributes the tokens spell. */
  lemma {:induction false} ObjectRestParsed(ts: seq<Token>, done: seq<Attribute>)
    requires FixedSpelled(ts) && ObjectRest(ts, done).Ok?
    ensures ObjectRest(ts, done).value.0.Object? && ObjectTail(ts, done, ObjectRest(ts, done).value.0.body)
    decreases |ts|, 2
  {
    if ts[0].ttype == Rbrace {
      assert ObjectRest(ts, done).value.0 == Object(done);
      ObjectTailEmpty(ts, done);
    } else {
      ObjectRestUnfold(ts, done);
      var ts1 := Separator(done == [], ts).value;
      var a := AttributeAt(ts1).value.0;
      var ts2 := AttributeAt(ts1).value.1;
      SeparatorFixed(done == [], ts);
      assert ts1 == ts[if done != [] then 1 else 0..];
      assert WellFormed(a.value) && Spells(ts1, AttributeLexemes(a)) && |AttributeLexemes(a)| <= |ts1|
          && ts2 == ts1[|AttributeLexemes(a)|..] by {
        FixedSpelledSuffix(ts, if done != [] then 1 else 0);
        AttributeParsed(ts1);
        AttributeSpelled(a, ts1);
      }
      assert FixedSpelled(ts2) by {
        FixedSpelledSuffix(ts, if done != [] then 1 else 0);
        FixedSpelledSuffix(ts1, |AttributeLexemes(a)|);
      }
      ObjectRestParsed(ts2, done + [a]);
      ObjectTailCons(ts, done, ts1, a, ts2, ObjectRest(ts2, done + [a]).value.0.body);
    }
  }

  lemma ObjectTailEmpty(ts: seq<Token>, done: seq<Attribute>)
    requires ts != [] && ts[0].ttype == Rbrace && ts[0].value == "}"
    ensures ObjectTail(ts, done, done)
  {
    assert done[..|done|] == done && done[|done|..] == [];
    assert ObjectBody([], done != []) + [Lexeme(Rbrace, "}")] == [Lexeme(Rbrace, "}")];
    SpellsSingle(ts, Lexeme(Rbrace, "}"));
  }

  /** Puts the head attribute and the rest of the loop together. */
  lemma ObjectTailCons(ts: seq<Token>, done: seq<Attribute>, ts1: seq<Token>, a: Attribute, ts2: seq<Token>, body: seq<Attribute>)
    requires SeparatorSpelled(done != [], ts, ts1)
    requires WellFormed(a.value) && Spells(ts1, AttributeLexemes(a)) && |AttributeLexemes(a)| <= |ts1|
    requires ts2 == ts1[|AttributeLexemes(a)|..]
    requires ObjectTail(ts2, done + [a], body)
    ensures ObjectTail(ts, done, body)
  {
    var attrs := body[|done|..];
    assert body[..|done| + 1] == done + [a];
    assert attrs[0] == a by {
      assert body[|done|] == body[..|done| + 1][|done|];
    }
    assert attrs[1..] == body[|done + [a]|..];
    assert body[..|done|] == body[..|done| + 1][..|done|];
    assert done + [a] != [];
    ObjectBodyJoin(attrs, done != [], ts, ts1, ts2);
  }

  /** Whatever `parse_attribute` accepts is a name, a colon and the tokens of a well-formed value. */
  lemma {:induction false} AttributeParsed(ts: seq<Token>)
    requires FixedSpelled(ts) && AttributeAt(ts).Ok?
    ensures WellFormed(AttributeAt(ts).value.0.value) && Spells(ts, AttributeLexemes(AttributeAt(ts).value.0))
    decreases |ts|, 1
  {
    AttributeAtUnfold(ts);
    var a := AttributeAt(ts).value.0;
    FixedSpelledSuffix(ts, 2);
    ParsedSpells(ts[2..]);
    assert ts[1..][1..] == ts[2..];
    SpellsPrepend(ts[1..], Lexeme(Colon, ":"), Lexemes(a.value));
    SpellsPrepend(ts, Lexeme(String, a.name), [Lexeme(Colon, ":")] + Lexemes(a.value));
    assert AttributeLexemes(a) == [Lexeme(String, a.name)] + ([Lexeme(Colon, ":")] + Lexemes(a.value));
  }

  // ---------------------------------------------------------------------------
  // Consequences.

  /** `parse_expr` consumes exactly the tokens of the tree it builds. */
  lemma ExprAtConsumesLexemes(ts: seq<Token>)
    requires FixedSpelled(ts) && ExprAt(ts).Ok?
    ensures |Lexemes(ExprAt(ts).value.0)| <= |ts| && ExprAt(ts).value.1 == ts[|Lexemes(ExprAt(ts).value.0)|..]
  {
    ParsedSpells(ts);
    ParseSpelled(ExprAt(ts).value.0, ts);
  }

  /** Tokens spelling a tree parse to it whatever follows them. */
  lemma SpelledPrefixParses(e: Expr, ts: seq<Token>, more: seq<Token>)
    requires WellFormed(e) && Spells(ts, Lexemes(e))
    ensures |Lexemes(e)| <= |ts| && ExprAt(ts + more) == Ok((e, ts[|Lexemes(e)|..] + more))
  {
    var n := |Lexemes(e)|;
    assert n <= |ts| && (ts + more)[n..] == ts[n..] + more;
    assert Spells(ts + more, Lexemes(e)) by {
      SpellsExtend(ts, more, Lexemes(e));
    }
    ParseSpelled(e, ts + more);
  }

  /** `parse_expr` never looks past the tree it builds: appending tokens changes only what is left over. */
  lemma ExprAtIgnoresRest(ts: seq<Token>, more: seq<Token>)
    requires FixedSpelled(ts) && ExprAt(ts).Ok?
    ensures ExprAt(ts + more) == Ok((ExprAt(ts).value.0, ExprAt(ts).value.1 + more))
  {
    var e := ExprAt(ts).value.0;
    ParsedSpells(ts);
    ExprAtConsumesLexemes(ts);
    SpelledPrefixParses(e, ts, more);
  }

  /** Two trees the parser accepts from the same tokens are the same tree: the grammar is unambiguous. */
  lemma SpelledUnique(e1: Expr, e2: Expr, ts: seq<Token>)
    requires WellFormed(e1) && Spells(ts, Lexemes(e1))
    requires WellFormed(e2) && Spells(ts, Lexemes(e2))
    ensures e1 == e2 && Lexemes(e1) == Lexemes(e2)
  {
    ParseSpelled(e1, ts);
    ParseSpelled(e2, ts);
  }
}
