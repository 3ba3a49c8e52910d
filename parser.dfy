/**
 * The recursive-descent parser (parser.py) for the grammar
 *
 *   Expr      := Literal | '[' List | '{' Object
 *   List      := (Expr (',' Expr)*)? ']'
 *   Object    := (Attribute (',' Attribute)*)? '}'
 *   Attribute := String ':' Expr
 *
 * The source keeps the remaining tokens in a module-level list that `eat` and
 * `expect` pop from the front.  Here that list is the field `tokens` of a
 * `Parser` object, and every parsing method is proved to agree with a pure
 * function over token sequences (`ExprAt`, `ListRest`, `ObjectRest`,
 * `AttributeAt`, `LiteralAt`) that returns the value and the tokens left over.
 * The source's print-and-exit on a mismatch is an `Err` result.
 */
module JsonParser {
  import opened Wrappers
  import opened JsonLexer
  import opened JsonAst

  datatype ParseError =
    | LexFailure(cause: LexError)
      // The lookahead or the taken token fits no alternative; `expected` is the kind `expect` wanted.
    | UnexpectedToken(expected: Option<TokenType>, found: Token)
    | InvalidAttributeKey(key: Literal)
      // The token list ran out (an `IndexError` in the source).
    | OutOfTokens

  /** A parse of a prefix of the tokens: the value built and the tokens left over. */
  type Parsed<T> = Result<(T, seq<Token>), ParseError>

  /** The kinds of token `parse_literal` accepts. */
  predicate IsLiteralKind(k: TokenType)
  {
    k == String || k == Number || k == Boolean || k == TokenType.Null
  }

  /** The kinds of token an expression can start with. */
  predicate StartsExpr(k: TokenType)
  {
    IsLiteralKind(k) || k == Lbracket || k == Lbrace
  }

  /** `rest` is `ts` with some tokens taken off the front. */
  predicate Leaves(ts: seq<Token>, rest: seq<Token>)
  {
    |rest| <= |ts| && rest == ts[|ts| - |rest|..]
  }

  /** As `Leaves`, and at least one token was taken. */
  predicate Consumes(ts: seq<Token>, rest: seq<Token>)
  {
    Leaves(ts, rest) && |rest| < |ts|
  }

  lemma LeavesTrans(ts: seq<Token>, mid: seq<Token>, rest: seq<Token>)
    requires Leaves(ts, mid) && Leaves(mid, rest)
    ensures Leaves(ts, rest)
  {
    assert rest == ts[|ts| - |rest|..];
  }

  /** Taking the front token consumes it. */
  lemma PopConsumes(ts: seq<Token>)
    requires ts != []
    ensures Consumes(ts, ts[1..])
  {
  }

  /** A separator, an element and the rest of a loop, taken one after the other. */
  lemma ConsumesChain(ts: seq<Token>, ts1: seq<Token>, ts2: seq<Token>, rest: seq<Token>)
    requires Leaves(ts, ts1) && Consumes(ts1, ts2) && Consumes(ts2, rest)
    ensures Consumes(ts, rest)
  {
    LeavesTrans(ts, ts1, ts2);
    LeavesTrans(ts, ts2, rest);
  }

  // ---------------------------------------------------------------------------
  // The parsing functions, as a specification.

  /** `eat()`: takes the front token. */
  function Popped(ts: seq<Token>): Parsed<Token>
  {
    if ts == [] then Err(OutOfTokens) else Ok((ts[0], ts[1..]))
  }

  /** `expect(k)`: takes the front token, which must be of kind `k`. */
  function Expected(k: TokenType, ts: seq<Token>): (r: Parsed<Token>)
    ensures r.Ok? <==> ts != [] && ts[0].ttype == k
    ensures r.Ok? ==> r.value == (ts[0], ts[1..])
    ensures ts != [] && ts[0].ttype != k ==> r == Err(UnexpectedToken(Some(k), ts[0]))
  {
    match Popped(ts)
    case Err(e) => Err(e)
    case Ok((t, rest)) => if t.ttype != k then Err(UnexpectedToken(Some(k), t)) else Ok((t, rest))
  }

  /** `parse_literal`: one token, mapped to the literal of its kind. */
  function LiteralAt(ts: seq<Token>): (r: Parsed<Literal>)
    ensures r.Ok? <==> ts != [] && IsLiteralKind(ts[0].ttype)
    ensures r.Ok? ==> r.value.1 == ts[1..] && WellFormedLiteral(r.value.0)
    ensures r.Ok? ==> (r.value.0.literalType == Str <==> ts[0].ttype == String)
    ensures r.Ok? ==> (r.value.0.literalType == Num <==> ts[0].ttype == Number)
    ensures r.Ok? ==> (r.value.0.literalType == Bool <==> ts[0].ttype == Boolean)
    ensures r.Ok? && r.value.0.value.Some? ==> r.value.0.value.value == ts[0].value
    ensures ts == [] ==> r == Err(OutOfTokens)
    ensures ts != [] && r.Err? ==> r == Err(UnexpectedToken(None, ts[0]))
  {
    match Popped(ts)
    case Err(e) => Err(e)
    case Ok((t, rest)) =>
      match t.ttype
      case String => Ok((Literal(Str, Some(t.value)), rest))
      case Number => Ok((Literal(Num, Some(t.value)), rest))
      case Boolean => Ok((Literal(Bool, Some(t.value)), rest))
      case Null => Ok((Literal(LiteralType.Null, None), rest))
      case _ => Err(UnexpectedToken(None, t))
  }

  /** The comma `expect`ed before every element but the first. */
  function Separator(first: bool, ts: seq<Token>): (r: Result<seq<Token>, ParseError>)
    ensures r.Ok? <==> first || (ts != [] && ts[0].ttype == Comma)
    ensures r.Ok? ==> Leaves(ts, r.value) && r.value == ts[if first then 0 else 1..]
  {
    if first then Ok(ts)
    else match Expected(Comma, ts)
      case Err(e) => Err(e)
      case Ok((_, rest)) => Ok(rest)
  }

  /** `parse_expr`: the production is chosen from the kind of the lookahead alone. */
  function ExprAt(ts: seq<Token>): (r: Parsed<Expr>)
    decreases |ts|, 1
    ensures r.Ok? ==> Consumes(ts, r.value.1)
    ensures r.Ok? ==> StartsExpr(ts[0].ttype)
  {
    if ts == [] then Err(OutOfTokens)
    else match ts[0].ttype
      case String | Number | Boolean | Null =>
        (match LiteralAt(ts)
         case Ok((l, rest)) => PopConsumes(ts); Ok((Lit(l), rest))
         case Err(e) => Err(e))
      case Lbracket =>
        var r := ListRest(ts[1..], []);
        if r.Ok? then PopConsumes(ts); LeavesTrans(ts, ts[1..], r.value.1); r else r
      case Lbrace =>
        var r := ObjectRest(ts[1..], []);
        if r.Ok? then PopConsumes(ts); LeavesTrans(ts, ts[1..], r.value.1); r else r
      case _ => Err(UnexpectedToken(None, ts[0]))
  }

  /**
   * The `while` loop of `parse_list` after `[` was taken, with `content` the elements
   * parsed so far; the closer taken at the end is always `]`.
   */
  function ListRest(ts: seq<Token>, content: seq<Expr>): (r: Parsed<Expr>)
    decreases |ts|, 2
    ensures r.Ok? ==> Consumes(ts, r.value.1)
  {
    if ts == [] then Err(OutOfTokens)
    else if ts[0].ttype == Rbracket then PopConsumes(ts); Ok((List(content), ts[1..]))
    else match Separator(content == [], ts)
      case Err(e) => Err(e)
      case Ok(ts1) =>
        match ExprAt(ts1)
        case Err(e) => Err(e)
        case Ok((element, ts2)) =>
          var r := ListRest(ts2, content + [element]);
          if r.Ok? then ConsumesChain(ts, ts1, ts2, r.value.1); r else r
  }

  /** The `while` loop of `parse_object` after `{` was taken; the closer taken at the end is always `}`. */
  function ObjectRest(ts: seq<Token>, body: seq<Attribute>): (r: Parsed<Expr>)
    decreases |ts|, 2
    ensures r.Ok? ==> Consumes(ts, r.value.1)
  {
    if ts == [] then Err(OutOfTokens)
    else if ts[0].ttype == Rbrace then PopConsumes(ts); Ok((Object(body), ts[1..]))
    else match Separator(body == [], ts)
      case Err(e) => Err(e)
      case Ok(ts1) =>
        match AttributeAt(ts1)
        case Err(e) => Err(e)
        case Ok((attribute, ts2)) =>
          var r := ObjectRest(ts2, body + [attribute]);
          if r.Ok? then ConsumesChain(ts, ts1, ts2, r.value.1); r else r
  }

  /** `parse_attribute`: a string literal, a colon, then a value. */
  function AttributeAt(ts: seq<Token>): (r: Parsed<Attribute>)
    decreases |ts|, 1
    ensures r.Ok? ==> Consumes(ts, r.value.1)
  {
    match LiteralAt(ts)
    case Err(e) => Err(e)
    case Ok((key, ts1)) =>
      if key.literalType != Str then Err(InvalidAttributeKey(key))
      else match Expected(Colon, ts1)
        case Err(e) => Err(e)
        case Ok((_, ts2)) =>
          match ExprAt(ts2)
          case Err(e) => Err(e)
          case Ok((value, ts3)) =>
            LeavesTrans(ts, ts2, ts3);
            Ok((Attribute(value, key.value.value), ts3))
  }

  /** One round of the list loop: an element is parsed and the loop goes on after it. */
  lemma ListRestNext(ts: seq<Token>, content: seq<Expr>) returns (x: Expr, ts2: seq<Token>)
    requires ListRest(ts, content).Ok? && ts[0].ttype != Rbracket
    ensures Consumes(ts, ts2) && ListRest(ts, content) == ListRest(ts2, content + [x])
  {
    var ts1 := Separator(content == [], ts).value;
    x, ts2 := ExprAt(ts1).value.0, ExprAt(ts1).value.1;
    LeavesTrans(ts, ts1, ts2);
  }

  /** One round of the object loop: an attribute is parsed and the loop goes on after it. */
  lemma ObjectRestNext(ts: seq<Token>, body: seq<Attribute>) returns (a: Attribute, ts2: seq<Token>)
    requires ObjectRest(ts, body).Ok? && ts[0].ttype != Rbrace
    ensures Consumes(ts, ts2) && ObjectRest(ts, body) == ObjectRest(ts2, body + [a])
  {
    var ts1 := Separator(body == [], ts).value;
    a, ts2 := AttributeAt(ts1).value.0, AttributeAt(ts1).value.1;
    LeavesTrans(ts, ts1, ts2);
  }

  /** The token just before `rest` is the same one, seen from `mid` or from `ts`. */
  lemma CloserKept(ts: seq<Token>, mid: seq<Token>, rest: seq<Token>, k: TokenType)
    requires Leaves(ts, mid) && |rest| < |mid| && mid[|mid| - |rest| - 1].ttype == k
    ensures |rest| < |ts| && ts[|ts| - |rest| - 1].ttype == k
  {
    assert ts[|ts| - |rest| - 1] == mid[|mid| - |rest| - 1];
  }

  /** The list loop stops only at `]`: the last token it takes is always that closer. */
  lemma {:induction false} ListRestCloses(ts: seq<Token>, content: seq<Expr>, e: Expr, rest: seq<Token>)
    requires ListRest(ts, content) == Ok((e, rest))
    ensures |rest| < |ts| && ts[|ts| - |rest| - 1].ttype == Rbracket
    decreases |ts|
  {
    if ts[0].ttype != Rbracket {
      var x, ts2 := ListRestNext(ts, content);
      ListRestCloses(ts2, content + [x], e, rest);
      CloserKept(ts, ts2, rest, Rbracket);
    }
  }

  /** The object loop stops only at `}`: the last token it takes is always that closer. */
  lemma {:induction false} ObjectRestCloses(ts: seq<Token>, body: seq<Attribute>, e: Expr, rest: seq<Token>)
    requires ObjectRest(ts, body) == Ok((e, rest))
    ensures |rest| < |ts| && ts[|ts| - |rest| - 1].ttype == Rbrace
    decreases |ts|
  {
    if ts[0].ttype != Rbrace {
      var a, ts2 := ObjectRestNext(ts, body);
      ObjectRestCloses(ts2, body + [a], e, rest);
      CloserKept(ts, ts2, rest, Rbrace);
    }
  }

  /**
   * An attribute starts with a string token and a colon, and is named by the string token's
   * text; a number, boolean or null where the name is due is rejected as that literal.
   */
  lemma AttributeAtShape(ts: seq<Token>)
    ensures AttributeAt(ts).Ok? ==>
      |ts| >= 3 && ts[0].ttype == String && ts[1].ttype == Colon && AttributeAt(ts).value.0.name == ts[0].value
    ensures ts != [] && (ts[0].ttype == Number || ts[0].ttype == Boolean || ts[0].ttype == TokenType.Null) ==>
      AttributeAt(ts) == Err(InvalidAttributeKey(LiteralAt(ts).value.0))
  {
  }

  /** `produce_ast`: tokenize, then parse one value; tokens after it are never looked at. */
  function AstOf(json: string): Result<Expr, ParseError>
  {
    match Tokenized(json)
    case Err(x) => Err(LexFailure(x))
    case Ok(ts) =>
      match ExprAt(ts)
      case Err(e) => Err(e)
      case Ok((e, _)) => Ok(e)
  }

  // ---------------------------------------------------------------------------
  // The parser object.

  /** A method's result and the tokens it left agree with a parse function's result. */
  predicate Agrees<T(==)>(r: Result<T, ParseError>, rest: seq<Token>, spec: Parsed<T>)
  {
    match r
    case Ok(v) => spec == Ok((v, rest))
    case Err(e) => spec == Err(e)
  }

  class Parser {
    /** The tokens not consumed yet. */
    var tokens: seq<Token>

    constructor (tokens: seq<Token>)
      ensures this.tokens == tokens
    {
      this.tokens := tokens;
    }

    /** `at()`: the lookahead, without consuming it. */
    function At(): (r: Result<Token, ParseError>)
      reads this
      ensures r.Ok? <==> tokens != []
      ensures r.Ok? ==> r.value == tokens[0]
    {
      if tokens == [] then Err(OutOfTokens) else Ok(tokens[0])
    }

    /** `eat()`: takes the front token. */
    method Eat() returns (r: Result<Token, ParseError>)
      modifies this
      ensures Agrees(r, tokens, Popped(old(tokens)))
    {
      if tokens == [] {
        return Err(OutOfTokens);
      }
      r := Ok(tokens[0]);
      tokens := tokens[1..];
    }

    /** `expect(k)`: takes the front token and fails unless it is of kind `k`. */
    method Expect(k: TokenType) returns (r: Result<Token, ParseError>)
      modifies this
      ensures Agrees(r, tokens, Expected(k, old(tokens)))
    {
      var prev := Eat();
      if prev.Err? {
        return prev;
      }
      if prev.value.ttype != k {
        return Err(UnexpectedToken(Some(k), prev.value));
      }
      return prev;
    }

    method ParseExpr() returns (r: Result<Expr, ParseError>)
      modifies this
      decreases |tokens|, 1
      ensures Agrees(r, tokens, ExprAt(old(tokens)))
    {
      var lookahead := At();
      if lookahead.Err? {
        return Err(lookahead.error);
      }
      match lookahead.value.ttype
      case String | Number | Null | Boolean =>
        var literal := ParseLiteral();
        if literal.Err? {
          return Err(literal.error);
        }
        return Ok(Lit(literal.value));
      case Lbracket =>
        var opener := Eat();
        r := ParseList();
      case Lbrace =>
        var opener := Eat();
        r := ParseObject();
      case _ =>
        return Err(UnexpectedToken(None, lookahead.value));
    }

    /** `parse_list`, called after `[` was taken. */
    method ParseList() returns (r: Result<Expr, ParseError>)
      modifies this
      decreases |tokens|, 2
      ensures Agrees(r, tokens, ListRest(old(tokens), []))
    {
      var content: seq<Expr> := [];
      while true
        invariant |tokens| <= |old(tokens)|
        invariant ListRest(tokens, content) == ListRest(old(tokens), [])
        decreases |tokens|
      {
        var lookahead := At();
        if lookahead.Err? {
          return Err(lookahead.error);
        }
        if lookahead.value.ttype == Rbracket {
          break;
        }
        if |content| > 0 {
          var comma := Expect(Comma);
          if comma.Err? {
            return Err(comma.error);
          }
        }
        var element := ParseExpr();
        if element.Err? {
          return Err(element.error);
        }
        content := content + [element.value];
      }
      var closer := Eat();
      return Ok(List(content));
    }

    /** `parse_object`, called after `{` was taken. */
    method ParseObject() returns (r: Result<Expr, ParseError>)
      modifies this
      decreases |tokens|, 2
      ensures Agrees(r, tokens, ObjectRest(old(tokens), []))
    {
      var attributes: seq<Attribute> := [];
      while true
        invariant |tokens| <= |old(tokens)|
        invariant ObjectRest(tokens, attributes) == ObjectRest(old(tokens), [])
        decreases |tokens|
      {
        var lookahead := At();
        if lookahead.Err? {
          return Err(lookahead.error);
        }
        if lookahead.value.ttype == Rbrace {
          break;
        }
        if |attributes| > 0 {
          var comma := Expect(Comma);
          if comma.Err? {
            return Err(comma.error);
          }
        }
        var attribute := ParseAttribute();
        if attribute.Err? {
          return Err(attribute.error);
        }
        attributes := attributes + [attribute.value];
      }
      var closer := Eat();
      return Ok(Object(attributes));
    }

    method ParseAttribute() returns (r: Result<Attribute, ParseError>)
      modifies this
      decreases |tokens|, 1
      ensures Agrees(r, tokens, AttributeAt(old(tokens)))
    {
      var key := ParseLiteral();
      if key.Err? {
        return Err(key.error);
      }
      if key.value.literalType != Str {
        return Err(InvalidAttributeKey(key.value));
      }
      var colon := Expect(Colon);
      if colon.Err? {
        return Err(colon.error);
      }
      var value := ParseExpr();
      if value.Err? {
        return Err(value.error);
      }
      return Ok(Attribute(value.value, key.value.value.value));
    }

    method ParseLiteral() returns (r: Result<Literal, ParseError>)
      modifies this
      ensures Agrees(r, tokens, LiteralAt(old(tokens)))
    {
      var token := Eat();
      if token.Err? {
        return Err(token.error);
      }
      match token.value.ttype
      case String =>
        return Ok(Literal(Str, Some(token.value.value)));
      case Number =>
        return Ok(Literal(Num, Some(token.value.value)));
      case Boolean =>
        return Ok(Literal(Bool, Some(token.value.value)));
      case Null =>
        return Ok(Literal(LiteralType.Null, None));
      case _ =>
        return Err(UnexpectedToken(None, token.value));
    }
  }

  /** `produce_ast`: runs a fresh lexer over `json`, then parses one value from its tokens. */
  method ProduceAst(json: string) returns (r: Result<Expr, ParseError>)
    ensures r == AstOf(json)
  {
    var lexer := new Lexer(json);
    assert json[0..] == json;
    assert lexer.Pending() == Lex(json, Start) by {
      if Lex(json, Start).Ok? {
        assert [] + Lex(json, Start).value.0 == Lex(json, Start).value.0;
      }
    }
    var tokens := lexer.Tokenize();
    if tokens.Err? {
      return Err(LexFailure(tokens.error));
    }
    var parser := new Parser(tokens.value);
    var root := parser.ParseExpr();
    if root.Err? {
      return Err(root.error);
    }
    return Ok(root.value);
  }
}
