/**
 * The syntax tree produced by the parser (_ast_.py).
 *
 * The source's class hierarchy is `Stmt` > `Expr` > {`Literal`, `Object`, `List`} and
 * `Stmt` > `Attribute`.  Here `Expr` is a datatype with one constructor per expression
 * node, and `Attribute` is a separate datatype that appears only in an object's body,
 * so an attribute can never stand where an expression is expected.
 */
module JsonAst {
  import opened Wrappers

  /** The node-kind discriminator every node carries in its `kind` field. */
  datatype NodeType = ObjectNode | LiteralNode | ListNode | AttributeNode

  datatype LiteralType = Num | Str | Bool | Null

  /** A literal keeps the raw lexeme of its token; a null literal carries no value. */
  datatype Literal = Literal(literalType: LiteralType, value: Option<string>)

  datatype Expr =
    | Lit(literal: Literal)
    | Object(body: seq<Attribute>)
    | List(content: seq<Expr>)

  // The source calls the key `label`, a reserved word in Dafny.
  datatype Attribute = Attribute(value: Expr, name: string)

  /** The tag the source's constructors store in `kind` for an expression node. */
  function KindOf(e: Expr): (k: NodeType)
    ensures k != AttributeNode
    ensures k == LiteralNode <==> e.Lit?
    ensures k == ObjectNode <==> e.Object?
    ensures k == ListNode <==> e.List?
  {
    match e
    case Lit(_) => LiteralNode
    case Object(_) => ObjectNode
    case List(_) => ListNode
  }

  /** The tag of an attribute node: it is the only node kind that is not an expression. */
  function AttributeKindOf(a: Attribute): (k: NodeType)
    ensures forall e: Expr :: KindOf(e) != k
  {
    AttributeNode
  }

  /** A literal as the parser builds it: null has no value, every other kind has its lexeme. */
  predicate WellFormedLiteral(l: Literal)
  {
    l.literalType == Null <==> l.value.None?
  }

  /** Every literal in the tree is well formed. */
  predicate WellFormed(e: Expr)
    decreases e
  {
    match e
    case Lit(l) => WellFormedLiteral(l)
    case Object(body) => forall i :: 0 <= i < |body| ==> WellFormed(body[i].value)
    case List(content) => forall i :: 0 <= i < |content| ==> WellFormed(content[i])
  }
}
