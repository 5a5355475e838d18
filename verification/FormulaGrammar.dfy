/** Tokens, errors and the layered grammar of field formulas.
  * The grammar is given by explicit derivation trees: a token list is a formula exactly when it is
  * the yield of a tree of the weakest level. */
module FormulaGrammar {
  import opened Results

  /** Numbers are kept as the characters that spell them. */
  datatype Token =
    | Num(lexeme: string)
    | Str(value: string)
    | Ident(name: string)
    | Punct(text: string)

  datatype FormulaError =
    | FormulaEmpty
    | FormulaTooLong
    | FormulaTooComplex
    | InvalidEscape(next: Option<char>)
    | UnterminatedString
    | UnexpectedCharacter(c: char)
    | UnexpectedEnd
    | UnexpectedToken(token: Token)
    | TrailingToken(token: Token)
    | BareIdentifier(name: string)
    | ExpectedFieldName
    | ExpectedPunct(text: string, got: Option<Token>)

  /** Binding strength, weakest first. */
  const OR: nat := 0
  const AND: nat := 1
  const EQ: nat := 2
  const CMP: nat := 3
  const ADD: nat := 4
  const MUL: nat := 5
  const UNARY: nat := 6
  const PRIMARY: nat := 7

  predicate IsOperator(level: nat, text: string) {
    match level
    case 0 => text == "||"
    case 1 => text == "&&"
    case 2 => text == "==" || text == "!="
    case 3 => text == "<" || text == "<=" || text == ">" || text == ">="
    case 4 => text == "+" || text == "-"
    case 5 => text == "*" || text == "/"
    case _ => false
  }

  predicate IsPrefix(text: string) {
    text == "-" || text == "!"
  }

  /** Identifiers that are literals rather than function names. */
  predicate IsLiteralName(name: string) {
    name == "true" || name == "false" || name == "null"
  }

  /** Derivation trees. */
  datatype Expr =
    | Binary(level: nat, left: Expr, op: string, right: Expr)
    | Unary(op: string, operand: Expr)
    | Literal(token: Token)
    | Call(name: string, args: seq<Expr>)
    | Field(name: string)
    | ListOf(items: seq<Expr>)
    | Paren(inner: Expr)

  /** The tree is a derivation from the nonterminal of the given level. Binary operators associate
    * to the left: the left operand may use the same level, the right operand must bind tighter. */
  ghost predicate InLevel(e: Expr, level: nat)
    decreases e
  {
    match e
    case Binary(l, left, op, right) =>
      level <= l <= MUL && IsOperator(l, op) && InLevel(left, l) && InLevel(right, l + 1)
    case Unary(op, operand) => level <= UNARY && IsPrefix(op) && InLevel(operand, UNARY)
    case Literal(token) => token.Num? || token.Str? || (token.Ident? && IsLiteralName(token.name))
    case Call(name, args) => !IsLiteralName(name) && forall a <- args :: InLevel(a, OR)
    case Field(_) => true
    case ListOf(items) => forall a <- items :: InLevel(a, OR)
    case Paren(inner) => InLevel(inner, OR)
  }

  /** The token list that a tree derives. */
  function Yield(e: Expr): seq<Token>
    decreases e, 0
  {
    match e
    case Binary(_, left, op, right) => Yield(left) + [Punct(op)] + Yield(right)
    case Unary(op, operand) => [Punct(op)] + Yield(operand)
    case Literal(token) => [token]
    case Call(name, args) => [Ident(name), Punct("(")] + YieldItems(args) + [Punct(")")]
    case Field(name) => [Punct("{"), Ident(name), Punct("}")]
    case ListOf(items) => [Punct("[")] + YieldItems(items) + [Punct("]")]
    case Paren(inner) => [Punct("(")] + Yield(inner) + [Punct(")")]
  }

  function YieldItems(items: seq<Expr>): seq<Token>
    decreases items, 1
  {
    if |items| == 0 then []
    else if |items| == 1 then Yield(items[0])
    else Yield(items[0]) + [Punct(",")] + YieldItems(items[1..])
  }

  /** A formula: some tree of the weakest level derives the whole token list. */
  ghost predicate IsFormula(tokens: seq<Token>) {
    exists e :: InLevel(e, OR) && Yield(e) == tokens
  }

  /** What the source keeps of a tree: operators, arguments and brackets are dropped. */
  datatype Node = Leaf(token: Token) | Pair(l: Node, r: Node)

  function Erase(e: Expr): Node {
    match e
    case Binary(_, left, _, right) => Pair(Erase(left), Erase(right))
    case Unary(_, operand) => Erase(operand)
    case Literal(token) => Leaf(token)
    case Call(name, _) => Leaf(Ident(name))
    case Field(name) => Leaf(Ident(name))
    case ListOf(_) => Leaf(Punct("["))
    case Paren(inner) => Erase(inner)
  }
}
