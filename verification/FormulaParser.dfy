/** The recursive-descent parser as the source has it: one mutable position over a token list, one
  * method for each level of the grammar, each proved to compute what FormulaSyntax specifies. */
module FormulaParser {
  import opened Results
  import opened FormulaGrammar
  import Syntax = FormulaSyntax

  /** What the body of a parsing method may still owe to the specification: the node and position it
    * leaves must agree with the tree and rest of `spec`, and it throws exactly what `spec` throws. */
  ghost predicate Agrees(r: Result<Node, FormulaError>, rest: seq<Token>, spec: Syntax.Parsed) {
    match spec
    case Ok((e, rest')) => r == Ok(Erase(e)) && rest == rest'
    case Err(error) => r == Err(error)
  }

  function Prepend(items: seq<Expr>, r: Syntax.ParsedItems): Syntax.ParsedItems {
    match r
    case Ok((more, rest)) => Ok((items + more, rest))
    case Err(error) => Err(error)
  }

  lemma PrependOne(items: seq<Expr>, e: Expr, r: Syntax.ParsedItems)
    ensures Prepend(items, Prepend([e], r)) == Prepend(items + [e], r)
  {
    if r.Ok? {
      assert items + ([e] + r.value.0) == items + [e] + r.value.0;
    }
  }

  class Parser {
    const tokens: seq<Token>
    var pos: nat

    constructor (tokens: seq<Token>)
      ensures this.tokens == tokens && pos == 0
    {
      this.tokens := tokens;
      pos := 0;
    }

    ghost predicate Valid()
      reads this
    {
      pos <= |tokens|
    }

    ghost function Rest(): seq<Token>
      reads this
      requires Valid()
    {
      tokens[pos..]
    }

    method Parse() returns (r: Result<Node, FormulaError>)
      requires Valid() && pos == 0
      modifies this`pos
      ensures match Syntax.ParseAll(tokens)
              case Ok(e) => r == Ok(Erase(e))
              case Err(error) => r == Err(error)
      ensures r.Ok? <==> IsFormula(tokens)
    {
      Syntax.ParserRecognisesGrammar(tokens);
      assert Rest() == tokens;
      var node :- ParseOr();
      if pos != |tokens| {
        return Err(TrailingToken(tokens[pos]));
      }
      return Ok(node);
    }

    method ParseOr() returns (r: Result<Node, FormulaError>)
      requires Valid()
      modifies this`pos
      ensures Valid() && pos >= old(pos)
      ensures Agrees(r, Rest(), Syntax.Parse(OR, old(Rest())))
      decreases |tokens| - pos, 8
    {
      ghost var step := Syntax.Parse(AND, Rest());
      var l :- ParseAnd();
      ghost var e := step.value.0;
      while PeekPunct("||")
        invariant old(pos) < pos <= |tokens| && l == Erase(e)
        invariant Syntax.Parse(OR, old(Rest())) == Syntax.ParseTail(OR, e, Rest())
        decreases |tokens| - pos
      {
        ghost var op := tokens[pos].text;
        pos := pos + 1;
        step := Syntax.Parse(AND, Rest());
        var right :- ParseAnd();
        l, e := Pair(l, right), Binary(OR, e, op, step.value.0);
      }
      return Ok(l);
    }

    method ParseAnd() returns (r: Result<Node, FormulaError>)
      requires Valid()
      modifies this`pos
      ensures Valid() && pos >= old(pos)
      ensures Agrees(r, Rest(), Syntax.Parse(AND, old(Rest())))
      decreases |tokens| - pos, 7
    {
      ghost var step := Syntax.Parse(EQ, Rest());
      var l :- ParseEq();
      ghost var e := step.value.0;
      while PeekPunct("&&")
        invariant old(pos) < pos <= |tokens| && l == Erase(e)
        invariant Syntax.Parse(AND, old(Rest())) == Syntax.ParseTail(AND, e, Rest())
        decreases |tokens| - pos
      {
        ghost var op := tokens[pos].text;
        pos := pos + 1;
        step := Syntax.Parse(EQ, Rest());
        var right :- ParseEq();
        l, e := Pair(l, right), Binary(AND, e, op, step.value.0);
      }
      return Ok(l);
    }

    method ParseEq() returns (r: Result<Node, FormulaError>)
      requires Valid()
      modifies this`pos
      ensures Valid() && pos >= old(pos)
      ensures Agrees(r, Rest(), Syntax.Parse(EQ, old(Rest())))
      decreases |tokens| - pos, 6
    {
      ghost var step := Syntax.Parse(CMP, Rest());
      var l :- ParseCmp();
      ghost var e := step.value.0;
      while PeekPunct("==") || PeekPunct("!=")
        invariant old(pos) < pos <= |tokens| && l == Erase(e)
        invariant Syntax.Parse(EQ, old(Rest())) == Syntax.ParseTail(EQ, e, Rest())
        decreases |tokens| - pos
      {
        ghost var op := tokens[pos].text;
        pos := pos + 1;
        step := Syntax.Parse(CMP, Rest());
        var right :- ParseCmp();
        l, e := Pair(l, right), Binary(EQ, e, op, step.value.0);
      }
      return Ok(l);
    }

    method ParseCmp() returns (r: Result<Node, FormulaError>)
      requires Valid()
      modifies this`pos
      ensures Valid() && pos >= old(pos)
      ensures Agrees(r, Rest(), Syntax.Parse(CMP, old(Rest())))
      decreases |tokens| - pos, 5
    {
      ghost var step := Syntax.Parse(ADD, Rest());
      var l :- ParseAdd();
      ghost var e := step.value.0;
      while PeekPunct("<") || PeekPunct("<=") || PeekPunct(">") || PeekPunct(">=")
        invariant old(pos) < pos <= |tokens| && l == Erase(e)
        invariant Syntax.Parse(CMP, old(Rest())) == Syntax.ParseTail(CMP, e, Rest())
        decreases |tokens| - pos
      {
        ghost var op := tokens[pos].text;
        pos := pos + 1;
        step := Syntax.Parse(ADD, Rest());
        var right :- ParseAdd();
        l, e := Pair(l, right), Binary(CMP, e, op, step.value.0);
      }
      return Ok(l);
    }

    method ParseAdd() returns (r: Result<Node, FormulaError>)
      requires Valid()
      modifies this`pos
      ensures Valid() && pos >= old(pos)
      ensures Agrees(r, Rest(), Syntax.Parse(ADD, old(Rest())))
      decreases |tokens| - pos, 4
    {
      ghost var step := Syntax.Parse(MUL, Rest());
      var l :- ParseMul();
      ghost var e := step.value.0;
      while PeekPunct("+") || PeekPunct("-")
        invariant old(pos) < pos <= |tokens| && l == Erase(e)
        invariant Syntax.Parse(ADD, old(Rest())) == Syntax.ParseTail(ADD, e, Rest())
        decreases |tokens| - pos
      {
        ghost var op := tokens[pos].text;
        pos := pos + 1;
        step := Syntax.Parse(MUL, Rest());
        var right :- ParseMul();
        l, e := Pair(l, right), Binary(ADD, e, op, step.value.0);
      }
      return Ok(l);
    }

    method ParseMul() returns (r: Result<Node, FormulaError>)
      requires Valid()
      modifies this`pos
      ensures Valid() && pos >= old(pos)
      ensures Agrees(r, Rest(), Syntax.Parse(MUL, old(Rest())))
      decreases |tokens| - pos, 3
    {
      ghost var step := Syntax.Parse(UNARY, Rest());
      var l :- ParseUnary();
      ghost var e := step.value.0;
      while PeekPunct("*") || PeekPunct("/")
        invariant old(pos) < pos <= |tokens| && l == Erase(e)
        invariant Syntax.Parse(MUL, old(Rest())) == Syntax.ParseTail(MUL, e, Rest())
        decreases |tokens| - pos
      {
        ghost var op := tokens[pos].text;
        pos := pos + 1;
        step := Syntax.Parse(UNARY, Rest());
        var right :- ParseUnary();
        l, e := Pair(l, right), Binary(MUL, e, op, step.value.0);
      }
      return Ok(l);
    }

    method ParseUnary() returns (r: Result<Node, FormulaError>)
      requires Valid()
      modifies this`pos
      ensures Valid() && pos >= old(pos)
      ensures Agrees(r, Rest(), Syntax.Parse(UNARY, old(Rest())))
      decreases |tokens| - pos, 2
    {
      if PeekPunct("-") || PeekPunct("!") {
        pos := pos + 1;
        r := ParseUnary();
        return;
      }
      r := ParsePrimary();
    }

    method ParsePrimary() returns (r: Result<Node, FormulaError>)
      requires Valid()
      modifies this`pos
      ensures Valid() && pos >= old(pos)
      ensures Agrees(r, Rest(), Syntax.Parse(PRIMARY, old(Rest())))
      decreases |tokens| - pos, 1
    {
      if pos == |tokens| {
        return Err(UnexpectedEnd);
      }
      var tok := tokens[pos];
      if tok.Num? || tok.Str? {
        pos := pos + 1;
        return Ok(Leaf(tok));
      }
      if tok.Ident? {
        if IsLiteralName(tok.name) {
          pos := pos + 1;
          return Ok(Leaf(tok));
        }
        pos := pos + 1;
        if !PeekPunct("(") {
          return Err(BareIdentifier(tok.name));
        }
        pos := pos + 1;
        var _ :- ParseBracketed(")");
        return Ok(Leaf(tok));
      }
      if tok.text == "{" {
        r := ParseField();
        return;
      }
      if tok.text == "[" {
        pos := pos + 1;
        var _ :- ParseBracketed("]");
        return Ok(Leaf(tok));
      }
      if tok.text == "(" {
        pos := pos + 1;
        var inner :- ParseOr();
        var _ :- ExpectPunct(")");
        return Ok(inner);
      }
      return Err(UnexpectedToken(tok));
    }

    /** The field reference branch of the primary level. */
    method ParseField() returns (r: Result<Node, FormulaError>)
      requires Valid() && PeekPunct("{")
      modifies this`pos
      ensures Valid() && pos >= old(pos)
      ensures Agrees(r, Rest(), Syntax.ParsePrimary(old(Rest())))
    {
      pos := pos + 1;
      if pos == |tokens| || !tokens[pos].Ident? {
        return Err(ExpectedFieldName);
      }
      var ident := tokens[pos];
      pos := pos + 1;
      var _ :- ExpectPunct("}");
      return Ok(Leaf(ident));
    }

    /** The argument and element lists, which the source writes out in both places. */
    method ParseBracketed(close: string) returns (r: Result<(), FormulaError>)
      requires Valid()
      modifies this`pos
      ensures Valid() && pos >= old(pos)
      ensures match Syntax.ParseBracketed(close, old(Rest()))
              case Ok((_, rest)) => r == Ok(()) && Rest() == rest
              case Err(error) => r == Err(error)
      decreases |tokens| - pos, 9
    {
      if !PeekPunct(close) {
        ghost var spec := Syntax.ParseItems(Rest());
        ghost var step := Syntax.Parse(OR, Rest());
        var _ :- ParseOr();
        ghost var items := [step.value.0];
        while PeekPunct(",")
          invariant old(pos) < pos <= |tokens|
          invariant spec == if PeekPunct(",") then Prepend(items, Syntax.ParseItems(Rest()[1..]))
                            else Ok((items, Rest()))
          decreases |tokens| - pos
        {
          ghost var more := Syntax.ParseItems(Rest()[1..]);
          pos := pos + 1;
          assert more == Syntax.ParseItems(Rest());
          step := Syntax.Parse(OR, Rest());
          var _ :- ParseOr();
          PrependOne(items, step.value.0, Syntax.ParseItems(if PeekPunct(",") then Rest()[1..] else []));
          items := items + [step.value.0];
        }
      }
      r := ExpectPunct(close);
    }

    predicate PeekPunct(p: string)
      reads this
      requires Valid()
      ensures PeekPunct(p) <==> Syntax.AtPunct(Rest(), p)
    {
      pos < |tokens| && tokens[pos] == Punct(p)
    }

    method ExpectPunct(p: string) returns (r: Result<(), FormulaError>)
      requires Valid()
      modifies this`pos
      ensures Valid() && pos >= old(pos)
      ensures match Syntax.Expect(p, old(Rest()))
              case Ok(rest) => r == Ok(()) && Rest() == rest
              case Err(error) => r == Err(error)
    {
      if !PeekPunct(p) {
        return Err(ExpectedPunct(p, if pos < |tokens| then Some(tokens[pos]) else None));
      }
      pos := pos + 1;
      return Ok(());
    }
  }
}
