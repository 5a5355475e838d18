/** What the recursive-descent parser computes, on token suffixes, and its soundness and completeness
  * for the grammar. */
module FormulaSyntax {
  import opened Results
  import opened FormulaGrammar

  type Parsed = Result<(Expr, seq<Token>), FormulaError>
  type ParsedItems = Result<(seq<Expr>, seq<Token>), FormulaError>

  predicate AtPunct(ts: seq<Token>, text: string) {
    |ts| > 0 && ts[0] == Punct(text)
  }

  predicate AtOperator(level: nat, ts: seq<Token>) {
    |ts| > 0 && ts[0].Punct? && IsOperator(level, ts[0].text)
  }

  function Head(ts: seq<Token>): Option<Token> {
    if |ts| > 0 then Some(ts[0]) else None
  }

  function Expect(text: string, ts: seq<Token>): (r: Result<seq<Token>, FormulaError>)
    ensures r.Ok? <==> AtPunct(ts, text)
    ensures r.Ok? ==> ts == [Punct(text)] + r.value
  {
    if AtPunct(ts, text) then Ok(ts[1..]) else Err(ExpectedPunct(text, Head(ts)))
  }

  /** The tree of the given level at the front of `ts`, and the tokens left over. */
  function Parse(level: nat, ts: seq<Token>): (r: Parsed)
    requires level <= PRIMARY
    ensures r.Ok? ==> |r.value.1| < |ts|
    decreases |ts|, 1, PRIMARY - level
  {
    if level == PRIMARY then ParsePrimary(ts)
    else if level == UNARY then
      if |ts| > 0 && ts[0].Punct? && IsPrefix(ts[0].text) then
        var (e, rest) :- Parse(UNARY, ts[1..]);
        Ok((Unary(ts[0].text, e), rest))
      else Parse(PRIMARY, ts)
    else
      var (e, rest) :- Parse(level + 1, ts);
      ParseTail(level, e, rest)
  }

  /** The loop of one binary level: extend `e` to the right while an operator of the level follows. */
  function ParseTail(level: nat, e: Expr, ts: seq<Token>): (r: Parsed)
    requires level <= MUL
    ensures r.Ok? ==> |r.value.1| <= |ts|
    decreases |ts|, 2
  {
    if AtOperator(level, ts) then
      var (right, rest) :- Parse(level + 1, ts[1..]);
      ParseTail(level, Binary(level, e, ts[0].text, right), rest)
    else Ok((e, ts))
  }

  function ParsePrimary(ts: seq<Token>): (r: Parsed)
    ensures r.Ok? ==> |r.value.1| < |ts|
    decreases |ts|, 0
  {
    if |ts| == 0 then Err(UnexpectedEnd)
    else match ts[0]
      case Num(_) => Ok((Literal(ts[0]), ts[1..]))
      case Str(_) => Ok((Literal(ts[0]), ts[1..]))
      case Ident(name) =>
        if IsLiteralName(name) then Ok((Literal(ts[0]), ts[1..]))
        else if !AtPunct(ts[1..], "(") then Err(BareIdentifier(name))
        else
          var (args, rest) :- ParseBracketed(")", ts[2..]);
          Ok((Call(name, args), rest))
      case Punct(text) =>
        if text == "{" then
          if |ts| < 2 || !ts[1].Ident? then Err(ExpectedFieldName)
          else
            var rest :- Expect("}", ts[2..]);
            Ok((Field(ts[1].name), rest))
        else if text == "[" then
          var (items, rest) :- ParseBracketed("]", ts[1..]);
          Ok((ListOf(items), rest))
        else if text == "(" then
          var (inner, rest) :- Parse(OR, ts[1..]);
          var rest' :- Expect(")", rest);
          Ok((Paren(inner), rest'))
        else Err(UnexpectedToken(ts[0]))
  }

  /** A possibly empty comma-separated list and its closing bracket. */
  function ParseBracketed(close: string, ts: seq<Token>): (r: ParsedItems)
    ensures r.Ok? ==> |r.value.1| < |ts|
    decreases |ts|, 3
  {
    if AtPunct(ts, close) then Ok(([], ts[1..]))
    else
      var (items, rest) :- ParseItems(ts);
      var rest' :- Expect(close, rest);
      Ok((items, rest'))
  }

  function ParseItems(ts: seq<Token>): (r: ParsedItems)
    ensures r.Ok? ==> |r.value.1| < |ts|
    decreases |ts|, 2
  {
    var (e, rest) :- Parse(OR, ts);
    if AtPunct(rest, ",") then
      var (items, rest') :- ParseItems(rest[1..]);
      Ok(([e] + items, rest'))
    else Ok(([e], rest))
  }

  /** Soundness: the tree is in the grammar and derives exactly the tokens consumed. */
  lemma {:induction false} ParseSound(level: nat, ts: seq<Token>)
    requires level <= PRIMARY && Parse(level, ts).Ok?
    ensures var (e, rest) := Parse(level, ts).value; InLevel(e, level) && ts == Yield(e) + rest
    decreases |ts|, 1, PRIMARY - level
  {
    if level == PRIMARY {
      PrimarySound(ts);
    } else if level == UNARY {
      if |ts| > 0 && ts[0].Punct? && IsPrefix(ts[0].text) {
        ParseSound(UNARY, ts[1..]);
      } else {
        ParseSound(PRIMARY, ts);
      }
    } else {
      ParseSound(level + 1, ts);
      var (e, rest) := Parse(level + 1, ts).value;
      TailSound(level, e, rest);
    }
  }

  lemma {:induction false} TailSound(level: nat, e: Expr, ts: seq<Token>)
    requires level <= MUL && InLevel(e, level) && ParseTail(level, e, ts).Ok?
    ensures var (e', rest) := ParseTail(level, e, ts).value;
            InLevel(e', level) && Yield(e) + ts == Yield(e') + rest
    decreases |ts|, 2
  {
    if AtOperator(level, ts) {
      ParseSound(level + 1, ts[1..]);
      var (right, rest) := Parse(level + 1, ts[1..]).value;
      OneOperand(level, e, ts, right, rest);
      TailSound(level, Binary(level, e, ts[0].text, right), rest);
    }
  }

  lemma OneOperand(level: nat, e: Expr, ts: seq<Token>, right: Expr, rest: seq<Token>)
    requires level <= MUL && InLevel(e, level) && InLevel(right, level + 1)
    requires AtOperator(level, ts) && ts[1..] == Yield(right) + rest
    ensures var e' := Binary(level, e, ts[0].text, right); InLevel(e', level) && Yield(e) + ts == Yield(e') + rest
  {
    assert ts == [ts[0]] + ts[1..];
  }

  lemma {:induction false} PrimarySound(ts: seq<Token>)
    requires ParsePrimary(ts).Ok?
    ensures var (e, rest) := ParsePrimary(ts).value; InLevel(e, PRIMARY) && ts == Yield(e) + rest
    decreases |ts|, 0
  {
    match ts[0]
    case Num(_) =>
    case Str(_) =>
    case Ident(name) =>
      if !IsLiteralName(name) {
        BracketedSound(")", ts[2..]);
        CallDerives(ts, name, ParsePrimary(ts).value.0.args, ParsePrimary(ts).value.1);
      }
    case Punct(text) =>
      if text == "[" {
        BracketedSound("]", ts[1..]);
        ListDerives(ts, ParsePrimary(ts).value.0.items, ParsePrimary(ts).value.1);
      } else if text == "(" {
        ParseSound(OR, ts[1..]);
      }
  }

  lemma CallDerives(ts: seq<Token>, name: string, args: seq<Expr>, rest: seq<Token>)
    requires |ts| >= 2 && ts[0] == Ident(name) && ts[1] == Punct("(")
    requires ts[2..] == YieldItems(args) + [Punct(")")] + rest
    ensures ts == Yield(Call(name, args)) + rest
  {
    assert ts == [ts[0], ts[1]] + ts[2..];
  }

  lemma ListDerives(ts: seq<Token>, items: seq<Expr>, rest: seq<Token>)
    requires |ts| >= 1 && ts[0] == Punct("[") && ts[1..] == YieldItems(items) + [Punct("]")] + rest
    ensures ts == Yield(ListOf(items)) + rest
  {
    assert ts == [ts[0]] + ts[1..];
  }

  lemma {:induction false} BracketedSound(close: string, ts: seq<Token>)
    requires ParseBracketed(close, ts).Ok?
    ensures var (items, rest) := ParseBracketed(close, ts).value;
            (forall a <- items :: InLevel(a, OR)) && ts == YieldItems(items) + [Punct(close)] + rest
    decreases |ts|, 3
  {
    if !AtPunct(ts, close) {
      ItemsSound(ts);
    }
  }

  lemma {:induction false} ItemsSound(ts: seq<Token>)
    requires ParseItems(ts).Ok?
    ensures var (items, rest) := ParseItems(ts).value;
            items != [] && (forall a <- items :: InLevel(a, OR)) && ts == YieldItems(items) + rest
    decreases |ts|, 2
  {
    ParseSound(OR, ts);
    var (e, rest) := Parse(OR, ts).value;
    if AtPunct(rest, ",") {
      ItemsSound(rest[1..]);
    }
  }

  /** No operator that binds at least as tightly as `level` continues an expression before `rest`. */
  ghost predicate Stops(level: nat, rest: seq<Token>) {
    forall l | level <= l <= MUL :: !AtOperator(l, rest)
  }

  /** Completeness with a follow-token argument: parsing the yield of a tree at its level leads to
    * the state of that level's loop in which the tree has just been read. */
  lemma {:induction false} ParseYield(e: Expr, level: nat, rest: seq<Token>)
    requires level <= PRIMARY && InLevel(e, level) && Stops(level + 1, rest)
    ensures level <= MUL ==> Parse(level, Yield(e) + rest) == ParseTail(level, e, rest)
    ensures level > MUL ==> Parse(level, Yield(e) + rest) == Ok((e, rest))
    decreases e, 1, PRIMARY - level
  {
    if e.Binary? && e.level == level {
      BinaryYield(e, rest);
    } else if level <= MUL {
      ParseYield(e, level + 1, rest);
    } else if e.Unary? && level == UNARY {
      assert (Yield(e) + rest)[1..] == Yield(e.operand) + rest;
      ParseYield(e.operand, UNARY, rest);
    } else {
      YieldHeadIsNotPrefix(e, rest);
      PrimaryYield(e, rest);
    }
  }

  /** One turn of a level's loop reads an operator and its right operand. */
  lemma {:induction false} BinaryYield(e: Expr, rest: seq<Token>)
    requires e.Binary? && InLevel(e, e.level) && Stops(e.level + 1, rest)
    ensures Parse(e.level, Yield(e) + rest) == ParseTail(e.level, e, rest)
    decreases e, 0
  {
    var mid := [Punct(e.op)] + Yield(e.right) + rest;
    assert Yield(e) + rest == Yield(e.left) + mid;
    assert mid[1..] == Yield(e.right) + rest;
    assert AtOperator(e.level, mid);
    ParseYield(e.left, e.level, mid);
    ParseYield(e.right, e.level + 1, rest);
  }

  lemma YieldHeadIsNotPrefix(e: Expr, rest: seq<Token>)
    requires InLevel(e, PRIMARY)
    ensures |Yield(e)| > 0
    ensures var t := (Yield(e) + rest)[0]; !(t.Punct? && IsPrefix(t.text))
  {}

  lemma {:induction false} PrimaryYield(e: Expr, rest: seq<Token>)
    requires InLevel(e, PRIMARY)
    ensures ParsePrimary(Yield(e) + rest) == Ok((e, rest))
    decreases e, 0
  {
    match e
    case Literal(_) =>
      assert (Yield(e) + rest)[1..] == rest;
    case Call(name, args) =>
      BracketedYield(")", args, rest);
      CallStarts(name, args, rest);
      CallIsParsed(Yield(e) + rest, name, args, rest);
    case Field(name) =>
      assert (Yield(e) + rest)[2..] == [Punct("}")] + rest;
    case ListOf(items) =>
      BracketedYield("]", items, rest);
      ListStarts(items, rest);
      ListIsParsed(Yield(e) + rest, items, rest);
    case Paren(inner) =>
      ParseYield(inner, OR, [Punct(")")] + rest);
      ParenStarts(inner, rest);
      ParenIsParsed(Yield(e) + rest, inner, [Punct(")")] + rest);
  }

  lemma CallStarts(name: string, args: seq<Expr>, rest: seq<Token>)
    ensures var ts := Yield(Call(name, args)) + rest;
            && |ts| >= 2 && ts[0] == Ident(name) && AtPunct(ts[1..], "(")
            && ts[2..] == YieldItems(args) + [Punct(")")] + rest
  {}

  lemma ListStarts(items: seq<Expr>, rest: seq<Token>)
    ensures var ts := Yield(ListOf(items)) + rest;
            |ts| >= 1 && ts[0] == Punct("[") && ts[1..] == YieldItems(items) + [Punct("]")] + rest
  {}

  lemma ParenStarts(inner: Expr, rest: seq<Token>)
    ensures var ts := Yield(Paren(inner)) + rest;
            && |ts| >= 1 && ts[0] == Punct("(") && ts[1..] == Yield(inner) + ([Punct(")")] + rest)
            && ([Punct(")")] + rest)[1..] == rest
  {}

  lemma CallIsParsed(ts: seq<Token>, name: string, args: seq<Expr>, rest: seq<Token>)
    requires |ts| >= 2 && ts[0] == Ident(name) && !IsLiteralName(name) && AtPunct(ts[1..], "(")
    requires ParseBracketed(")", ts[2..]) == Ok((args, rest))
    ensures ParsePrimary(ts) == Ok((Call(name, args), rest))
  {}

  lemma ListIsParsed(ts: seq<Token>, items: seq<Expr>, rest: seq<Token>)
    requires |ts| >= 1 && ts[0] == Punct("[") && ParseBracketed("]", ts[1..]) == Ok((items, rest))
    ensures ParsePrimary(ts) == Ok((ListOf(items), rest))
  {}

  lemma ParenIsParsed(ts: seq<Token>, inner: Expr, tail: seq<Token>)
    requires |ts| >= 1 && ts[0] == Punct("(") && Parse(OR, ts[1..]) == Ok((inner, tail)) && AtPunct(tail, ")")
    ensures ParsePrimary(ts) == Ok((Paren(inner), tail[1..]))
  {}

  lemma {:induction false} BracketedYield(close: string, items: seq<Expr>, rest: seq<Token>)
    requires close == ")" || close == "]"
    requires forall a <- items :: InLevel(a, OR)
    ensures ParseBracketed(close, YieldItems(items) + [Punct(close)] + rest) == Ok((items, rest))
    decreases items, 2
  {
    var tail := [Punct(close)] + rest;
    assert YieldItems(items) + [Punct(close)] + rest == YieldItems(items) + tail;
    assert tail[1..] == rest;
    if items != [] {
      ItemsYield(items, tail);
      ItemsHeadIsNotClose(items, tail, close);
    } else {
      assert YieldItems(items) + tail == tail;
    }
  }

  /** No tree starts with a closing bracket, so an empty list is never mistaken for a full one. */
  lemma {:induction false} HeadIsNotClose(e: Expr, level: nat)
    requires InLevel(e, level)
    ensures |Yield(e)| > 0 && Yield(e)[0] != Punct(")") && Yield(e)[0] != Punct("]")
    decreases e
  {
    if e.Binary? {
      HeadIsNotClose(e.left, e.level);
    }
  }

  lemma ItemsHeadIsNotClose(items: seq<Expr>, tail: seq<Token>, close: string)
    requires close == ")" || close == "]"
    requires items != [] && forall a <- items :: InLevel(a, OR)
    ensures !AtPunct(YieldItems(items) + tail, close)
  {
    HeadIsNotClose(items[0], OR);
  }

  lemma {:induction false} ItemsYield(items: seq<Expr>, tail: seq<Token>)
    requires items != [] && forall a <- items :: InLevel(a, OR)
    requires |tail| > 0 && (tail[0] == Punct(")") || tail[0] == Punct("]"))
    ensures ParseItems(YieldItems(items) + tail) == Ok((items, tail))
    decreases items, 1
  {
    var e := items[0];
    if |items| == 1 {
      assert items == [e];
      ParseYield(e, OR, tail);
    } else {
      var rest := [Punct(",")] + YieldItems(items[1..]) + tail;
      assert YieldItems(items) + tail == Yield(e) + rest;
      assert rest[1..] == YieldItems(items[1..]) + tail;
      assert items == [e] + items[1..];
      ParseYield(e, OR, rest);
      ItemsYield(items[1..], tail);
      OneMoreItem(Yield(e) + rest, e, rest, items[1..], tail);
    }
  }

  lemma OneMoreItem(ts: seq<Token>, e: Expr, rest: seq<Token>, items: seq<Expr>, tail: seq<Token>)
    requires Parse(OR, ts) == Ok((e, rest)) && AtPunct(rest, ",") && ParseItems(rest[1..]) == Ok((items, tail))
    ensures ParseItems(ts) == Ok(([e] + items, tail))
  {}

  /** The whole parse: one expression and nothing after it. */
  function ParseAll(tokens: seq<Token>): Result<Expr, FormulaError> {
    var (e, rest) :- Parse(OR, tokens);
    if rest == [] then Ok(e) else Err(TrailingToken(rest[0]))
  }

  /** Every tree is recovered from its yield. */
  lemma ParseAllYield(e: Expr)
    requires InLevel(e, OR)
    ensures ParseAll(Yield(e)) == Ok(e)
  {
    assert Yield(e) + [] == Yield(e);
    ParseYield(e, OR, []);
  }

  /** The parser succeeds exactly on the formulas of the grammar. */
  lemma ParserRecognisesGrammar(tokens: seq<Token>)
    ensures ParseAll(tokens).Ok? <==> IsFormula(tokens)
  {
    if ParseAll(tokens).Ok? {
      var e := ParseAll(tokens).value;
      ParseSound(OR, tokens);
      assert Yield(e) + [] == Yield(e);
      assert InLevel(e, OR) && Yield(e) == tokens;
    }
    if IsFormula(tokens) {
      var e :| InLevel(e, OR) && Yield(e) == tokens;
      ParseAllYield(e);
    }
  }

  /** The grammar is unambiguous: a token list has at most one derivation, so precedence and
    * left association are forced. */
  lemma GrammarUnambiguous(e1: Expr, e2: Expr)
    requires InLevel(e1, OR) && InLevel(e2, OR) && Yield(e1) == Yield(e2)
    ensures e1 == e2
  {
    ParseAllYield(e1);
    ParseAllYield(e2);
  }
}
