/** Formulas as texts. The language is stated over characters and literal marks, away from the
  * predicates that the scanner and the parser branch on, and proved to be the accepted one. */
module FormulaText {
  import opened Results
  import opened FormulaGrammar
  import opened FormulaLexer
  import opened FormulaSyntax
  import Formula
  import JsText

  // ---------- The alphabet ----------

  ghost predicate Digit(c: char) {
    '0' <= c <= '9'
  }

  ghost predicate Letter(c: char) {
    'a' <= c <= 'z' || 'A' <= c <= 'Z' || c == '_'
  }

  /** Letters, digits and underscores, with no digit in front. */
  ghost predicate NameText(s: string) {
    s != "" && !Digit(s[0]) && forall i | 0 <= i < |s| :: Letter(s[i]) || Digit(s[i])
  }

  /** Digits and at most one dot, which does not stand in front unless a digit follows. */
  ghost predicate NumberText(s: string) {
    && s != "" && (Digit(s[0]) || (|s| > 1 && Digit(s[1])))
    && (forall i | 0 <= i < |s| :: Digit(s[i]) || s[i] == '.')
    && forall i, j | 0 <= i < j < |s| :: !(s[i] == '.' && s[j] == '.')
  }

  ghost predicate MarkText(s: string) {
    || s in ["==", "!=", "<=", ">=", "&&", "||"]
    || s in ["+", "-", "*", "/", "(", ")", "{", "}", "[", "]", ",", "<", ">", "!"]
  }

  ghost predicate PlainToken(token: Token) {
    match token
    case Num(lexeme) => NumberText(lexeme)
    case Str(_) => true
    case Ident(name) => NameText(name)
    case Punct(text) => MarkText(text)
  }

  ghost predicate PlainGap(s: string) {
    forall i | 0 <= i < |s| :: s[i] == ' ' || s[i] == '\t' || s[i] == '\n' || s[i] == '\r'
  }

  /** Digits with at most one dot, or none where a dot has been seen. */
  ghost predicate Counted(s: string, sawDot: bool) {
    && (forall i | 0 <= i < |s| :: Digit(s[i]) || (s[i] == '.' && !sawDot))
    && forall i, j | 0 <= i < j < |s| :: !(s[i] == '.' && s[j] == '.')
  }

  lemma CountedSplits(s: string, sawDot: bool)
    requires s != "" && Counted(s, sawDot)
    ensures (Digit(s[0]) && Counted(s[1..], sawDot)) || (s[0] == '.' && !sawDot && Counted(s[1..], true))
  {
    var t := s[1..];
    assert forall i | 0 <= i < |t| :: t[i] == s[i + 1];
  }

  lemma CountedJoins(s: string, sawDot: bool)
    requires s != ""
    requires (Digit(s[0]) && Counted(s[1..], sawDot)) || (s[0] == '.' && !sawDot && Counted(s[1..], true))
    ensures Counted(s, sawDot)
  {
    var t := s[1..];
    assert forall i | 0 < i < |s| :: s[i] == t[i - 1];
  }

  lemma {:induction false} DigitsAndDotIsCounted(s: string, sawDot: bool)
    ensures DigitsAndDot(s, sawDot) <==> Counted(s, sawDot)
  {
    if s != "" {
      DigitsAndDotIsCounted(s[1..], sawDot);
      DigitsAndDotIsCounted(s[1..], true);
      if Counted(s, sawDot) {
        CountedSplits(s, sawDot);
      }
      if DigitsAndDot(s, sawDot) {
        CountedJoins(s, sawDot);
      }
    }
  }

  /** The scanner's alphabet is the stated one, token by token. */
  lemma WellFormedIsPlain(token: Token)
    ensures IsWellFormed(token) <==> PlainToken(token)
  {
    match token
    case Num(lexeme) => DigitsAndDotIsCounted(lexeme, false);
    case Str(_) =>
    case Ident(name) => assert forall i | 0 <= i < |name| :: name[i] in name;
    case Punct(text) =>
      if |text| == 1 {
        assert text == [text[0]];
      }
  }

  lemma BlanksArePlain(s: string)
    ensures AllBlank(s) <==> PlainGap(s)
  {
    assert forall i | 0 <= i < |s| :: s[i] in s;
  }

  // ---------- From trees to texts ----------

  /** The leaves and names of a tree can be written down. */
  ghost predicate PlainLeaves(e: Expr)
    decreases e
  {
    match e
    case Binary(_, left, _, right) => PlainLeaves(left) && PlainLeaves(right)
    case Unary(_, operand) => PlainLeaves(operand)
    case Literal(token) => PlainToken(token)
    case Call(name, args) => NameText(name) && forall a <- args :: PlainLeaves(a)
    case Field(name) => NameText(name)
    case ListOf(items) => forall a <- items :: PlainLeaves(a)
    case Paren(inner) => PlainLeaves(inner)
  }

  ghost predicate AllPlain(tokens: seq<Token>) {
    forall i | 0 <= i < |tokens| :: PlainToken(tokens[i])
  }

  lemma PlainConcat(a: seq<Token>, b: seq<Token>)
    requires AllPlain(a) && AllPlain(b)
    ensures AllPlain(a + b)
  {}

  lemma PlainPunct(text: string)
    requires MarkText(text)
    ensures AllPlain([Punct(text)])
  {}

  lemma PlainBetween(open: seq<Token>, tokens: seq<Token>, close: string)
    requires AllPlain(open) && AllPlain(tokens) && MarkText(close)
    ensures AllPlain(open + tokens + [Punct(close)])
  {}

  lemma OperatorIsMark(level: nat, op: string)
    requires IsOperator(level, op)
    ensures MarkText(op)
  {}

  lemma {:induction false} YieldIsPlain(e: Expr, level: nat)
    requires InLevel(e, level) && PlainLeaves(e)
    ensures AllPlain(Yield(e))
    decreases e, 0
  {
    match e
    case Binary(l, left, op, right) =>
      YieldIsPlain(left, l);
      YieldIsPlain(right, l + 1);
      OperatorIsMark(l, op);
      PlainPunct(op);
      PlainConcat(Yield(left), [Punct(op)]);
      PlainConcat(Yield(left) + [Punct(op)], Yield(right));
    case Unary(op, operand) =>
      YieldIsPlain(operand, UNARY);
      PlainPunct(op);
      PlainConcat([Punct(op)], Yield(operand));
    case Literal(token) =>
    case Call(name, args) =>
      ItemsArePlain(args);
      PlainBetween([Ident(name), Punct("(")], YieldItems(args), ")");
    case Field(name) =>
    case ListOf(items) =>
      ItemsArePlain(items);
      PlainBetween([Punct("[")], YieldItems(items), "]");
    case Paren(inner) =>
      YieldIsPlain(inner, OR);
      PlainBetween([Punct("(")], Yield(inner), ")");
  }

  lemma {:induction false} ItemsArePlain(items: seq<Expr>)
    requires forall a <- items :: InLevel(a, OR) && PlainLeaves(a)
    ensures AllPlain(YieldItems(items))
    decreases items, 1
  {
    if items != [] {
      YieldIsPlain(items[0], OR);
      ItemsArePlain(items[1..]);
      PlainPunct(",");
      PlainConcat(Yield(items[0]), [Punct(",")]);
      PlainConcat(Yield(items[0]) + [Punct(",")], YieldItems(items[1..]));
    }
  }

  /** Written without a gap, a token would run into the following character. */
  ghost predicate RunsInto(token: Token, c: char) {
    match token
    case Num(lexeme) => Digit(c) || (c == '.' && '.' !in lexeme)
    case Str(_) => false
    case Ident(_) => Letter(c) || Digit(c)
    case Punct(text) => (text == "<" || text == ">" || text == "!") && c == '='
  }

  /** Gaps of blanks around and between the tokens, which are left out only where no token runs into
    * the next one. */
  ghost predicate Spaced(tokens: seq<Token>, gaps: seq<string>) {
    && |gaps| == |tokens| + 1
    && (forall g <- gaps :: PlainGap(g))
    && forall i | 0 < i < |tokens| ::
         gaps[i] == "" && Spelling(tokens[i]) != "" ==> !RunsInto(tokens[i - 1], Spelling(tokens[i])[0])
  }

  lemma ApartIsLongest(token: Token, following: string)
    requires PlainToken(token) && (following != "" ==> !RunsInto(token, following[0]))
    ensures IsLongest(Spelling(token), token, following)
  {
    if token.Punct? && |token.text| == 1 && following != "" {
      var two := token.text + [following[0]];
      assert two[0] == token.text[0] && two[1] == following[0] && token.text == [token.text[0]];
    }
  }

  lemma SpacedIsSeparating(tokens: seq<Token>, gaps: seq<string>)
    requires Spaced(tokens, gaps) && AllPlain(tokens)
    ensures Separating(tokens, gaps)
  {
    forall g <- gaps ensures AllBlank(g) {
      BlanksArePlain(g);
    }
    forall i | 0 < i < |tokens| && gaps[i] == []
      ensures IsLongest(Spelling(tokens[i - 1]), tokens[i - 1], Spelling(tokens[i]))
    {
      ApartIsLongest(tokens[i - 1], Spelling(tokens[i]));
    }
  }

  lemma PlainReadsBack(tokens: seq<Token>, gaps: seq<string>)
    requires Spaced(tokens, gaps) && AllPlain(tokens)
    ensures Lex(Print(tokens, gaps)) == Ok(tokens)
  {
    SpacedIsSeparating(tokens, gaps);
    forall t <- tokens ensures IsWellFormed(t) {
      WellFormedIsPlain(t);
    }
    PrintedLexesBack(tokens, gaps);
  }

  lemma AcceptedByTokens(text: string, tokens: seq<Token>)
    requires Lex(text) == Ok(tokens)
    ensures Formula.IsAccepted(text) <==> JsText.Length(text) <= 4096 && |tokens| <= 1024 && IsFormula(tokens)
  {
    LexIsSegmentation(text);
    forall pieces | Segments(text, pieces) ensures Tokens(pieces) == tokens && |pieces| == |tokens| {}
  }

  /** Every derivation, written with any blanks that keep its tokens apart, is read back as itself, and
    * is accepted unless it is longer than 4096 units or has more than 1024 tokens. */
  lemma WrittenFormulaIsAccepted(e: Expr, gaps: seq<string>)
    requires InLevel(e, 0) && PlainLeaves(e) && Spaced(Yield(e), gaps)
    ensures Lex(Print(Yield(e), gaps)) == Ok(Yield(e)) && ParseAll(Yield(e)) == Ok(e)
    ensures var text := Print(Yield(e), gaps);
            Formula.IsAccepted(text) <==> JsText.Length(text) <= 4096 && |Yield(e)| <= 1024
  {
    YieldIsPlain(e, OR);
    PlainReadsBack(Yield(e), gaps);
    ParseAllYield(e);
    ParserRecognisesGrammar(Yield(e));
    AcceptedByTokens(Print(Yield(e), gaps), Yield(e));
  }

  /** A tree written out, with one blank in front of each token. */
  function Text(e: Expr): string
    decreases e, 0
  {
    match e
    case Binary(_, left, op, right) => Text(left) + " " + op + Text(right)
    case Unary(op, operand) => " " + op + Text(operand)
    case Literal(token) => " " + Spelling(token)
    case Call(name, args) => " " + name + " (" + ItemsText(args) + " )"
    case Field(name) => " { " + name + " }"
    case ListOf(items) => " [" + ItemsText(items) + " ]"
    case Paren(inner) => " (" + Text(inner) + " )"
  }

  function ItemsText(items: seq<Expr>): string
    decreases items, 1
  {
    if |items| == 0 then ""
    else if |items| == 1 then Text(items[0])
    else Text(items[0]) + " ," + ItemsText(items[1..])
  }

  /** The tokens, each behind a blank. */
  function Trail(tokens: seq<Token>): string {
    if tokens == [] then "" else " " + Spelling(tokens[0]) + Trail(tokens[1..])
  }

  lemma Regroup(a: string, b: string, c: string)
    ensures a + (b + c) == a + b + c
  {}

  lemma {:induction false} TrailConcat(a: seq<Token>, b: seq<Token>)
    ensures Trail(a + b) == Trail(a) + Trail(b)
  {
    if a == [] {
      assert a + b == b;
    } else {
      TrailConcat(a[1..], b);
      assert (a + b)[1..] == a[1..] + b;
      Regroup(" " + Spelling(a[0]), Trail(a[1..]), Trail(b));
    }
  }

  lemma TrailOne(token: Token)
    ensures Trail([token]) == " " + Spelling(token)
  {}

  lemma TrailBetween(open: seq<Token>, tokens: seq<Token>, close: string)
    ensures Trail(open + tokens + [Punct(close)]) == Trail(open) + Trail(tokens) + " " + close
  {
    TrailConcat(open, tokens);
    TrailConcat(open + tokens, [Punct(close)]);
    TrailOne(Punct(close));
  }

  lemma BinaryTrail(left: seq<Token>, op: string, right: seq<Token>)
    ensures Trail(left + [Punct(op)] + right) == Trail(left) + " " + op + Trail(right)
  {
    TrailBetween([], left, op);
    assert [] + left == left;
    TrailConcat(left + [Punct(op)], right);
  }

  lemma CallTrail(name: string, args: seq<Token>)
    ensures Trail([Ident(name), Punct("(")] + args + [Punct(")")]) == " " + name + " (" + Trail(args) + " )"
  {
    TrailBetween([Ident(name), Punct("(")], args, ")");
    TrailConcat([Ident(name)], [Punct("(")]);
    TrailOne(Ident(name));
    TrailOne(Punct("("));
    assert [Ident(name)] + [Punct("(")] == [Ident(name), Punct("(")];
    assert " " + name + (" " + "(") == " " + name + " (";
    assert " " + name + " (" + Trail(args) + " " + ")" == " " + name + " (" + Trail(args) + " )";
  }

  lemma FieldTrail(name: string)
    ensures Trail([Punct("{"), Ident(name), Punct("}")]) == " { " + name + " }"
  {
    TrailBetween([Punct("{")], [Ident(name)], "}");
    TrailOne(Punct("{"));
    TrailOne(Ident(name));
  }

  lemma ListTrail(items: seq<Token>)
    ensures Trail([Punct("[")] + items + [Punct("]")]) == " [" + Trail(items) + " ]"
  {
    TrailBetween([Punct("[")], items, "]");
    TrailOne(Punct("["));
    assert " [" + Trail(items) + " " + "]" == " [" + Trail(items) + " ]";
  }

  lemma ParenTrail(inner: seq<Token>)
    ensures Trail([Punct("(")] + inner + [Punct(")")]) == " (" + Trail(inner) + " )"
  {
    TrailBetween([Punct("(")], inner, ")");
    TrailOne(Punct("("));
    assert " (" + Trail(inner) + " " + ")" == " (" + Trail(inner) + " )";
  }

  lemma {:induction false} TextIsTrail(e: Expr)
    ensures Trail(Yield(e)) == Text(e)
    decreases e, 0
  {
    match e
    case Binary(_, left, op, right) =>
      TextIsTrail(left);
      TextIsTrail(right);
      BinaryTrail(Yield(left), op, Yield(right));
    case Unary(op, operand) =>
      TextIsTrail(operand);
      TrailOne(Punct(op));
      TrailConcat([Punct(op)], Yield(operand));
    case Literal(token) => TrailOne(token);
    case Call(name, args) =>
      ItemsAreTrail(args);
      CallTrail(name, YieldItems(args));
    case Field(name) => FieldTrail(name);
    case ListOf(items) =>
      ItemsAreTrail(items);
      ListTrail(YieldItems(items));
    case Paren(inner) =>
      TextIsTrail(inner);
      ParenTrail(Yield(inner));
  }

  lemma {:induction false} ItemsAreTrail(items: seq<Expr>)
    ensures Trail(YieldItems(items)) == ItemsText(items)
    decreases items, 1
  {
    if |items| > 0 {
      TextIsTrail(items[0]);
      ItemsAreTrail(items[1..]);
      BinaryTrail(Yield(items[0]), ",", YieldItems(items[1..]));
    }
  }

  /** One blank in front of each of `n` tokens and none behind them. */
  function SingleBlanks(n: nat): (r: seq<string>)
    ensures |r| == n + 1 && r[n] == "" && forall i | 0 <= i < n :: r[i] == " "
  {
    seq(n, i => " ") + [""]
  }

  lemma {:induction false} TrailIsPrint(tokens: seq<Token>)
    ensures Trail(tokens) == Print(tokens, SingleBlanks(|tokens|))
  {
    if tokens != [] {
      TrailIsPrint(tokens[1..]);
      assert SingleBlanks(|tokens|)[1..] == SingleBlanks(|tokens| - 1);
    }
  }

  /** The marks of the language are the written ones: a tree spelled out is read back as that tree. */
  lemma TextIsRead(e: Expr)
    requires InLevel(e, 0) && PlainLeaves(e)
    ensures Lex(Text(e)) == Ok(Yield(e)) && ParseAll(Yield(e)) == Ok(e)
    ensures Formula.IsAccepted(Text(e)) <==> JsText.Length(Text(e)) <= 4096 && |Yield(e)| <= 1024
  {
    var tokens := Yield(e);
    var gaps := SingleBlanks(|tokens|);
    TextIsTrail(e);
    TrailIsPrint(tokens);
    WrittenFormulaIsAccepted(e, gaps);
  }

  lemma Equality(number: string) returns (e: Expr)
    requires NumberText(number)
    ensures InLevel(e, 2) && PlainLeaves(e) && Text(e) == " " + number + " ==" + " " + number && |Yield(e)| == 3
  {
    e := Binary(2, Literal(Num(number)), "==", Literal(Num(number)));
  }

  lemma Conjunction(left: Expr, right: Expr) returns (e: Expr)
    requires InLevel(left, 2) && InLevel(right, 2) && PlainLeaves(left) && PlainLeaves(right)
    ensures InLevel(e, 0) && PlainLeaves(e) && Text(e) == Text(left) + " " + "&&" + Text(right)
    ensures |Yield(e)| == |Yield(left)| + 1 + |Yield(right)|
  {
    e := Binary(1, left, "&&", right);
    InWeaker(left, 2, 1);
  }

  lemma InWeaker(e: Expr, level: nat, weaker: nat)
    requires InLevel(e, level) && weaker <= level
    ensures InLevel(e, weaker)
  {}

  lemma TextOfConjunction(text: string, left: string, right: string)
    requires text == " 1 == 1 && 2 == 2" && left == " " + "1" + " ==" + " " + "1"
    requires right == " " + "2" + " ==" + " " + "2"
    ensures text == left + " " + "&&" + right && |text| == 17
  {}

  lemma ConjunctionIsAccepted(text: string)
    requires text == " 1 == 1 && 2 == 2"
    ensures Formula.IsAccepted(text)
  {
    var left := Equality("1");
    var right := Equality("2");
    var e := Conjunction(left, right);
    TextOfConjunction(text, Text(left), Text(right));
    ShortText(text);
    TextIsRead(e);
  }

  lemma {:induction false} ShortText(s: string)
    ensures JsText.Length(s) <= 2 * |s|
  {
    if s != "" {
      ShortText(s[1..]);
    }
  }

  // ---------- Binding strength ----------

  /** The binary operators, weakest first. */
  function Strength(op: string): Option<nat> {
    if op == "||" then Some(0)
    else if op == "&&" then Some(1)
    else if op == "==" || op == "!=" then Some(2)
    else if op == "<" || op == "<=" || op == ">" || op == ">=" then Some(3)
    else if op == "+" || op == "-" then Some(4)
    else if op == "*" || op == "/" then Some(5)
    else None
  }

  lemma OperatorsByStrength(level: nat, op: string)
    ensures IsOperator(level, op) <==> Strength(op) == Some(level)
  {}

  /** Three operands need no brackets: the operator that binds tighter takes its operands first, the left
    * one among equals, and prefixes bind tighter than both. */
  lemma PrecedenceDecides(x: Expr, a: string, y: Expr, b: string, z: Expr)
    requires InLevel(x, 6) && InLevel(y, 6) && InLevel(z, 6) && Strength(a).Some? && Strength(b).Some?
    ensures var i, j := Strength(a).value, Strength(b).value;
            ParseAll(Yield(x) + [Punct(a)] + Yield(y) + [Punct(b)] + Yield(z)) ==
              Ok(if i >= j then Binary(j, Binary(i, x, a, y), b, z) else Binary(i, x, a, Binary(j, y, b, z)))
  {
    var i, j := Strength(a).value, Strength(b).value;
    OperatorsByStrength(i, a);
    OperatorsByStrength(j, b);
    InWeaker(x, UNARY, i);
    InWeaker(y, UNARY, i + 1);
    InWeaker(z, UNARY, j + 1);
    if i >= j {
      ParseAllYield(Binary(j, Binary(i, x, a, y), b, z));
    } else {
      InWeaker(y, UNARY, j);
      var e := Binary(i, x, a, Binary(j, y, b, z));
      ParseAllYield(e);
      assert Yield(e) == Yield(x) + [Punct(a)] + Yield(y) + [Punct(b)] + Yield(z);
    }
  }

  /** A token that cannot continue a whole formula is the one reported, whatever comes after it. */
  lemma TrailingTokenIsReported(e: Expr, t: Token, more: seq<Token>)
    requires InLevel(e, 0) && !(t.Punct? && Strength(t.text).Some?)
    ensures ParseAll(Yield(e) + [t] + more) == Err(TrailingToken(t))
  {
    var rest := [t] + more;
    forall l | 0 <= l <= MUL ensures !AtOperator(l, rest) {
      if t.Punct? {
        OperatorsByStrength(l, t.text);
      }
    }
    ParseYield(e, OR, rest);
    assert Yield(e) + [t] + more == Yield(e) + rest;
  }

  /** What an operand can be: prefixed operands, numbers, strings, the three literal names, calls with any
    * formulas as arguments, fields, lists and brackets. */
  lemma OperandForms(e: Expr, items: seq<Expr>, name: string, number: string, text: string)
    requires InLevel(e, 0) && forall a <- items :: InLevel(a, 0)
    ensures InLevel(Paren(e), 7) && InLevel(ListOf(items), 7) && InLevel(Field(name), 7)
    ensures InLevel(Literal(Num(number)), 7) && InLevel(Literal(Str(text)), 7)
    ensures InLevel(Literal(Ident(name)), 7) <==> name in ["true", "false", "null"]
    ensures InLevel(Call(name, items), 7) <==> name !in ["true", "false", "null"]
    ensures forall op :: InLevel(Unary(op, e), 6) <==> op in ["-", "!"] && InLevel(e, 6)
  {}

  /** A name alone is a formula when it is one of the three literals, and is reported otherwise. */
  lemma NameAlone(name: string)
    ensures ParseAll([Ident(name)]) ==
            if name in ["true", "false", "null"] then Ok(Literal(Ident(name))) else Err(BareIdentifier(name))
  {
    assert [Ident(name)][1..] == [];
    if IsLiteralName(name) {
      assert Yield(Literal(Ident(name))) == [Ident(name)];
      ParseAllYield(Literal(Ident(name)));
    } else {
      BareNameFails(name, OR);
    }
  }

  lemma {:induction false} BareNameFails(name: string, level: nat)
    requires !IsLiteralName(name) && level <= PRIMARY
    ensures Parse(level, [Ident(name)]) == Err(BareIdentifier(name))
    decreases PRIMARY - level
  {
    if level < PRIMARY {
      BareNameFails(name, level + 1);
    }
  }

  /** After a backslash come a backslash, a quote, `n` or `t`, and nothing else. */
  lemma EscapesAreFour(c: char, s: string)
    requires Lex(['"'] + s).Ok?
    ensures var read := Lex(['"', '\\', c] + s);
            if c in ['\\', '"', 'n', 't'] then
              var d := if c == 'n' then '\n' else if c == 't' then '\t' else c;
              var (out, rest) := StringBody(s).value;
              read == Prepend([Str([d] + out)], Lex(rest))
            else read == Err(InvalidEscape(Some(c)))
  {
    assert (['"'] + s)[1..] == s;
    assert (['"', '\\', c] + s)[1..] == ['\\', c] + s && (['\\', c] + s)[2..] == s;
  }

  // ---------- What is refused ----------

  /** Letters, digits, blanks, quotes, the dot and the first characters of marks. */
  ghost predicate CanBegin(c: char) {
    Letter(c) || Digit(c) || PlainGap([c]) || c in "\".+-*/(){}[],<>!=&|"
  }

  /** A character that begins no token is reported, whatever follows it. */
  lemma StrangeCharacterIsReported(gap: string, c: char, rest: string)
    requires PlainGap(gap) && !CanBegin(c)
    ensures Lex(gap + ([c] + rest)) == Err(UnexpectedCharacter(c))
  {
    BlanksArePlain(gap);
    SkipBlanks(gap, [c] + rest);
    BlanksArePlain([c]);
    assert [c][0] == c && c in [c];
    if |rest| > 0 {
      assert ([c] + rest)[..2] == [c, rest[0]];
    }
  }

  /** A quote that is never closed is reported, and so is a backslash at the end of the text. */
  lemma OpenStringIsReported(gap: string, body: string)
    requires PlainGap(gap) && forall i | 0 <= i < |body| :: body[i] != '"' && body[i] != '\\'
    ensures Lex(gap + (['"'] + body)) == Err(UnterminatedString)
    ensures Lex(gap + (['"'] + (body + ['\\']))) == Err(InvalidEscape(None))
  {
    BlanksArePlain(gap);
    SkipBlanks(gap, ['"'] + body);
    SkipBlanks(gap, ['"'] + (body + ['\\']));
    OpenBody(body);
    assert (['"'] + body)[1..] == body;
    assert (['"'] + (body + ['\\']))[1..] == body + ['\\'];
  }

  lemma {:induction false} OpenBody(body: string)
    requires forall i | 0 <= i < |body| :: body[i] != '"' && body[i] != '\\'
    ensures StringBody(body) == Err(UnterminatedString)
    ensures StringBody(body + ['\\']) == Err(InvalidEscape(None))
  {
    if body != "" {
      OpenBody(body[1..]);
      assert (body + ['\\'])[1..] == body[1..] + ['\\'];
    } else {
      assert body + ['\\'] == ['\\'];
    }
  }
}
