/** `parseFormula`: the guards, the tokenizer and the parser together. */
module Formula {
  import opened Results
  import opened FormulaGrammar
  import JsText
  import FormulaLexer
  import FormulaSyntax
  import FormulaParser

  const MAX_LENGTH: nat := 4096
  const MAX_TOKENS: nat := 1024

  /** A text is accepted exactly when it is short enough and cuts into longest spellings of a token
    * list that the grammar derives. Nothing else is asked of it: the two emptiness guards refuse no
    * text that would otherwise pass. */
  ghost predicate IsAccepted(expression: string) {
    && JsText.Length(expression) <= MAX_LENGTH
    && exists pieces :: FormulaLexer.Segments(expression, pieces) && |pieces| <= MAX_TOKENS &&
                        IsFormula(FormulaLexer.Tokens(pieces))
  }

  method ParseFormula(expression: string) returns (r: Result<(), FormulaError>)
    ensures r.Ok? <==> IsAccepted(expression)
    ensures JsText.AllSpaces(expression) ==> r == Err(FormulaEmpty)
    ensures !JsText.AllSpaces(expression) && JsText.Length(expression) > 4096 ==> r == Err(FormulaTooLong)
    ensures !JsText.AllSpaces(expression) && JsText.Length(expression) <= 4096 ==>
              match FormulaLexer.Lex(expression)
              case Err(e) => r == Err(e)
              case Ok(tokens) => |tokens| > 1024 ==> r == Err(FormulaTooComplex)
  {
    JsText.TrimEmpties(expression);
    BlankIsNotAccepted(expression);
    if JsText.Trim(expression) == "" {
      return Err(FormulaEmpty);
    }
    if JsText.Length(expression) > MAX_LENGTH {
      return Err(FormulaTooLong);
    }
    var lexed := FormulaLexer.Tokenize(expression);
    if lexed.Err? {
      return Err(lexed.error);
    }
    var tokens := lexed.value;
    NoTokensMeansSpaces(expression);
    if |tokens| == 0 {
      return Err(FormulaEmpty);
    }
    if |tokens| > MAX_TOKENS {
      return Err(FormulaTooComplex);
    }
    var parser := new FormulaParser.Parser(tokens);
    var node := parser.Parse();
    return if node.Ok? then Ok(()) else Err(node.error);
  }

  /** Blanks of the tokenizer are white space of the trim, so a text without tokens is all space. */
  lemma NoTokensMeansSpaces(s: string)
    ensures FormulaLexer.Lex(s) == Ok([]) ==> JsText.AllSpaces(s)
  {
    if s != [] && FormulaLexer.IsBlank(s[0]) {
      NoTokensMeansSpaces(s[1..]);
    }
  }

  lemma BlankIsNotAccepted(s: string)
    ensures JsText.AllSpaces(s) ==> !IsAccepted(s)
  {
    if JsText.AllSpaces(s) {
      forall pieces | FormulaLexer.Segments(s, pieces) ensures pieces == [] {
        if pieces != [] {
          PiecesAreNotSpaces(s, pieces);
        }
      }
      if IsFormula([]) {
        var e :| InLevel(e, OR) && Yield(e) == [];
        FormulaSyntax.HeadIsNotClose(e, OR);
      }
    }
  }

  lemma PiecesAreNotSpaces(s: string, pieces: seq<FormulaLexer.Piece>)
    requires FormulaLexer.Segments(s, pieces) && pieces != []
    ensures !JsText.AllSpaces(s)
  {
    var p := pieces[0];
    SpellingIsNotSpace(p.raw, p.token);
    assert s[|p.gap|] == s[..|p.gap| + |p.raw|][|p.gap|] == p.raw[0];
  }

  lemma SpellingIsNotSpace(raw: string, token: Token)
    requires FormulaLexer.Spells(raw, token)
    ensures raw != [] && !JsText.IsSpace(raw[0])
  {}
}
