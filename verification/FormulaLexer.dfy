/** The formula tokenizer. `Lex` is the specification of the scanning loops; `Segments` is an
  * independent description of what a tokenization is: a cut of the input into white space and
  * longest-possible spellings. The two are proved equivalent, and quoting is proved to round-trip. */
module FormulaLexer {
  import opened Results
  import opened FormulaGrammar

  type Lexed = Result<seq<Token>, FormulaError>

  predicate IsBlank(c: char) {
    c == ' ' || c == '\t' || c == '\n' || c == '\r'
  }

  predicate IsDigit(c: char) {
    '0' <= c <= '9'
  }

  predicate IsAlpha(c: char) {
    'a' <= c <= 'z' || 'A' <= c <= 'Z' || c == '_'
  }

  predicate IsAlphaNum(c: char) {
    IsAlpha(c) || IsDigit(c)
  }

  predicate IsTwoCharPunct(s: string) {
    s == "==" || s == "!=" || s == "<=" || s == ">=" || s == "&&" || s == "||"
  }

  predicate IsOneCharPunct(c: char) {
    c in {'+', '-', '*', '/', '(', ')', '{', '}', '[', ']', ',', '<', '>', '!'}
  }

  function Unescape(c: char): Option<char> {
    if c == '\\' then Some('\\')
    else if c == '"' then Some('"')
    else if c == 'n' then Some('\n')
    else if c == 't' then Some('\t')
    else None
  }

  /** Length of the longest numeral continuing at the front of `s`. */
  function NumberRun(s: string, sawDot: bool): (n: nat)
    ensures n <= |s|
  {
    if s == [] then 0
    else if IsDigit(s[0]) then 1 + NumberRun(s[1..], sawDot)
    else if s[0] == '.' && !sawDot then 1 + NumberRun(s[1..], true)
    else 0
  }

  function IdentRun(s: string): (n: nat)
    ensures n <= |s|
  {
    if s != [] && IsAlphaNum(s[0]) then 1 + IdentRun(s[1..]) else 0
  }

  predicate StartsNumber(s: string) {
    |s| > 0 && (IsDigit(s[0]) || (s[0] == '.' && |s| > 1 && IsDigit(s[1])))
  }

  /** The value of a string literal after its opening quote, and the input after its closing one. */
  function StringBody(s: string): (r: Result<(string, string), FormulaError>)
    ensures r.Ok? ==> |r.value.1| < |s|
  {
    if s == [] then Err(UnterminatedString)
    else if s[0] == '"' then Ok(([], s[1..]))
    else if s[0] == '\\' then
      if |s| == 1 then Err(InvalidEscape(None))
      else if Unescape(s[1]).None? then Err(InvalidEscape(Some(s[1])))
      else
        var (out, rest) :- StringBody(s[2..]);
        Ok(([Unescape(s[1]).value] + out, rest))
    else
      var (out, rest) :- StringBody(s[1..]);
      Ok(([s[0]] + out, rest))
  }

  /** The token at the front of `s`, which is not a blank, and the input after it. */
  function LexToken(s: string): (r: Result<(Token, string), FormulaError>)
    requires s != [] && !IsBlank(s[0])
    ensures r.Ok? ==> |r.value.1| < |s|
  {
    if StartsNumber(s) then
      var n := NumberRun(s, false);
      Ok((Num(s[..n]), s[n..]))
    else if s[0] == '"' then
      var (out, rest) :- StringBody(s[1..]);
      Ok((Str(out), rest))
    else if IsAlpha(s[0]) then
      var n := 1 + IdentRun(s[1..]);
      Ok((Ident(s[..n]), s[n..]))
    else if |s| > 1 && IsTwoCharPunct(s[..2]) then Ok((Punct(s[..2]), s[2..]))
    else if IsOneCharPunct(s[0]) then Ok((Punct([s[0]]), s[1..]))
    else Err(UnexpectedCharacter(s[0]))
  }

  function Lex(s: string): Lexed
    decreases |s|
  {
    if s == [] then Ok([])
    else if IsBlank(s[0]) then Lex(s[1..])
    else
      var (token, rest) :- LexToken(s);
      var tokens :- Lex(rest);
      Ok([token] + tokens)
  }

  function Prepend(tokens: seq<Token>, r: Lexed): Lexed {
    match r
    case Ok(more) => Ok(tokens + more)
    case Err(error) => Err(error)
  }

  // The scanning loops. The source writes the three inner ones inside the outer one.

  method ScanNumber(input: string, i: nat) returns (j: nat)
    requires i < |input|
    ensures j == i + NumberRun(input[i..], false)
  {
    j := i;
    var sawDot := false;
    while j < |input| && (IsDigit(input[j]) || (!sawDot && input[j] == '.'))
      invariant i <= j <= |input|
      invariant NumberRun(input[i..], false) == j - i + NumberRun(input[j..], sawDot)
    {
      if input[j] == '.' {
        sawDot := true;
      }
      j := j + 1;
    }
  }

  method ScanIdent(input: string, i: nat) returns (j: nat)
    requires i < |input|
    ensures j == i + 1 + IdentRun(input[i + 1..])
  {
    j := i + 1;
    while j < |input| && IsAlphaNum(input[j])
      invariant i < j <= |input|
      invariant 1 + IdentRun(input[i + 1..]) == j - i + IdentRun(input[j..])
    {
      j := j + 1;
    }
  }

  /** `j` is left at the closing quote. */
  method ScanString(input: string, i: nat) returns (r: Result<(string, nat), FormulaError>)
    requires i < |input|
    ensures match StringBody(input[i + 1..])
            case Err(error) => r == Err(error)
            case Ok((out, rest)) =>
              r.Ok? && r.value.0 == out && i < r.value.1 < |input| && rest == input[r.value.1 + 1..]
  {
    var j := i + 1;
    var out := "";
    ghost var spec := StringBody(input[j..]);
    EmptyOut(spec);
    while j < |input| && input[j] != '"'
      invariant i < j <= |input| && spec == AfterOut(out, StringBody(input[j..]))
      decreases |input| - j
    {
      if input[j] == '\\' {
        if j + 1 == |input| {
          return Err(InvalidEscape(None));
        }
        var next := input[j + 1];
        var c;
        if next == '\\' {
          c := '\\';
        } else if next == '"' {
          c := '"';
        } else if next == 'n' {
          c := '\n';
        } else if next == 't' {
          c := '\t';
        } else {
          return Err(InvalidEscape(Some(next)));
        }
        MoveOut(out, c, StringBody(input[j..][2..]));
        out := out + [c];
        j := j + 2;
      } else {
        MoveOut(out, input[j], StringBody(input[j..][1..]));
        out := out + [input[j]];
        j := j + 1;
      }
    }
    if j >= |input| {
      return Err(UnterminatedString);
    }
    return Ok((out, j));
  }

  /** A numeral starts at a position. */
  predicate NumberAt(input: string, i: nat)
    requires i < |input|
  {
    IsDigit(input[i]) || (input[i] == '.' && i + 1 < |input| && IsDigit(input[i + 1]))
  }

  lemma Slice(input: string, i: nat, n: nat)
    requires i + n <= |input|
    ensures input[i..][..n] == input[i..i + n] && input[i..][n..] == input[i + n..]
  {}

  lemma NumberIsToken(input: string, i: nat, j: nat)
    requires i < |input| && !IsBlank(input[i]) && NumberAt(input, i) && j == i + NumberRun(input[i..], false)
    ensures LexToken(input[i..]) == Ok((Num(input[i..j]), input[j..]))
  {
    Slice(input, i, j - i);
  }

  lemma StringIsToken(input: string, i: nat)
    requires i < |input| && input[i] == '"'
    ensures LexToken(input[i..]) == match StringBody(input[i + 1..])
                                    case Err(error) => Err(error)
                                    case Ok((out, rest)) => Ok((Str(out), rest))
  {
    assert input[i..][1..] == input[i + 1..];
  }

  lemma IdentIsToken(input: string, i: nat, j: nat)
    requires i < |input| && IsAlpha(input[i]) && j == i + 1 + IdentRun(input[i + 1..])
    ensures LexToken(input[i..]) == Ok((Ident(input[i..j]), input[j..]))
  {
    Slice(input, i, 1);
    Slice(input, i, j - i);
  }

  lemma PunctIsToken(input: string, i: nat)
    requires i < |input| && !IsBlank(input[i]) && !NumberAt(input, i) && input[i] != '"' && !IsAlpha(input[i])
    ensures LexToken(input[i..]) ==
            if i + 1 < |input| && IsTwoCharPunct(input[i..i + 2]) then Ok((Punct(input[i..i + 2]), input[i + 2..]))
            else if IsOneCharPunct(input[i]) then Ok((Punct([input[i]]), input[i + 1..]))
            else Err(UnexpectedCharacter(input[i]))
  {
    var s := input[i..];
    assert s[1..] == input[i + 1..];
    if i + 1 < |input| {
      assert s[..2] == input[i..i + 2] && s[2..] == input[i + 2..];
    }
  }

  /** The result names the position that the specified rest of the input starts at. */
  ghost predicate Locates(input: string, i: nat, r: Result<(Token, nat), FormulaError>,
                          spec: Result<(Token, string), FormulaError>)
  {
    match spec
    case Err(error) => r == Err(error)
    case Ok((token, rest)) =>
      r.Ok? && r.value.0 == token && i < r.value.1 <= |input| && rest == input[r.value.1..]
  }

  /** The token at a character that is not a blank, and the position after it. */
  method ScanToken(input: string, i: nat) returns (r: Result<(Token, nat), FormulaError>)
    requires i < |input| && !IsBlank(input[i])
    ensures Locates(input, i, r, LexToken(input[i..]))
  {
    var c := input[i];
    if IsDigit(c) || (c == '.' && i + 1 < |input| && IsDigit(input[i + 1])) {
      var j := ScanNumber(input, i);
      NumberIsToken(input, i, j);
      return Ok((Num(input[i..j]), j));
    }
    if c == '"' {
      StringIsToken(input, i);
      var scanned :- ScanString(input, i);
      return Ok((Str(scanned.0), scanned.1 + 1));
    }
    if IsAlpha(c) {
      var j := ScanIdent(input, i);
      IdentIsToken(input, i, j);
      return Ok((Ident(input[i..j]), j));
    }
    PunctIsToken(input, i);
    if i + 1 < |input| && IsTwoCharPunct(input[i..i + 2]) {
      return Ok((Punct(input[i..i + 2]), i + 2));
    }
    if IsOneCharPunct(c) {
      return Ok((Punct([c]), i + 1));
    }
    return Err(UnexpectedCharacter(c));
  }

  method Tokenize(input: string) returns (r: Lexed)
    ensures r == Lex(input)
    ensures forall pieces | Segments(input, pieces) :: r == Ok(Tokens(pieces))
    ensures r.Ok? ==> exists pieces :: Segments(input, pieces)
  {
    LexIsSegmentation(input);
    var tokens: seq<Token> := [];
    var i := 0;
    assert input[0..] == input;
    assert Lex(input).Ok? ==> [] + Lex(input).value == Lex(input).value;
    while i < |input|
      invariant i <= |input| && Lex(input) == Prepend(tokens, Lex(input[i..]))
    {
      if IsBlank(input[i]) {
        i := i + 1;
        continue;
      }
      var scanned :- ScanToken(input, i);
      PrependToken(tokens, input[i..], scanned.0, input[scanned.1..]);
      tokens := tokens + [scanned.0];
      i := scanned.1;
    }
    assert tokens + [] == tokens;
    return Ok(tokens);
  }

  function AfterOut(out: string, r: Result<(string, string), FormulaError>): Result<(string, string), FormulaError> {
    match r
    case Ok((more, rest)) => Ok((out + more, rest))
    case Err(error) => Err(error)
  }

  lemma EmptyOut(r: Result<(string, string), FormulaError>)
    ensures AfterOut("", r) == r
  {
    if r.Ok? {
      assert [] + r.value.0 == r.value.0;
    }
  }

  lemma MoveOut(out: string, c: char, r: Result<(string, string), FormulaError>)
    ensures AfterOut(out, AfterOut([c], r)) == AfterOut(out + [c], r)
  {
    if r.Ok? {
      assert out + ([c] + r.value.0) == out + [c] + r.value.0;
    }
  }

  /** One turn of the outer loop moves a token from the unread input to the output. */
  lemma PrependToken(tokens: seq<Token>, s: string, token: Token, rest: string)
    requires s != [] && !IsBlank(s[0]) && LexToken(s) == Ok((token, rest))
    ensures Prepend(tokens, Lex(s)) == Prepend(tokens + [token], Lex(rest))
  {
    if Lex(rest).Ok? {
      assert tokens + ([token] + Lex(rest).value) == tokens + [token] + Lex(rest).value;
    }
  }

  // ---------- What a tokenization is ----------

  /** A stretch of blanks, the characters of one token, and the token they spell. */
  datatype Piece = Piece(gap: string, raw: string, token: Token)

  function Tokens(pieces: seq<Piece>): (r: seq<Token>)
    ensures |r| == |pieces|
  {
    if pieces == [] then [] else [pieces[0].token] + Tokens(pieces[1..])
  }

  ghost predicate AllBlank(s: string) {
    forall c <- s :: IsBlank(c)
  }

  /** Digits with at most one dot, or none once a dot has been seen. */
  ghost predicate DigitsAndDot(s: string, sawDot: bool) {
    s == [] || (IsDigit(s[0]) && DigitsAndDot(s[1..], sawDot)) || (s[0] == '.' && !sawDot && DigitsAndDot(s[1..], true))
  }

  ghost predicate IsNumeral(s: string) {
    StartsNumber(s) && DigitsAndDot(s, false)
  }

  ghost predicate IsIdentifier(s: string) {
    s != [] && IsAlpha(s[0]) && forall c <- s :: IsAlphaNum(c)
  }

  ghost predicate IsPunct(s: string) {
    IsTwoCharPunct(s) || (|s| == 1 && IsOneCharPunct(s[0]))
  }

  /** `body` denotes `value` between quotes. */
  ghost predicate Denotes(body: string, value: string) {
    if body == [] then value == []
    else if value == [] then false
    else if body[0] == '\\' then
      |body| > 1 && Unescape(body[1]) == Some(value[0]) && Denotes(body[2..], value[1..])
    else body[0] != '"' && body[0] == value[0] && Denotes(body[1..], value[1..])
  }

  ghost predicate Spells(raw: string, token: Token) {
    match token
    case Num(lexeme) => raw == lexeme && IsNumeral(lexeme)
    case Str(value) =>
      |raw| >= 2 && raw[0] == '"' && raw[|raw| - 1] == '"' && Denotes(raw[1..|raw| - 1], value)
    case Ident(name) => raw == name && IsIdentifier(name)
    case Punct(text) => raw == text && IsPunct(text)
  }

  /** The spelling cannot be continued by the next character of the input. */
  ghost predicate IsLongest(raw: string, token: Token, following: string) {
    following == [] ||
    match token
    case Num(_) => !IsDigit(following[0]) && (following[0] == '.' ==> '.' in raw)
    case Str(_) => true
    case Ident(_) => !IsAlphaNum(following[0])
    case Punct(_) => |raw| == 1 ==> !IsTwoCharPunct(raw + [following[0]])
  }

  ghost predicate Segments(input: string, pieces: seq<Piece>) {
    if pieces == [] then AllBlank(input)
    else
      var p := pieces[0];
      var n := |p.gap| + |p.raw|;
      && n <= |input| && input[..n] == p.gap + p.raw
      && AllBlank(p.gap) && Spells(p.raw, p.token) && IsLongest(p.raw, p.token, input[n..])
      && Segments(input[n..], pieces[1..])
  }

  lemma {:induction false} SkipBlanks(gap: string, s: string)
    requires AllBlank(gap)
    ensures Lex(gap + s) == Lex(s)
  {
    if gap == [] {
      assert gap + s == s;
    } else {
      assert (gap + s)[1..] == gap[1..] + s;
      SkipBlanks(gap[1..], s);
    }
  }

  lemma {:induction false} NumeralIsRun(s: string, rest: string, sawDot: bool)
    requires DigitsAndDot(s, sawDot)
    requires rest == [] || (!IsDigit(rest[0]) && (rest[0] == '.' ==> sawDot || '.' in s))
    ensures NumberRun(s + rest, sawDot) == |s|
  {
    if s == [] {
      assert s + rest == rest;
    } else {
      assert (s + rest)[1..] == s[1..] + rest;
      NumeralIsRun(s[1..], rest, sawDot || s[0] == '.');
    }
  }

  lemma {:induction false} RunIsNumeral(s: string, sawDot: bool)
    ensures var n := NumberRun(s, sawDot);
            DigitsAndDot(s[..n], sawDot) &&
            (n == |s| || (!IsDigit(s[n]) && (s[n] == '.' ==> sawDot || '.' in s[..n])))
  {
    if s != [] && (IsDigit(s[0]) || (s[0] == '.' && !sawDot)) {
      var n := NumberRun(s, sawDot);
      RunIsNumeral(s[1..], sawDot || s[0] == '.');
      assert s[..n][1..] == s[1..][..n - 1];
    }
  }

  lemma {:induction false} IdentifierIsRun(s: string, rest: string)
    requires forall c <- s :: IsAlphaNum(c)
    requires rest == [] || !IsAlphaNum(rest[0])
    ensures IdentRun(s + rest) == |s|
  {
    if s == [] {
      assert s + rest == rest;
    } else {
      assert (s + rest)[1..] == s[1..] + rest;
      IdentifierIsRun(s[1..], rest);
    }
  }

  lemma {:induction false} RunIsIdentifier(s: string)
    ensures var n := IdentRun(s); (forall c <- s[..n] :: IsAlphaNum(c)) && (n == |s| || !IsAlphaNum(s[n]))
  {
    if s != [] && IsAlphaNum(s[0]) {
      RunIsIdentifier(s[1..]);
      assert s[..IdentRun(s)] == [s[0]] + s[1..][..IdentRun(s[1..])];
    }
  }

  lemma {:induction false} BodyIsRead(body: string, value: string, rest: string)
    requires Denotes(body, value)
    ensures StringBody(body + ['"'] + rest) == Ok((value, rest))
  {
    var s := body + ['"'] + rest;
    if body == [] {
      assert s[1..] == rest;
    } else {
      var k := if body[0] == '\\' then 2 else 1;
      assert s[k..] == body[k..] + ['"'] + rest;
      BodyIsRead(body[k..], value[1..], rest);
      assert value == [value[0]] + value[1..];
    }
  }

  lemma {:induction false} ReadIsBody(s: string)
    requires StringBody(s).Ok?
    ensures var (value, rest) := StringBody(s).value;
            var n := |s| - |rest|;
            n > 0 && s[n..] == rest && s[n - 1] == '"' && Denotes(s[..n - 1], value)
  {
    if s[0] != '"' {
      var k := if s[0] == '\\' then 2 else 1;
      ReadIsBody(s[k..]);
      var n := |s| - |StringBody(s).value.1|;
      assert s[..n - 1][k..] == s[k..][..n - 1 - k];
    }
  }

  /** A longest spelling in front of the input is the token that the scanner takes. */
  lemma SpellingIsTaken(raw: string, token: Token, rest: string)
    requires Spells(raw, token) && IsLongest(raw, token, rest)
    ensures |raw| > 0 && !IsBlank(raw[0]) && LexToken(raw + rest) == Ok((token, rest))
  {
    var s := raw + rest;
    assert s[|raw|..] == rest && s[..|raw|] == raw;
    match token
    case Num(_) => NumeralIsRun(raw, rest, false);
    case Str(value) => QuotedIsTaken(raw, value, rest);
    case Ident(_) =>
      assert s[1..] == raw[1..] + rest;
      IdentifierIsRun(raw[1..], rest);
    case Punct(_) => PunctIsTaken(raw, rest);
  }

  lemma QuotedIsTaken(raw: string, value: string, rest: string)
    requires Spells(raw, Str(value))
    ensures LexToken(raw + rest) == Ok((Str(value), rest))
  {
    var body := raw[1..|raw| - 1];
    assert (raw + rest)[1..] == body + ['"'] + rest;
    BodyIsRead(body, value, rest);
  }

  lemma PunctIsTaken(raw: string, rest: string)
    requires IsPunct(raw) && IsLongest(raw, Punct(raw), rest)
    ensures !IsBlank(raw[0]) && LexToken(raw + rest) == Ok((Punct(raw), rest))
  {
    var s := raw + rest;
    if |raw| == 1 {
      assert s[1..] == rest && [s[0]] == raw;
      if rest != [] {
        assert s[..2] == raw + [rest[0]];
      }
    } else {
      assert s[2..] == rest && s[..2] == raw;
    }
  }

  /** The first `n` characters spell the token and cannot be continued. */
  ghost predicate IsSpelledBy(s: string, token: Token, n: nat) {
    n <= |s| && Spells(s[..n], token) && IsLongest(s[..n], token, s[n..])
  }

  lemma NumberIsSpelled(s: string)
    requires s != [] && StartsNumber(s)
    ensures IsSpelledBy(s, Num(s[..NumberRun(s, false)]), NumberRun(s, false))
  {
    RunIsNumeral(s, false);
  }

  lemma StringIsSpelled(s: string)
    requires s != [] && s[0] == '"' && StringBody(s[1..]).Ok?
    ensures var (value, rest) := StringBody(s[1..]).value;
            var n := |s| - |rest|;
            s[n..] == rest && IsSpelledBy(s, Str(value), n)
  {
    ReadIsBody(s[1..]);
    var n := |s| - |StringBody(s[1..]).value.1|;
    assert s[1..][n - 1..] == s[n..];
    assert s[..n][1..n - 1] == s[1..][..n - 2];
  }

  lemma IdentIsSpelled(s: string)
    requires s != [] && IsAlpha(s[0])
    ensures IsSpelledBy(s, Ident(s[..1 + IdentRun(s[1..])]), 1 + IdentRun(s[1..]))
  {
    RunIsIdentifier(s[1..]);
    assert s[..1 + IdentRun(s[1..])] == [s[0]] + s[1..][..IdentRun(s[1..])];
  }

  lemma PunctIsSpelled(s: string)
    requires s != []
    ensures |s| > 1 && IsTwoCharPunct(s[..2]) ==> IsSpelledBy(s, Punct(s[..2]), 2)
    ensures !(|s| > 1 && IsTwoCharPunct(s[..2])) && IsOneCharPunct(s[0]) ==> IsSpelledBy(s, Punct([s[0]]), 1)
  {
    assert s[..1] == [s[0]];
    if |s| > 1 {
      assert s[..1] + [s[1..][0]] == s[..2];
    }
  }

  lemma TakenIsSpelling(s: string)
    requires s != [] && !IsBlank(s[0]) && LexToken(s).Ok?
    ensures var (token, rest) := LexToken(s).value;
            var n := |s| - |rest|;
            s[n..] == rest && Spells(s[..n], token) && IsLongest(s[..n], token, rest)
  {
    if StartsNumber(s) {
      NumberIsSpelled(s);
    } else if s[0] == '"' {
      StringIsSpelled(s);
    } else if IsAlpha(s[0]) {
      IdentIsSpelled(s);
    } else {
      PunctIsSpelled(s);
    }
  }

  lemma {:induction false} SegmentsAreLexed(input: string, pieces: seq<Piece>)
    requires Segments(input, pieces)
    ensures Lex(input) == Ok(Tokens(pieces))
  {
    if pieces == [] {
      SkipBlanks(input, []);
      assert input + [] == input;
    } else {
      var p := pieces[0];
      var rest := input[|p.gap| + |p.raw|..];
      SegmentsAreLexed(rest, pieces[1..]);
      PieceIsLexed(input, p, rest);
    }
  }

  lemma PieceIsLexed(input: string, p: Piece, rest: string)
    requires input == p.gap + p.raw + rest
    requires AllBlank(p.gap) && Spells(p.raw, p.token) && IsLongest(p.raw, p.token, rest)
    ensures Lex(input) == Prepend([p.token], Lex(rest))
  {
    assert input == p.gap + (p.raw + rest);
    SkipBlanks(p.gap, p.raw + rest);
    SpellingIsTaken(p.raw, p.token, rest);
  }

  lemma {:induction false} LexedIsSegmented(input: string) returns (pieces: seq<Piece>)
    requires Lex(input).Ok?
    ensures Segments(input, pieces) && Tokens(pieces) == Lex(input).value
    decreases |input|
  {
    if input == [] {
      pieces := [];
    } else if IsBlank(input[0]) {
      pieces := LexedIsSegmented(input[1..]);
      pieces := WidenGap(input, pieces);
    } else {
      var (token, rest) := LexToken(input).value;
      var tail := LexedIsSegmented(rest);
      pieces := TakenPiece(input, tail);
    }
  }

  lemma TakenPiece(input: string, tail: seq<Piece>) returns (pieces: seq<Piece>)
    requires input != [] && !IsBlank(input[0]) && Lex(input).Ok?
    requires var rest := LexToken(input).value.1; Segments(rest, tail) && Lex(rest) == Ok(Tokens(tail))
    ensures Segments(input, pieces) && Tokens(pieces) == Lex(input).value
  {
    var (token, rest) := LexToken(input).value;
    var raw := input[..|input| - |rest|];
    TakenIsSpelling(input);
    assert [] + raw == raw;
    pieces := AddPiece(input, Piece([], raw, token), tail);
  }

  lemma AddPiece(input: string, p: Piece, tail: seq<Piece>) returns (pieces: seq<Piece>)
    requires |p.gap| + |p.raw| <= |input| && input[..|p.gap| + |p.raw|] == p.gap + p.raw
    requires AllBlank(p.gap) && Spells(p.raw, p.token)
    requires IsLongest(p.raw, p.token, input[|p.gap| + |p.raw|..])
    requires Segments(input[|p.gap| + |p.raw|..], tail)
    ensures Segments(input, pieces) && Tokens(pieces) == [p.token] + Tokens(tail)
  {
    pieces := [p] + tail;
    assert pieces[1..] == tail;
  }

  lemma ShiftPiece(input: string, gap: string, raw: string)
    requires input != [] && |gap| + |raw| <= |input[1..]| && input[1..][..|gap| + |raw|] == gap + raw
    ensures var n := |gap| + |raw| + 1;
            input[..n] == [input[0]] + gap + raw && input[n..] == input[1..][n - 1..]
  {
    var n := |gap| + |raw| + 1;
    assert input[..n] == [input[0]] + input[1..][..n - 1];
    assert [input[0]] + (gap + raw) == [input[0]] + gap + raw;
  }

  lemma WidenGap(input: string, narrow: seq<Piece>) returns (pieces: seq<Piece>)
    requires input != [] && IsBlank(input[0]) && Segments(input[1..], narrow)
    ensures Segments(input, pieces) && Tokens(pieces) == Tokens(narrow)
  {
    if narrow == [] {
      assert forall c <- input :: c == input[0] || c in input[1..];
      pieces := [];
    } else {
      var p := narrow[0];
      ShiftPiece(input, p.gap, p.raw);
      pieces := AddPiece(input, Piece([input[0]] + p.gap, p.raw, p.token), narrow[1..]);
    }
  }

  /** The scanner accepts exactly the inputs that can be cut into longest spellings, and returns the
    * tokens of that cut, which therefore is unique. */
  lemma LexIsSegmentation(input: string)
    ensures forall pieces | Segments(input, pieces) :: Lex(input) == Ok(Tokens(pieces))
    ensures Lex(input).Ok? ==> exists pieces :: Segments(input, pieces)
  {
    forall pieces | Segments(input, pieces) ensures Lex(input) == Ok(Tokens(pieces)) {
      SegmentsAreLexed(input, pieces);
    }
    if Lex(input).Ok? {
      var pieces := LexedIsSegmented(input);
    }
  }

  // ---------- Printing ----------

  ghost predicate IsWellFormed(token: Token) {
    match token
    case Num(lexeme) => IsNumeral(lexeme)
    case Str(_) => true
    case Ident(name) => IsIdentifier(name)
    case Punct(text) => IsPunct(text)
  }

  /** A string literal with its backslashes, quotes, line feeds and tabs escaped. */
  function Escape(value: string): string {
    if value == [] then []
    else
      (match value[0]
       case '\\' => "\\\\"
       case '"' => "\\\""
       case '\n' => "\\n"
       case '\t' => "\\t"
       case c => [c]) + Escape(value[1..])
  }

  function Spelling(token: Token): string {
    match token
    case Num(lexeme) => lexeme
    case Str(value) => ['"'] + Escape(value) + ['"']
    case Ident(name) => name
    case Punct(text) => text
  }

  /** The tokens with gaps before, between and after them. */
  function Print(tokens: seq<Token>, gaps: seq<string>): string
    requires |gaps| == |tokens| + 1
  {
    if tokens == [] then gaps[0]
    else gaps[0] + Spelling(tokens[0]) + Print(tokens[1..], gaps[1..])
  }

  /** Blanks everywhere; two tokens may touch when the second does not continue the spelling of the first. */
  ghost predicate Separating(tokens: seq<Token>, gaps: seq<string>) {
    && |gaps| == |tokens| + 1
    && (forall g <- gaps :: AllBlank(g))
    && forall i | 0 < i < |tokens| ::
         gaps[i] == [] ==> IsLongest(Spelling(tokens[i - 1]), tokens[i - 1], Spelling(tokens[i]))
  }

  lemma {:induction false} EscapeDenotes(value: string)
    ensures Denotes(Escape(value), value)
  {
    if value != [] {
      EscapeDenotes(value[1..]);
      var k := |Escape(value)| - |Escape(value[1..])|;
      assert Escape(value)[k..] == Escape(value[1..]);
    }
  }

  lemma SpellingSpells(token: Token)
    requires IsWellFormed(token)
    ensures Spells(Spelling(token), token)
  {
    if token.Str? {
      EscapeDenotes(token.value);
      var raw := Spelling(token);
      assert raw[1..|raw| - 1] == Escape(token.value);
    }
  }

  /** What follows matters by its first character only. */
  lemma LongestByHead(raw: string, token: Token, spelling: string, following: string)
    requires IsLongest(raw, token, spelling) && spelling != [] && following != [] && following[0] == spelling[0]
    ensures IsLongest(raw, token, following)
  {}

  lemma BlankEndsSpelling(token: Token, following: string)
    requires following == [] || IsBlank(following[0])
    ensures IsLongest(Spelling(token), token, following)
  {
    if following != [] && |Spelling(token)| == 1 {
      assert (Spelling(token) + [following[0]])[1] == following[0];
    }
  }

  lemma PrintStarts(tokens: seq<Token>, gaps: seq<string>)
    requires |gaps| == |tokens| + 1
    ensures gaps[0] != [] ==> Print(tokens, gaps) != [] && Print(tokens, gaps)[0] == gaps[0][0]
    ensures gaps[0] == [] && tokens == [] ==> Print(tokens, gaps) == []
    ensures gaps[0] == [] && tokens != [] && Spelling(tokens[0]) != [] ==>
              Print(tokens, gaps) != [] && Print(tokens, gaps)[0] == Spelling(tokens[0])[0]
  {}

  lemma SpellingIsNotEmpty(token: Token)
    requires IsWellFormed(token)
    ensures Spelling(token) != []
  {}

  lemma SpellingIsLongest(token: Token, tokens: seq<Token>, gaps: seq<string>)
    requires |gaps| == |tokens| + 1 && AllBlank(gaps[0])
    requires tokens != [] ==> IsWellFormed(tokens[0])
    requires tokens != [] && gaps[0] == [] ==> IsLongest(Spelling(token), token, Spelling(tokens[0]))
    ensures IsLongest(Spelling(token), token, Print(tokens, gaps))
  {
    PrintStarts(tokens, gaps);
    if gaps[0] == [] && tokens != [] {
      SpellingIsNotEmpty(tokens[0]);
      LongestByHead(Spelling(token), token, Spelling(tokens[0]), Print(tokens, gaps));
    } else {
      BlankEndsSpelling(token, Print(tokens, gaps));
    }
  }

  lemma SeparatingRest(tokens: seq<Token>, gaps: seq<string>)
    requires Separating(tokens, gaps) && tokens != []
    ensures Separating(tokens[1..], gaps[1..]) && AllBlank(gaps[0]) && AllBlank(gaps[1])
  {
    forall i | 0 < i < |tokens[1..]|
      ensures gaps[1..][i] == [] ==>
                IsLongest(Spelling(tokens[1..][i - 1]), tokens[1..][i - 1], Spelling(tokens[1..][i]))
    {
      assert gaps[1..][i] == gaps[i + 1] && tokens[1..][i - 1] == tokens[i] && tokens[1..][i] == tokens[i + 1];
    }
  }

  lemma {:induction false} PrintedIsSegmented(tokens: seq<Token>, gaps: seq<string>) returns (pieces: seq<Piece>)
    requires Separating(tokens, gaps) && forall t <- tokens :: IsWellFormed(t)
    ensures Segments(Print(tokens, gaps), pieces) && Tokens(pieces) == tokens
  {
    if tokens == [] {
      pieces := [];
    } else {
      var token, rest := tokens[0], Print(tokens[1..], gaps[1..]);
      SeparatingRest(tokens, gaps);
      var tail := PrintedIsSegmented(tokens[1..], gaps[1..]);
      SpellingSpells(token);
      var input, p := Print(tokens, gaps), Piece(gaps[0], Spelling(token), token);
      assert input[..|p.gap| + |p.raw|] == p.gap + p.raw && input[|p.gap| + |p.raw|..] == rest;
      SpellingIsLongest(token, tokens[1..], gaps[1..]);
      pieces := AddPiece(input, p, tail);
      assert tokens == [token] + tokens[1..];
    }
  }

  /** Printing well-formed tokens with any separating blanks and reading them back is the identity. */
  lemma PrintedLexesBack(tokens: seq<Token>, gaps: seq<string>)
    requires Separating(tokens, gaps) && forall t <- tokens :: IsWellFormed(t)
    ensures Lex(Print(tokens, gaps)) == Ok(tokens)
  {
    var pieces := PrintedIsSegmented(tokens, gaps);
    SegmentsAreLexed(Print(tokens, gaps), pieces);
  }

  /** Every string survives quoting, whatever its characters. */
  lemma QuotedStringLexesBack(value: string)
    ensures Lex(['"'] + Escape(value) + ['"']) == Ok([Str(value)])
  {
    PrintedLexesBack([Str(value)], [[], []]);
    assert Print([Str(value)], [[], []]) == ['"'] + Escape(value) + ['"'];
  }

  lemma {:induction false} SegmentsWellFormed(input: string, pieces: seq<Piece>)
    requires Segments(input, pieces)
    ensures forall t <- Tokens(pieces) :: IsWellFormed(t)
  {
    if pieces != [] {
      SegmentsWellFormed(input[|pieces[0].gap| + |pieces[0].raw|..], pieces[1..]);
    }
  }

  /** Printing what was read gives a normal form of the input: it reads back as the same tokens. */
  lemma NormalFormLexesBack(input: string, gaps: seq<string>)
    requires Lex(input).Ok? && Separating(Lex(input).value, gaps)
    ensures Lex(Print(Lex(input).value, gaps)) == Lex(input)
  {
    var pieces := LexedIsSegmented(input);
    SegmentsWellFormed(input, pieces);
    PrintedLexesBack(Lex(input).value, gaps);
  }
}
