/** The string operations of the source language that several components rely on. */
module JsText {
  /** White space in the sense of `trim` and of `\s` in a regular expression. */
  predicate IsSpace(c: char) {
    var u := c as int;
    || 0x09 <= u <= 0x0D || u == 0x20 || u == 0xA0 || u == 0x1680
    || 0x2000 <= u <= 0x200A || u == 0x2028 || u == 0x2029 || u == 0x202F
    || u == 0x205F || u == 0x3000 || u == 0xFEFF
  }

  predicate AllSpaces(s: string) {
    forall c <- s :: IsSpace(c)
  }

  function TrimStart(s: string): (r: string)
    ensures |r| <= |s| && r == s[|s| - |r|..]
    ensures r != "" ==> !IsSpace(r[0])
  {
    if s != "" && IsSpace(s[0]) then TrimStart(s[1..]) else s
  }

  function TrimEnd(s: string): (r: string)
    ensures |r| <= |s| && r == s[..|r|]
    ensures r != "" ==> !IsSpace(r[|r| - 1])
  {
    if s != "" && IsSpace(s[|s| - 1]) then TrimEnd(s[..|s| - 1]) else s
  }

  lemma {:induction false} TrimStartEmpties(s: string)
    ensures TrimStart(s) == "" <==> AllSpaces(s)
  {
    if s != "" && IsSpace(s[0]) {
      TrimStartEmpties(s[1..]);
      assert s == [s[0]] + s[1..];
    } else if s != "" {
      assert s[0] in s;
    }
  }

  lemma {:induction false} TrimEndEmpties(s: string)
    ensures TrimEnd(s) == "" <==> AllSpaces(s)
  {
    if s != "" {
      var n := |s| - 1;
      if IsSpace(s[n]) {
        TrimEndEmpties(s[..n]);
        assert s == s[..n] + [s[n]];
      } else {
        assert s[n] in s;
      }
    }
  }

  function Trim(s: string): string {
    TrimEnd(TrimStart(s))
  }

  /** Only white space trims to nothing. */
  lemma TrimEmpties(s: string)
    ensures Trim(s) == "" <==> AllSpaces(s)
  {
    var t := TrimStart(s);
    TrimStartEmpties(s);
    TrimEndEmpties(t);
    if t != [] {
      assert t[0] in t;
    }
  }

  /** Number of UTF-16 code units: characters outside the basic plane take two. */
  function Length(s: string): nat {
    if s == [] then 0 else (if s[0] as int >= 0x1_0000 then 2 else 1) + Length(s[1..])
  }

  lemma {:induction false} LengthAddsUp(a: string, c: char, b: string)
    ensures Length(a + [c] + b) == Length(a) + (if c < '\U{10000}' then 1 else 2) + Length(b)
  {
    var s := a + [c] + b;
    if a == [] {
      assert s[1..] == b;
    } else {
      LengthAddsUp(a[1..], c, b);
      assert s[1..] == a[1..] + [c] + b;
    }
  }

  /** The characters that `.` in a regular expression does not match. */
  predicate IsLineTerminator(c: char) {
    c == '\n' || c == '\r' || c as int == 0x2028 || c as int == 0x2029
  }

  predicate OnOneLine(s: string) {
    forall c <- s :: !IsLineTerminator(c)
  }

  function Join(parts: seq<string>, sep: string): string {
    if |parts| == 0 then ""
    else if |parts| == 1 then parts[0]
    else parts[0] + sep + Join(parts[1..], sep)
  }

  /** The stretches between occurrences of a character; always at least one. */
  function SplitOn(s: string, sep: char): (r: seq<string>)
    ensures |r| > 0
  {
    if s == "" then [""]
    else
      var rest := SplitOn(s[1..], sep);
      if s[0] == sep then [""] + rest
      else [[s[0]] + rest[0]] + rest[1..]
  }

  function Split(s: string): (r: seq<string>)
    ensures |r| > 0
  {
    SplitOn(s, '\n')
  }

  function Repeat(s: string, n: nat): string {
    if n == 0 then "" else s + Repeat(s, n - 1)
  }

  /** Decimal digits of a number. */
  function Decimal(n: nat): (r: string)
    ensures r != ""
  {
    var last := ['0' + (n % 10) as char];
    if n < 10 then last else Decimal(n / 10) + last
  }

  lemma {:induction false} DecimalIsDigits(n: nat)
    ensures forall c <- Decimal(n) :: '0' <= c <= '9'
  {
    if n >= 10 {
      DecimalIsDigits(n / 10);
    }
  }

  lemma {:induction false} SplitOnNone(s: string, sep: char)
    requires sep !in s
    ensures SplitOn(s, sep) == [s]
  {
    if s != "" {
      assert s[0] in s && s == [s[0]] + s[1..];
      assert forall c <- s[1..] :: c in s;
      SplitOnNone(s[1..], sep);
    }
  }

  lemma {:induction false} SplitOnFirst(a: string, sep: char, s: string)
    requires sep !in a
    ensures SplitOn(a + [sep] + s, sep) == [a] + SplitOn(s, sep)
  {
    var t := a + [sep] + s;
    if a == "" {
      assert t[1..] == s;
    } else {
      assert t[1..] == a[1..] + [sep] + s && a[0] in a && a == [a[0]] + a[1..];
      assert forall c <- a[1..] :: c in a;
      SplitOnFirst(a[1..], sep, s);
    }
  }

  lemma SplitOneLine(s: string)
    requires '\n' !in s
    ensures Split(s) == [s]
  {
    SplitOnNone(s, '\n');
  }

  lemma SplitFirst(a: string, s: string)
    requires '\n' !in a
    ensures Split(a + "\n" + s) == [a] + Split(s)
  {
    SplitOnFirst(a, '\n', s);
  }

  /** Splitting undoes joining when no part holds a line feed. */
  lemma {:induction false} SplitJoin(lines: seq<string>)
    requires lines != [] && forall l <- lines :: '\n' !in l
    ensures Split(Join(lines, "\n")) == lines
  {
    if |lines| == 1 {
      SplitOneLine(lines[0]);
    } else {
      SplitJoin(lines[1..]);
      SplitFirst(lines[0], Join(lines[1..], "\n"));
    }
  }

  /** Joining undoes splitting. */
  lemma {:induction false} JoinSplit(s: string)
    ensures Join(Split(s), "\n") == s
    ensures forall l <- Split(s) :: '\n' !in l
  {
    if s != "" {
      JoinSplit(s[1..]);
    }
  }

  lemma {:induction false} JoinConcat(a: seq<string>, b: seq<string>, sep: string)
    requires a != [] && b != []
    ensures Join(a + b, sep) == Join(a, sep) + sep + Join(b, sep)
  {
    if |a| > 1 {
      assert (a + b)[1..] == a[1..] + b;
      JoinConcat(a[1..], b, sep);
    } else {
      assert (a + b)[1..] == b;
    }
  }

  /** Trimming leaves alone what neither starts nor ends with white space. */
  lemma TrimmedAlready(s: string)
    requires s != "" && !IsSpace(s[0]) && !IsSpace(s[|s| - 1])
    ensures Trim(s) == s
  {}
}
