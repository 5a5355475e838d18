/** The patterns that the Markdown parser tries on a line, and the result of trying them all. */
module MarkdownLines {
  import opened Results
  import opened JsText

  /** What follows the three backticks of a fence. */
  function FenceOf(line: string): Option<string> {
    if |line| >= 3 && line[..3] == "```" then Some(line[3..]) else None
  }

  function HashRun(line: string): (n: nat)
    ensures n <= |line|
  {
    if line != "" && line[0] == '#' then 1 + HashRun(line[1..]) else 0
  }

  /** One to six hashes, white space, and text without a line terminator. */
  function HeadingOf(line: string): Option<(nat, string)> {
    var k := HashRun(line);
    if 1 <= k <= 6 && k < |line| && IsSpace(line[k]) && OnOneLine(TrimStart(line[k..])) then
      Some((k, TrimStart(line[k..])))
    else None
  }

  predicate IsRule(line: string) {
    var t := Trim(line);
    |t| >= 3 && ((forall c <- t :: c == '-') || forall c <- t :: c == '*')
  }

  /** What follows a list mark and the white space after it. */
  function AfterMark(s: string): Option<string> {
    if |s| >= 2 && IsSpace(s[1]) then Some(TrimStart(s[1..])) else None
  }

  /** The content of a check box and what follows the box and the white space after it. */
  function BoxOf(t: string): Option<(char, string)> {
    if |t| >= 4 && t[0] == '[' && (t[1] == ' ' || t[1] == 'x' || t[1] == 'X') && t[2] == ']' && IsSpace(t[3])
    then Some((t[1], TrimStart(t[3..])))
    else None
  }

  /** The box and the text of a line that starts like a task item. */
  function TaskOf(line: string): Option<(char, string)> {
    var s := TrimStart(line);
    if AfterMark(s).Some? && s[0] == '-' then BoxOf(AfterMark(s).value) else None
  }

  function BulletOf(line: string): Option<string> {
    var s := TrimStart(line);
    if AfterMark(s).Some? && (s[0] == '-' || s[0] == '*') then AfterMark(s) else None
  }

  function DigitRun(s: string): (n: nat)
    ensures n <= |s|
  {
    if s != "" && '0' <= s[0] <= '9' then 1 + DigitRun(s[1..]) else 0
  }

  function NumberedOf(line: string): Option<string> {
    var s := TrimStart(line);
    var n := DigitRun(s);
    if n > 0 && n < |s| && s[n] == '.' then AfterMark(s[n..]) else None
  }

  /** A line together with the outcome of every pattern on it. */
  datatype Line = Line(
    raw: string,
    fence: Option<string>,
    heading: Option<(nat, string)>,
    rule: bool,
    task: Option<(char, string)>,
    bullet: Option<string>,
    numbered: Option<string>,
    blank: bool,
    hash: bool)
  {
    /** Starts like a task item, yet the item pattern, whose text must not contain a line terminator,
      * does not match. */
    predicate IsBrokenTask() {
      task.Some? && !OnOneLine(task.value.1)
    }

    /** The lines that a paragraph goes on to take. */
    predicate ContinuesParagraph() {
      !blank && !hash && fence.None? && bullet.None? && numbered.None?
    }

    /** How the patterns exclude and include each other. */
    predicate IsConsistent() {
      && (task.Some? ==> bullet.Some?)
      && (bullet.Some? ==> fence.None? && heading.None? && !rule && !blank)
      && (numbered.Some? ==> bullet.None? && fence.None?)
    }
  }

  function Read(raw: string): Line {
    Line(raw, FenceOf(raw), HeadingOf(raw), IsRule(raw), TaskOf(raw), BulletOf(raw), NumberedOf(raw),
         Trim(raw) == "", raw != "" && raw[0] == '#')
  }

  type Reader = string -> Line

  function ReadWith(read: Reader, raws: seq<string>): (lines: seq<Line>)
    ensures |lines| == |raws|
  {
    if raws == [] then [] else [read(raws[0])] + ReadWith(read, raws[1..])
  }

  function ReadAll(raws: seq<string>): seq<Line> {
    ReadWith(Read, raws)
  }

  lemma {:induction false} ReadAt(read: Reader, raws: seq<string>, i: nat)
    requires i < |raws|
    ensures ReadWith(read, raws)[i] == read(raws[i])
  {
    if i > 0 {
      ReadAt(read, raws[1..], i - 1);
    }
  }

  lemma {:induction false} ReadAppend(read: Reader, a: seq<string>, b: seq<string>)
    ensures ReadWith(read, a + b) == ReadWith(read, a) + ReadWith(read, b)
  {
    if a == [] {
      assert a + b == b;
    } else {
      assert (a + b)[1..] == a[1..] + b;
      ReadAppend(read, a[1..], b);
    }
  }

  lemma ReadCons(read: Reader, raw: string, raws: seq<string>)
    ensures ReadWith(read, [raw] + raws) == [read(raw)] + ReadWith(read, raws)
  {}

  lemma ReadIsConsistent(raw: string)
    ensures Read(raw).IsConsistent()
  {
    TaskIsBullet(raw);
    if BulletOf(raw).Some? {
      BulletIsNoFence(raw);
      BulletIsNoRule(raw);
    }
    if NumberedOf(raw).Some? {
      NumberedIsNoBullet(raw);
    }
  }

  lemma TaskIsBullet(line: string)
    ensures TaskOf(line).Some? ==> BulletOf(line).Some?
  {}

  lemma FirstOfLine(line: string)
    requires TrimStart(line) != ""
    ensures line != "" && (line[0] == TrimStart(line)[0] || IsSpace(line[0]))
  {}

  lemma FenceOrHashFirst(line: string)
    ensures FenceOf(line).Some? ==> line != "" && line[0] == '`' && !IsSpace(line[0])
    ensures HeadingOf(line).Some? ==> line != "" && line[0] == '#' && !IsSpace(line[0])
  {}

  /** A bullet starts, after white space, with a mark that starts neither fence nor heading. */
  lemma BulletIsNoFence(line: string)
    requires BulletOf(line).Some?
    ensures FenceOf(line).None? && HeadingOf(line).None?
  {
    BulletStarts(line);
    FirstOfLine(line);
    MarkIsNoFence(line);
  }

  lemma MarkIsNoFence(line: string)
    requires line != "" && (line[0] == '-' || line[0] == '*' || IsSpace(line[0]))
    ensures FenceOf(line).None? && HeadingOf(line).None?
  {}

  lemma BulletIsNoRule(line: string)
    requires BulletOf(line).Some?
    ensures !IsRule(line) && Trim(line) != ""
  {
    SecondIsSpace(TrimStart(line));
  }

  lemma SecondIsSpace(s: string)
    requires |s| >= 2 && !IsSpace(s[0]) && IsSpace(s[1])
    ensures var t := TrimEnd(s); t != "" && (|t| >= 3 ==> exists c <- t :: IsSpace(c))
  {}

  lemma NumberedStarts(line: string)
    requires NumberedOf(line).Some?
    ensures TrimStart(line) != "" && '0' <= TrimStart(line)[0] <= '9'
  {}

  lemma BulletStarts(line: string)
    requires BulletOf(line).Some?
    ensures TrimStart(line) != "" && (TrimStart(line)[0] == '-' || TrimStart(line)[0] == '*')
  {}

  lemma NumberedIsNoBullet(line: string)
    requires NumberedOf(line).Some?
    ensures BulletOf(line).None? && FenceOf(line).None?
  {
    NumberedStarts(line);
    FirstOfLine(line);
    FenceOrHashFirst(line);
    if BulletOf(line).Some? {
      BulletStarts(line);
    }
  }

  lemma TailOnOneLine(s: string, n: nat)
    requires OnOneLine(s) && n <= |s|
    ensures OnOneLine(s[n..])
  {}

  lemma TrimmedOnOneLine(s: string)
    requires OnOneLine(s)
    ensures OnOneLine(TrimStart(s))
  {}

  /** The text of a task line is part of the line. */
  lemma TaskTextIsInside(line: string)
    requires TaskOf(line).Some? && OnOneLine(line)
    ensures OnOneLine(TaskOf(line).value.1)
  {
    var s := TrimStart(line);
    TrimmedOnOneLine(line);
    TailOnOneLine(s, 1);
    TrimmedOnOneLine(s[1..]);
    var t := TrimStart(s[1..]);
    TailOnOneLine(t, 3);
    TrimmedOnOneLine(t[3..]);
  }

  // ---------- What the printer's lines read as ----------

  lemma OneSpace(s: string)
    requires s != "" && !IsSpace(s[0])
    ensures TrimStart(" " + s) == s
  {}

  lemma MarkThenText(mark: char, text: string)
    requires !IsSpace(mark) && text != "" && !IsSpace(text[0])
    ensures var s := [mark] + " " + text; TrimStart(s) == s && s[0] == mark && AfterMark(s) == Some(text)
  {
    var s := [mark] + " " + text;
    assert s[1..] == " " + text;
    OneSpace(text);
  }

  lemma BoxThenText(box: char, text: string)
    requires (box == ' ' || box == 'x' || box == 'X') && text != "" && !IsSpace(text[0])
    ensures BoxOf("[" + [box] + "] " + text) == Some((box, text))
  {
    var t := "[" + [box] + "] " + text;
    assert t[3..] == " " + text;
    OneSpace(text);
  }

  lemma TaskOfMarked(line: string, t: string)
    requires TrimStart(line) == line && line != "" && line[0] == '-' && AfterMark(line) == Some(t)
    ensures TaskOf(line) == BoxOf(t)
  {}

  lemma MarkedAsOne(box: char, text: string)
    ensures "- [" + [box] + "] " + text == ['-'] + " " + ("[" + [box] + "] " + text)
  {}

  /** A task line is read as the box and the text it was made of. */
  lemma ReadTask(box: char, text: string)
    requires (box == ' ' || box == 'x' || box == 'X') && text != "" && !IsSpace(text[0])
    ensures TaskOf("- [" + [box] + "] " + text) == Some((box, text))
  {
    var t := "[" + [box] + "] " + text;
    BoxThenText(box, text);
    BoxStart(t);
    MarkThenText('-', t);
    MarkedAsOne(box, text);
    TaskOfMarked(['-'] + " " + t, t);
  }

  lemma BoxStart(t: string)
    requires t != "" && t[0] == '['
    ensures !IsSpace(t[0]) && !IsSpace('-')
  {}
}
