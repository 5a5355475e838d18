/** What the line patterns match, in terms of the parts a line is put together from. */
module MarkdownPatterns {
  import opened Results
  import opened JsText
  import opened MarkdownLines

  /** White space of at least one character. */
  predicate IsGap(s: string) {
    s != "" && AllSpaces(s)
  }

  /** Does not start with white space. */
  predicate IsSolid(s: string) {
    s == "" || !IsSpace(s[0])
  }

  ghost predicate AreAll(s: string, c: char) {
    forall i | 0 <= i < |s| :: s[i] == c
  }

  ghost predicate AreDigits(s: string) {
    forall i | 0 <= i < |s| :: '0' <= s[i] <= '9'
  }

  lemma SpacesAre()
    ensures IsSpace(' ') && IsSpace('\t') && IsSpace('\n') && IsSpace('\r')
    ensures forall c: char | '!' <= c <= '~' :: !IsSpace(c)
  {}

  // ---------- Trimming ----------

  lemma ConsSpace(c: char, pad: string)
    requires IsSpace(c) && AllSpaces(pad)
    ensures AllSpaces([c] + pad) && AllSpaces(pad + [c])
  {}

  lemma Group3(a: string, b: string, c: string)
    ensures a + (b + c) == a + b + c
  {}

  lemma Group4(a: string, b: string, c: string, d: string)
    ensures a + (b + c + d) == a + b + c + d
  {}

  lemma {:induction false} TrimStartSplits(s: string) returns (pad: string)
    ensures AllSpaces(pad) && s == pad + TrimStart(s) && IsSolid(TrimStart(s))
  {
    pad := "";
    if s != "" && IsSpace(s[0]) {
      var rest := TrimStartSplits(s[1..]);
      pad := [s[0]] + rest;
      ConsSpace(s[0], rest);
      Group3([s[0]], rest, TrimStart(s));
      assert s == [s[0]] + s[1..];
    } else {
      assert pad + s == s;
    }
  }

  /** White space in front of a text is split off whole. */
  lemma GapSplits(s: string) returns (gap: string)
    requires s != "" && IsSpace(s[0])
    ensures IsGap(gap) && s == gap + TrimStart(s) && IsSolid(TrimStart(s))
  {
    gap := TrimStartSplits(s);
    assert TrimStart(s) == TrimStart(s[1..]);
  }

  lemma {:induction false} TrimStartDrops(pad: string, s: string)
    requires AllSpaces(pad) && IsSolid(s)
    ensures TrimStart(pad + s) == s
  {
    if pad == "" {
      assert pad + s == s;
    } else {
      assert pad[0] in pad && (pad + s)[1..] == pad[1..] + s;
      TrimStartDrops(pad[1..], s);
    }
  }

  lemma {:induction false} TrimEndSplits(s: string) returns (pad: string)
    ensures AllSpaces(pad) && s == TrimEnd(s) + pad
  {
    pad := "";
    if s != "" && IsSpace(s[|s| - 1]) {
      var init, last := s[..|s| - 1], [s[|s| - 1]];
      var rest := TrimEndSplits(init);
      pad := rest + last;
      ConsSpace(last[0], rest);
      Group3(TrimEnd(s), rest, last);
      assert s == init + last;
    } else {
      assert s + pad == s;
    }
  }

  lemma {:induction false} TrimEndDrops(s: string, pad: string)
    requires AllSpaces(pad) && (s == "" || !IsSpace(s[|s| - 1]))
    ensures TrimEnd(s + pad) == s
  {
    var n := |pad| - 1;
    if pad == "" {
      assert s + pad == s;
    } else {
      assert pad[n] in pad && (s + pad)[..|s + pad| - 1] == s + pad[..n];
      TrimEndDrops(s, pad[..n]);
    }
  }

  // ---------- The patterns ----------

  /** A fence is three backticks and anything behind them. */
  lemma FencePattern(line: string, info: string)
    ensures FenceOf(line) == Some(info) <==> line == "```" + info
  {
    if FenceOf(line) == Some(info) {
      assert line == line[..3] + line[3..];
    }
  }

  ghost predicate IsHeadingLine(line: string, hashes: string, gap: string, text: string) {
    && line == hashes + gap + text && 1 <= |hashes| <= 6 && AreAll(hashes, '#')
    && IsGap(gap) && IsSolid(text) && OnOneLine(text)
  }

  lemma {:induction false} HashRunIs(hashes: string, rest: string)
    requires AreAll(hashes, '#') && (rest == "" || rest[0] != '#')
    ensures HashRun(hashes + rest) == |hashes|
  {
    if hashes == "" {
      assert hashes + rest == rest;
    } else {
      assert (hashes + rest)[1..] == hashes[1..] + rest;
      HashRunIs(hashes[1..], rest);
    }
  }

  lemma {:induction false} HashRunTakes(s: string)
    ensures AreAll(s[..HashRun(s)], '#')
  {
    if s != "" && s[0] == '#' {
      HashRunTakes(s[1..]);
      assert s[..HashRun(s)] == [s[0]] + s[1..][..HashRun(s[1..])];
    }
  }

  lemma HeadingGives(line: string, level: nat, text: string) returns (hashes: string, gap: string)
    requires HeadingOf(line) == Some((level, text))
    ensures IsHeadingLine(line, hashes, gap, text) && |hashes| == level
  {
    HashRunTakes(line);
    hashes := line[..level];
    gap := GapSplits(line[level..]);
    assert line == hashes + line[level..];
    Group3(hashes, gap, text);
  }

  lemma HeadingIs(line: string, hashes: string, gap: string, text: string)
    requires IsHeadingLine(line, hashes, gap, text)
    ensures HeadingOf(line) == Some((|hashes|, text))
  {
    var rest := gap + text;
    assert gap[0] in gap;
    Group3(hashes, gap, text);
    HashRunIs(hashes, rest);
    assert (hashes + rest)[|hashes|..] == rest;
    TrimStartDrops(gap, text);
  }

  /** A heading is one to six hashes, white space, and text on one line. */
  lemma HeadingPattern(line: string, level: nat, text: string)
    ensures HeadingOf(line) == Some((level, text)) <==>
            exists hashes, gap :: IsHeadingLine(line, hashes, gap, text) && |hashes| == level
  {
    if HeadingOf(line) == Some((level, text)) {
      var hashes, gap := HeadingGives(line, level, text);
    }
    if hashes, gap :| IsHeadingLine(line, hashes, gap, text) && |hashes| == level {
      HeadingIs(line, hashes, gap, text);
    }
  }

  ghost predicate IsRuleLine(line: string, before: string, dashes: string, after: string) {
    && line == before + dashes + after && AllSpaces(before) && AllSpaces(after)
    && |dashes| >= 3 && (AreAll(dashes, '-') || AreAll(dashes, '*'))
  }

  lemma AllByIndex(t: string, d: char)
    ensures (forall c <- t :: c == d) <==> AreAll(t, d)
  {
    assert forall i | 0 <= i < |t| :: t[i] in t;
  }

  lemma RuleGives(line: string) returns (before: string, dashes: string, after: string)
    requires IsRule(line)
    ensures IsRuleLine(line, before, dashes, after)
  {
    before := TrimStartSplits(line);
    after := TrimEndSplits(TrimStart(line));
    dashes := Trim(line);
    AllByIndex(dashes, '-');
    AllByIndex(dashes, '*');
    Group3(before, dashes, after);
  }

  lemma RuleIs(line: string, before: string, dashes: string, after: string)
    requires IsRuleLine(line, before, dashes, after)
    ensures IsRule(line)
  {
    Group3(before, dashes, after);
    TrimStartDrops(before, dashes + after);
    TrimEndDrops(dashes, after);
    AllByIndex(dashes, '-');
    AllByIndex(dashes, '*');
  }

  /** A rule is three or more dashes, or stars, between white space. */
  lemma RulePattern(line: string)
    ensures IsRule(line) <==> exists before, dashes, after :: IsRuleLine(line, before, dashes, after)
  {
    if IsRule(line) {
      var before, dashes, after := RuleGives(line);
    }
    if before, dashes, after :| IsRuleLine(line, before, dashes, after) {
      RuleIs(line, before, dashes, after);
    }
  }

  /** A mark behind an indent, with white space between it and the text. */
  ghost predicate IsMarkedLine(line: string, indent: string, mark: string, gap: string, text: string) {
    line == indent + mark + gap + text && AllSpaces(indent) && IsGap(gap) && IsSolid(text)
  }

  lemma AfterMarkIs(mark: char, gap: string, text: string)
    requires IsGap(gap) && IsSolid(text)
    ensures AfterMark([mark] + gap + text) == Some(text)
  {
    assert gap[0] in gap && ([mark] + gap + text)[1..] == gap + text;
    TrimStartDrops(gap, text);
  }

  lemma AfterMarkGives(s: string, text: string) returns (gap: string)
    requires AfterMark(s) == Some(text)
    ensures IsGap(gap) && IsSolid(text) && s == [s[0]] + gap + text
  {
    gap := GapSplits(s[1..]);
    assert s == [s[0]] + s[1..];
    Group3([s[0]], gap, text);
  }

  /** The mark is one character: what stands behind the indent, and what stands behind the mark. */
  lemma MarkGives(line: string, text: string) returns (indent: string, gap: string)
    requires AfterMark(TrimStart(line)) == Some(text)
    ensures IsMarkedLine(line, indent, [TrimStart(line)[0]], gap, text)
  {
    var s := TrimStart(line);
    indent := TrimStartSplits(line);
    gap := AfterMarkGives(s, text);
    Group4(indent, [s[0]], gap, text);
  }

  lemma MarkIs(line: string, indent: string, mark: char, gap: string, text: string)
    requires IsMarkedLine(line, indent, [mark], gap, text) && !IsSpace(mark)
    ensures TrimStart(line) == [mark] + gap + text && AfterMark(TrimStart(line)) == Some(text)
  {
    var s := [mark] + gap + text;
    AfterMarkIs(mark, gap, text);
    Group4(indent, [mark], gap, text);
    TrimStartDrops(indent, s);
  }

  ghost predicate IsBulletLine(line: string, indent: string, mark: char, gap: string, text: string) {
    IsMarkedLine(line, indent, [mark], gap, text) && (mark == '-' || mark == '*')
  }

  /** A bullet is a dash or a star behind any indent. */
  lemma BulletPattern(line: string, text: string)
    ensures BulletOf(line) == Some(text) <==>
            exists indent, mark, gap :: IsBulletLine(line, indent, mark, gap, text)
  {
    if BulletOf(line) == Some(text) {
      var indent, gap := MarkGives(line, text);
      assert IsBulletLine(line, indent, TrimStart(line)[0], gap, text);
    }
    if indent, mark, gap :| IsBulletLine(line, indent, mark, gap, text) {
      MarkIs(line, indent, mark, gap, text);
    }
  }

  lemma {:induction false} DigitRunIs(digits: string, rest: string)
    requires AreDigits(digits) && (rest == "" || !('0' <= rest[0] <= '9'))
    ensures DigitRun(digits + rest) == |digits|
  {
    if digits == "" {
      assert digits + rest == rest;
    } else {
      assert (digits + rest)[1..] == digits[1..] + rest;
      DigitRunIs(digits[1..], rest);
    }
  }

  lemma {:induction false} DigitRunTakes(s: string)
    ensures AreDigits(s[..DigitRun(s)])
  {
    if s != "" && '0' <= s[0] <= '9' {
      DigitRunTakes(s[1..]);
      assert s[..DigitRun(s)] == [s[0]] + s[1..][..DigitRun(s[1..])];
    }
  }

  ghost predicate IsNumberedLine(line: string, indent: string, digits: string, gap: string, text: string) {
    IsMarkedLine(line, indent, digits + ".", gap, text) && digits != "" && AreDigits(digits)
  }

  lemma DigitsGive(s: string, text: string) returns (digits: string, gap: string)
    requires var n := DigitRun(s); 0 < n < |s| && s[n] == '.' && AfterMark(s[n..]) == Some(text)
    ensures digits != "" && AreDigits(digits) && IsGap(gap) && IsSolid(text)
    ensures s == digits + (['.'] + gap + text)
  {
    var n := DigitRun(s);
    digits := s[..n];
    gap := AfterMarkGives(s[n..], text);
    DigitRunTakes(s);
    assert s == digits + s[n..];
  }

  lemma NumberedGives(line: string, text: string) returns (indent: string, digits: string, gap: string)
    requires NumberedOf(line) == Some(text)
    ensures IsNumberedLine(line, indent, digits, gap, text)
  {
    indent := TrimStartSplits(line);
    digits, gap := DigitsGive(TrimStart(line), text);
    NumberedParts(line, indent, digits, gap, text);
  }

  lemma NumberedParts(line: string, indent: string, digits: string, gap: string, text: string)
    ensures indent + (digits + (['.'] + gap + text)) == indent + (digits + ".") + gap + text
  {
    Group4(digits, ['.'], gap, text);
    Group4(indent, digits + ".", gap, text);
  }

  lemma NumberedIs(line: string, indent: string, digits: string, gap: string, text: string)
    requires IsNumberedLine(line, indent, digits, gap, text)
    ensures NumberedOf(line) == Some(text)
  {
    var rest := ['.'] + gap + text;
    var s := digits + rest;
    AfterMarkIs('.', gap, text);
    DigitRunIs(digits, rest);
    NumberedParts(line, indent, digits, gap, text);
    assert IsSolid(s);
    TrimStartDrops(indent, s);
    assert s[|digits|..] == rest;
  }

  /** A numbered item is a number and a dot behind any indent. */
  lemma NumberedPattern(line: string, text: string)
    ensures NumberedOf(line) == Some(text) <==>
            exists indent, digits, gap :: IsNumberedLine(line, indent, digits, gap, text)
  {
    if NumberedOf(line) == Some(text) {
      var indent, digits, gap := NumberedGives(line, text);
    }
    if indent, digits, gap :| IsNumberedLine(line, indent, digits, gap, text) {
      NumberedIs(line, indent, digits, gap, text);
    }
  }

  ghost predicate IsBoxedText(t: string, box: char, gap: string, text: string) {
    t == "[" + [box] + "]" + gap + text && (box == ' ' || box == 'x' || box == 'X') && IsGap(gap) && IsSolid(text)
  }

  lemma BoxHead(t: string, box: char)
    requires |t| >= 3 && t[0] == '[' && t[1] == box && t[2] == ']'
    ensures t == "[" + [box] + "]" + t[3..]
  {}

  lemma BoxGives(t: string, box: char, text: string) returns (gap: string)
    requires BoxOf(t) == Some((box, text))
    ensures IsBoxedText(t, box, gap, text)
  {
    gap := GapSplits(t[3..]);
    BoxHead(t, box);
    Group3("[" + [box] + "]", gap, text);
  }

  lemma BoxIs(t: string, box: char, gap: string, text: string)
    requires IsBoxedText(t, box, gap, text)
    ensures BoxOf(t) == Some((box, text))
  {
    var head := "[" + [box] + "]";
    Group3(head, gap, text);
    assert |head| == 3 && head[0] == '[' && head[1] == box && head[2] == ']' && gap[0] in gap;
    BehindHead(head, gap + text);
    TrimStartDrops(gap, text);
  }

  lemma BehindHead(head: string, rest: string)
    ensures (head + rest)[|head|..] == rest && (head + rest)[..|head|] == head
  {}

  ghost predicate IsTaskLine(line: string, indent: string, gap: string, t: string, box: char, gap': string,
                             text: string)
  {
    IsMarkedLine(line, indent, "-", gap, t) && IsBoxedText(t, box, gap', text)
  }

  lemma TaskGives(line: string, box: char, text: string)
    returns (indent: string, gap: string, t: string, gap': string)
    requires TaskOf(line) == Some((box, text))
    ensures IsTaskLine(line, indent, gap, t, box, gap', text)
  {
    t := AfterMark(TrimStart(line)).value;
    indent, gap := MarkGives(line, t);
    gap' := BoxGives(t, box, text);
    assert [TrimStart(line)[0]] == "-";
  }

  /** A task is a dash behind any indent, a box that is empty or ticked with either letter, and text. */
  lemma TaskPattern(line: string, box: char, text: string)
    ensures TaskOf(line) == Some((box, text)) <==>
            exists indent, gap, t, gap' :: IsTaskLine(line, indent, gap, t, box, gap', text)
  {
    if TaskOf(line) == Some((box, text)) {
      var indent, gap, t, gap' := TaskGives(line, box, text);
    }
    if indent, gap, t, gap' :| IsTaskLine(line, indent, gap, t, box, gap', text) {
      assert ['-'] == "-";
      MarkIs(line, indent, '-', gap, t);
      BoxIs(t, box, gap', text);
    }
  }
}
