/** The year-month-day keys that name the cells of the calendar and index the tasks by day. */
module DayKeys {
  import opened Results
  import opened JsText
  import opened CivilDates

  /** A number in decimal, with a zero in front of a single digit. */
  function Pad2(n: nat): string {
    if |Decimal(n)| < 2 then "0" + Decimal(n) else Decimal(n)
  }

  /** A year before year 0 has a sign. */
  function YearText(year: int): string {
    if year < 0 then ['-'] + Decimal(-year) else Decimal(year)
  }

  function Ymd(d: Date): string
    requires d.month >= 0 && d.day >= 0
  {
    YearText(d.year) + ['-'] + (Pad2(d.month + 1) + ['-'] + Pad2(d.day))
  }

  predicate AreDigits(s: string) {
    forall c <- s :: '0' <= c <= '9'
  }

  /** The number that a string of digits stands for. */
  function Number(s: string): int
    requires AreDigits(s)
  {
    if s == "" then 0
    else
      var n := |s| - 1;
      assert s[n] in s && forall c <- s[..n] :: c in s;
      10 * Number(s[..n]) + (s[n] as int - '0' as int)
  }

  lemma {:induction false} NumberOfDecimal(n: nat)
    ensures AreDigits(Decimal(n)) && Number(Decimal(n)) == n
  {
    DecimalIsDigits(n);
    var last := ['0' + (n % 10) as char];
    if n >= 10 {
      NumberOfDecimal(n / 10);
      DecimalIsDigits(n / 10);
      var s := Decimal(n / 10) + last;
      assert s[..|s| - 1] == Decimal(n / 10);
    } else {
      assert last[..0] == "";
    }
  }

  lemma {:induction false} LeadingZero(s: string)
    requires AreDigits(s)
    ensures AreDigits("0" + s) && Number("0" + s) == Number(s)
  {
    if s == "" {
      assert ("0" + s)[..0] == "";
    } else {
      var n := |s| - 1;
      assert s[n] in s && forall c <- s[..n] :: c in s;
      LeadingZero(s[..n]);
      assert ("0" + s)[..n + 1] == "0" + s[..n];
    }
  }

  lemma NumberOfPad2(n: nat)
    ensures AreDigits(Pad2(n)) && Number(Pad2(n)) == n
  {
    NumberOfDecimal(n);
    LeadingZero(Decimal(n));
  }

  lemma SplitKey(y: string, m: string, t: string)
    requires '-' !in y && '-' !in m && '-' !in t
    ensures SplitOn(y + ['-'] + (m + ['-'] + t), '-') == [y, m, t]
  {
    SplitOnFirst(y, '-', m + ['-'] + t);
    SplitOnFirst(m, '-', t);
    SplitOnNone(t, '-');
  }

  lemma SplitSigned(y: string, rest: string)
    ensures SplitOn((['-'] + y) + ['-'] + rest, '-') == [""] + SplitOn(y + ['-'] + rest, '-')
  {
    assert (['-'] + y) + ['-'] + rest == ([] + ['-']) + (y + ['-'] + rest);
    SplitOnFirst([], '-', y + ['-'] + rest);
  }

  /** The parts of a key between its dashes. */
  lemma KeyParts(d: Date)
    requires d.year >= 0 && d.month >= 0 && d.day >= 0
    ensures SplitOn(Ymd(d), '-') == [Decimal(d.year), Pad2(d.month + 1), Pad2(d.day)]
  {
    NumberOfDecimal(d.year);
    NumberOfPad2(d.month + 1);
    NumberOfPad2(d.day);
    SplitKey(Decimal(d.year), Pad2(d.month + 1), Pad2(d.day));
  }

  /** The sign of a year makes one part more, an empty one. */
  lemma SignedKeyParts(d: Date)
    requires d.year < 0 && d.month >= 0 && d.day >= 0
    ensures SplitOn(Ymd(d), '-') == ["", Decimal(-d.year), Pad2(d.month + 1), Pad2(d.day)]
  {
    var u := d.(year := -d.year);
    KeyParts(u);
    SplitSigned(Decimal(u.year), Pad2(d.month + 1) + ['-'] + Pad2(d.day));
  }

  /** The first three parts of a key, read as year, month from 1 on, and day. */
  function ReadKey(key: string): Option<Date> {
    var parts := SplitOn(key, '-');
    if |parts| >= 3 && AreDigits(parts[0]) && AreDigits(parts[1]) && AreDigits(parts[2])
    then Some(Date(Number(parts[0]), Number(parts[1]) - 1, Number(parts[2])))
    else None
  }

  lemma ThreeParts(key: string, y: nat, m: nat, t: nat)
    requires SplitOn(key, '-') == [Decimal(y), Pad2(m), Pad2(t)]
    ensures ReadKey(key) == Some(Date(y, m - 1, t))
  {
    NumberOfDecimal(y);
    NumberOfPad2(m);
    NumberOfPad2(t);
  }

  lemma FourParts(key: string, y: nat, m: nat, t: nat)
    requires SplitOn(key, '-') == ["", Decimal(y), Pad2(m), Pad2(t)]
    ensures ReadKey(key) == Some(Date(0, y - 1, m))
  {
    NumberOfDecimal(y);
    NumberOfPad2(m);
  }

  /** Reading a key gives the date back exactly from year 0 on; before, the sign shifts the parts. */
  lemma KeyReadsBack(d: Date)
    requires d.month >= 0 && d.day >= 0
    ensures ReadKey(Ymd(d)) == Some(d) <==> d.year >= 0
    ensures d.year < 0 ==> ReadKey(Ymd(d)) == Some(Date(0, -d.year - 1, d.month + 1))
  {
    if d.year >= 0 {
      KeyParts(d);
      ThreeParts(Ymd(d), d.year, d.month + 1, d.day);
    } else {
      SignedKeyParts(d);
      FourParts(Ymd(d), -d.year, d.month + 1, d.day);
    }
  }

  /** Tasks share a cell exactly when they are due on the same day, in any year. */
  lemma KeysIdentifyDays(a: Date, b: Date)
    requires a.month >= 0 && a.day >= 0 && b.month >= 0 && b.day >= 0
    ensures Ymd(a) == Ymd(b) <==> a == b
  {
    KeyReadsBack(a);
    KeyReadsBack(b);
    if a.year < 0 {
      SignedKeyParts(a);
      NumberOfPad2(a.day);
    } else {
      KeyParts(a);
    }
    if b.year < 0 {
      SignedKeyParts(b);
      NumberOfPad2(b.day);
    } else {
      KeyParts(b);
    }
  }
}
