/** Cost of language-model calls: rounding at write time, and the daily summary. */
module AiCost {
  import opened Results
  import Sorting

  // ---------- Rounding ----------

  const TOKENS_PER_PRICE := 1_000_000

  datatype Price = Price(inputCentsPerMTok: int, outputCentsPerMTok: int)

  datatype Usage = Usage(model: string, inputTokens: int, outputTokens: int)

  const SONNET := Price(300, 1500)
  const LOCAL := Price(0, 0)
  const DEFAULT_PRICE := SONNET

  const PRICE_TABLE: map<string, Price> :=
    map["claude-sonnet-4-6" := SONNET, "claude-sonnet-4-5" := SONNET, "claude-3-5-sonnet-latest" := SONNET,
        "llama3.2" := LOCAL, "nomic-embed-text" := LOCAL]

  function PriceOf(model: string): Price {
    if model in PRICE_TABLE then PRICE_TABLE[model] else DEFAULT_PRICE
  }

  /** The exact cost, in millionths of a cent. */
  function ExactCost(u: Usage): int {
    var price := PriceOf(u.model);
    u.inputTokens * price.inputCentsPerMTok + u.outputTokens * price.outputCentsPerMTok
  }

  /** The nearest whole number of cents; a half is rounded up. */
  function Round(millionths: int): (cents: int)
    ensures -TOKENS_PER_PRICE <= 2 * (millionths - cents * TOKENS_PER_PRICE) < TOKENS_PER_PRICE
  {
    (millionths + TOKENS_PER_PRICE / 2) / TOKENS_PER_PRICE
  }

  function ComputeCostCents(u: Usage): int {
    Round(ExactCost(u))
  }

  function SumExact(us: seq<Usage>): int {
    if us == [] then 0 else ExactCost(us[0]) + SumExact(us[1..])
  }

  function SumCents(us: seq<Usage>): int {
    if us == [] then 0 else ComputeCostCents(us[0]) + SumCents(us[1..])
  }

  /** Over n calls the sum of the rounded costs is off by at most n / 2 cents. */
  lemma {:induction false} RoundingDriftIsBounded(us: seq<Usage>)
    ensures -TOKENS_PER_PRICE * |us|
            <= 2 * (SumExact(us) - SumCents(us) * TOKENS_PER_PRICE)
            <= TOKENS_PER_PRICE * |us|
  {
    if us != [] {
      RoundingDriftIsBounded(us[1..]);
    }
  }

  /** A call whose cost lies half way between two cents. */
  const HALF_CENT_CALL := Usage("claude-sonnet-4-6", 5000, 0)

  lemma HalfCentCall()
    ensures ExactCost(HALF_CENT_CALL) == 3 * TOKENS_PER_PRICE / 2 && ComputeCostCents(HALF_CENT_CALL) == 2
  {}

  function HalfCentCalls(n: nat): (us: seq<Usage>)
    ensures |us| == n
  {
    if n == 0 then [] else [HALF_CENT_CALL] + HalfCentCalls(n - 1)
  }

  lemma {:induction false} HalfCentsDrift(n: nat)
    ensures 2 * (SumCents(HalfCentCalls(n)) * TOKENS_PER_PRICE - SumExact(HalfCentCalls(n))) == TOKENS_PER_PRICE * n
  {
    if n > 0 {
      HalfCentCall();
      HalfCentsDrift(n - 1);
      assert HalfCentCalls(n)[1..] == HalfCentCalls(n - 1);
    }
  }

  /** The bound is the best possible: for every n some n calls are off by n / 2 cents. */
  lemma RoundingDriftIsReached(n: nat)
    ensures exists us :: |us| == n && 2 * (SumCents(us) * TOKENS_PER_PRICE - SumExact(us)) == TOKENS_PER_PRICE * n
  {
    HalfCentsDrift(n);
  }

  // ---------- The query ----------

  const DAY := 24 * 60 * 60 * 1000

  /** Times are milliseconds of UTC; days are counted from the epoch. */
  function DayOf(time: int): int {
    time / DAY
  }

  datatype Event = Event(createdAt: int, kind: string, model: string, cents: int, ok: bool)

  datatype Row = Row(day: int, kind: string, model: string, cost: int)

  predicate IsCounted(e: Event, since: int, until: int) {
    since <= e.createdAt < until && e.ok
  }

  function RowOf(e: Event): Row {
    Row(DayOf(e.createdAt), e.kind, e.model, e.cents)
  }

  predicate SameKey(a: Row, b: Row) {
    a.day == b.day && a.kind == b.kind && a.model == b.model
  }

  /** Adds to the row with the same day, kind and model, or begins one. */
  function AddRow(rows: seq<Row>, r: Row): seq<Row> {
    if rows == [] then [r]
    else if SameKey(rows[0], r) then [rows[0].(cost := rows[0].cost + r.cost)] + rows[1..]
    else [rows[0]] + AddRow(rows[1..], r)
  }

  function Grouped(events: seq<Event>, since: int, until: int): seq<Row> {
    if events == [] then []
    else
      var n := |events| - 1;
      var rows := Grouped(events[..n], since, until);
      if IsCounted(events[n], since, until) then AddRow(rows, RowOf(events[n])) else rows
  }

  predicate ByDay(a: Row, b: Row) {
    a.day <= b.day
  }

  /** The rows that the database returns, one for each day, kind and model, in the order of the days. */
  function Query(events: seq<Event>, since: int, until: int): seq<Row> {
    Sorting.Sort(ByDay, Grouped(events, since, until))
  }

  // ---------- Sums by key ----------

  /** Which rows are asked for; None asks for all. */
  datatype Key = Key(day: Option<int>, kind: Option<string>, model: Option<string>)

  predicate Fits(key: Key, r: Row) {
    && (key.day.Some? ==> key.day.value == r.day)
    && (key.kind.Some? ==> key.kind.value == r.kind)
    && (key.model.Some? ==> key.model.value == r.model)
  }

  function CostOf(rows: seq<Row>, key: Key): int {
    if rows == [] then 0
    else
      var n := |rows| - 1;
      CostOf(rows[..n], key) + if Fits(key, rows[n]) then rows[n].cost else 0
  }

  /** What was spent, straight from the events. */
  function Spent(events: seq<Event>, since: int, until: int, key: Key): int {
    if events == [] then 0
    else
      var n := |events| - 1;
      Spent(events[..n], since, until, key) +
      if IsCounted(events[n], since, until) && Fits(key, RowOf(events[n])) then events[n].cents else 0
  }

  lemma {:induction false} CostOfFirst(rows: seq<Row>, key: Key)
    requires rows != []
    ensures CostOf(rows, key) == (if Fits(key, rows[0]) then rows[0].cost else 0) + CostOf(rows[1..], key)
  {
    if |rows| > 1 {
      var n := |rows| - 1;
      CostOfFirst(rows[..n], key);
      assert rows[..n][1..] == rows[1..][..n - 1];
    }
  }

  lemma {:induction false} AddRowCosts(rows: seq<Row>, r: Row, key: Key)
    ensures CostOf(AddRow(rows, r), key) == CostOf(rows, key) + if Fits(key, r) then r.cost else 0
  {
    CostOfFirst(AddRow(rows, r), key);
    if rows != [] {
      CostOfFirst(rows, key);
      if SameKey(rows[0], r) {
        assert AddRow(rows, r)[1..] == rows[1..];
      } else {
        AddRowCosts(rows[1..], r, key);
        assert AddRow(rows, r)[1..] == AddRow(rows[1..], r);
      }
    } else {
      assert [r][1..] == [];
    }
  }

  lemma {:induction false} GroupedCosts(events: seq<Event>, since: int, until: int, key: Key)
    ensures CostOf(Grouped(events, since, until), key) == Spent(events, since, until, key)
  {
    if events != [] {
      var n := |events| - 1;
      GroupedCosts(events[..n], since, until, key);
      if IsCounted(events[n], since, until) {
        AddRowCosts(Grouped(events[..n], since, until), RowOf(events[n]), key);
      }
    }
  }

  lemma {:induction false} InsertCosts(rows: seq<Row>, r: Row, key: Key)
    ensures CostOf(Sorting.Insert(ByDay, rows, r), key) == CostOf(rows, key) + if Fits(key, r) then r.cost else 0
  {
    var s := Sorting.Insert(ByDay, rows, r);
    CostOfFirst(s, key);
    if rows != [] && ByDay(rows[0], r) {
      CostOfFirst(rows, key);
      InsertCosts(rows[1..], r, key);
      assert s[1..] == Sorting.Insert(ByDay, rows[1..], r);
    } else {
      assert s[1..] == rows;
    }
  }

  lemma {:induction false} SortCosts(rows: seq<Row>, key: Key)
    ensures CostOf(Sorting.Sort(ByDay, rows), key) == CostOf(rows, key)
  {
    if rows != [] {
      var n := |rows| - 1;
      SortCosts(rows[..n], key);
      InsertCosts(Sorting.Sort(ByDay, rows[..n]), rows[n], key);
    }
  }

  /** The rows account for every event that counts, however it is sliced. */
  lemma QueryCosts(events: seq<Event>, since: int, until: int, key: Key)
    ensures CostOf(Query(events, since, until), key) == Spent(events, since, until, key)
  {
    SortCosts(Grouped(events, since, until), key);
    GroupedCosts(events, since, until, key);
  }

  lemma {:induction false} AddRowDays(rows: seq<Row>, r: Row, first: int, last: int)
    requires first <= r.day <= last && forall x <- rows :: first <= x.day <= last
    ensures forall x <- AddRow(rows, r) :: first <= x.day <= last
  {
    if rows != [] && !SameKey(rows[0], r) {
      AddRowDays(rows[1..], r, first, last);
    }
  }

  lemma {:induction false} GroupedDays(events: seq<Event>, since: int, until: int)
    ensures forall x <- Grouped(events, since, until) :: DayOf(since) <= x.day <= DayOf(until)
  {
    if events != [] {
      var n := |events| - 1;
      GroupedDays(events[..n], since, until);
      if IsCounted(events[n], since, until) {
        AddRowDays(Grouped(events[..n], since, until), RowOf(events[n]), DayOf(since), DayOf(until));
      }
    }
  }

  lemma QueryDays(events: seq<Event>, since: int, until: int)
    ensures forall x <- Query(events, since, until) :: DayOf(since) <= x.day <= DayOf(until)
  {
    GroupedDays(events, since, until);
    var rows := Query(events, since, until);
    forall x | x in rows ensures DayOf(since) <= x.day <= DayOf(until) {
      assert x in multiset(rows);
      assert x in multiset(Grouped(events, since, until));
    }
  }

  // ---------- The folding loop ----------

  datatype Point = Point(day: int, totalCostCents: int, byKind: map<string, int>, byModel: map<string, int>)

  function Get(m: map<string, int>, k: string): int {
    if k in m then m[k] else 0
  }

  function Add(p: Point, r: Row): Point {
    Point(p.day, p.totalCostCents + r.cost, p.byKind[r.kind := Get(p.byKind, r.kind) + r.cost],
          p.byModel[r.model := Get(p.byModel, r.model) + r.cost])
  }

  /** The point of a day after some rows. */
  function PointOf(rows: seq<Row>, day: int): Point {
    if rows == [] then Point(day, 0, map[], map[])
    else
      var n := |rows| - 1;
      var p := PointOf(rows[..n], day);
      if rows[n].day == day then Add(p, rows[n]) else p
  }

  lemma {:induction false} PointHolds(rows: seq<Row>, day: int, k: string)
    ensures var p := PointOf(rows, day);
            && p.day == day && p.totalCostCents == CostOf(rows, Key(Some(day), None, None))
            && Get(p.byKind, k) == CostOf(rows, Key(Some(day), Some(k), None))
            && Get(p.byModel, k) == CostOf(rows, Key(Some(day), None, Some(k)))
  {
    if rows != [] {
      PointHolds(rows[..|rows| - 1], day, k);
    }
  }

  /** The sum of the values of a map. */
  ghost function Total(m: map<string, int>): int
    decreases |m|
  {
    if m == map[] then 0
    else
      var k :| k in m;
      m[k] + Total(m - {k})
  }

  lemma {:induction false} TotalWithout(m: map<string, int>, k: string)
    requires k in m
    ensures Total(m) == m[k] + Total(m - {k})
    decreases |m|
  {
    var j :| j in m && Total(m) == m[j] + Total(m - {j});
    if j != k {
      TotalWithout(m - {j}, k);
      TotalWithout(m - {k}, j);
      assert m - {j} - {k} == m - {k} - {j};
    }
  }

  lemma TotalAfterAdd(m: map<string, int>, k: string, c: int)
    ensures Total(m[k := Get(m, k) + c]) == Total(m) + c
  {
    var m' := m[k := Get(m, k) + c];
    TotalWithout(m', k);
    assert m' - {k} == m - {k};
    if k in m {
      TotalWithout(m, k);
    } else {
      assert m - {k} == m;
    }
  }

  /** Both breakdowns of a day sum to its total. */
  lemma {:induction false} BreakdownsSum(rows: seq<Row>, day: int)
    ensures var p := PointOf(rows, day); Total(p.byKind) == p.totalCostCents == Total(p.byModel)
  {
    if rows != [] {
      var n := |rows| - 1;
      var p := PointOf(rows[..n], day);
      BreakdownsSum(rows[..n], day);
      TotalAfterAdd(p.byKind, rows[n].kind, rows[n].cost);
      TotalAfterAdd(p.byModel, rows[n].model, rows[n].cost);
    }
  }

  /** The points of `count` days from `first` on. */
  function Points(rows: seq<Row>, first: int, count: nat): seq<Point> {
    seq(count, i => PointOf(rows, first + i))
  }

  function DayCount(since: int, until: int): nat {
    if DayOf(since) <= DayOf(until) then DayOf(until) - DayOf(since) + 1 else 0
  }

  /** The axis of days and the points on it. No row is off the axis, so none is skipped. */
  method Summary(events: seq<Event>, since: int, until: int) returns (days: seq<Point>, total: int)
    ensures days == Points(Query(events, since, until), DayOf(since), DayCount(since, until))
    ensures total == Spent(events, since, until, Key(None, None, None))
  {
    var rows := Query(events, since, until);
    QueryDays(events, since, until);
    QueryCosts(events, since, until, Key(None, None, None));
    AllWithin(rows, DayOf(since), DayCount(since, until));
    days := DayAxis(since, until);
    days, total := FoldRows(rows, DayOf(since), DayCount(since, until), days);
  }

  /** The first loop: one empty point a day, the day of `until` included. */
  method DayAxis(since: int, until: int) returns (days: seq<Point>)
    ensures days == Points([], DayOf(since), DayCount(since, until))
  {
    days := [];
    var t := DayOf(since) * DAY;
    while t < DayOf(until) * DAY + 1
      invariant t == (DayOf(since) + |days|) * DAY
      invariant |days| <= DayCount(since, until) && days == Points([], DayOf(since), |days|)
      decreases DayOf(until) * DAY + 1 - t
    {
      days := days + [Point(t / DAY, 0, map[], map[])];
      t := t + DAY;
    }
  }

  /** The second loop; a row off the axis is skipped. */
  method FoldRows(rows: seq<Row>, first: int, count: nat, empty: seq<Point>) returns (days: seq<Point>, total: int)
    requires empty == Points([], first, count)
    ensures days == Points(rows, first, count) && total == CostWithin(rows, first, count)
  {
    days, total := empty, 0;
    for i := 0 to |rows|
      invariant days == Points(rows[..i], first, count)
      invariant total == CostWithin(rows[..i], first, count)
    {
      var r := rows[i];
      assert rows[..i + 1][..i] == rows[..i];
      PointsStep(rows[..i], r, first, count);
      assert rows[..i] + [r] == rows[..i + 1];
      if first <= r.day < first + count {
        days := days[r.day - first := Add(days[r.day - first], r)];
        total := total + r.cost;
      }
    }
    assert rows[..|rows|] == rows;
  }

  lemma PointsStep(rows: seq<Row>, r: Row, first: int, count: nat)
    ensures Points(rows + [r], first, count) ==
            if first <= r.day < first + count then
              Points(rows, first, count)[r.day - first := Add(PointOf(rows, r.day), r)]
            else Points(rows, first, count)
  {
    assert (rows + [r])[..|rows|] == rows;
    var before, after := Points(rows, first, count), Points(rows + [r], first, count);
    forall i | 0 <= i < count
      ensures after[i] == if first + i == r.day then Add(PointOf(rows, r.day), r) else before[i]
    {
      assert after[i] == PointOf(rows + [r], first + i) && before[i] == PointOf(rows, first + i);
    }
  }

  // ---------- The days of the window ----------

  /** Some instant of the window [since, until) falls on the day. */
  ghost predicate IsInWindow(since: int, until: int, day: int) {
    exists t :: since <= t < until && DayOf(t) == day
  }

  ghost predicate HasPoint(days: seq<Point>, day: int) {
    exists i | 0 <= i < |days| :: days[i].day == day
  }

  /** The points stand for exactly the days of the window. */
  ghost predicate CoversWindow(days: seq<Point>, since: int, until: int) {
    forall day :: HasPoint(days, day) <==> IsInWindow(since, until, day)
  }

  lemma PointsHaveDays(rows: seq<Row>, first: int, count: nat, day: int)
    ensures HasPoint(Points(rows, first, count), day) <==> first <= day < first + count
  {
    var days := Points(rows, first, count);
    forall i | 0 <= i < count ensures days[i].day == first + i {
      PointHolds(rows, first + i, "");
    }
    if first <= day < first + count {
      assert days[day - first].day == day;
    }
  }

  lemma DayBounds(time: int, day: int)
    ensures DayOf(time) == day <==> day * DAY <= time < (day + 1) * DAY
  {}

  /** A window that is not empty touches the days from that of its start to that of its last instant. */
  lemma WindowDays(since: int, until: int, day: int)
    ensures IsInWindow(since, until, day) <==> since < until && DayOf(since) <= day <= DayOf(until - 1)
  {
    DayBounds(since, DayOf(since));
    DayBounds(until - 1, DayOf(until - 1));
    if since < until && DayOf(since) <= day <= DayOf(until - 1) {
      var t := if day == DayOf(since) then since else day * DAY;
      DayBounds(t, day);
      assert since <= t < until && DayOf(t) == day;
    }
  }

  lemma LastDay(until: int)
    ensures DayOf(until - 1) == if until % DAY == 0 then DayOf(until) - 1 else DayOf(until)
  {
    DayBounds(until - 1, DayOf(until - 1));
    DayBounds(until, DayOf(until));
  }

  /** The summary has one point for each day of the half-open window, and no other, if and only if the
    * window is not empty and does not end at midnight, or ends on an earlier day than it starts. */
  lemma DaysAreWindowExactly(events: seq<Event>, since: int, until: int)
    ensures var days := Points(Query(events, since, until), DayOf(since), DayCount(since, until));
            CoversWindow(days, since, until) <==>
            (since < until && until % DAY != 0) || DayOf(until) < DayOf(since)
  {
    var rows, first, count := Query(events, since, until), DayOf(since), DayCount(since, until);
    var days := Points(rows, first, count);
    LastDay(until);
    forall day ensures HasPoint(days, day) <==> first <= day < first + count {
      PointsHaveDays(rows, first, count, day);
    }
    forall day ensures IsInWindow(since, until, day) <==> since < until && first <= day <= DayOf(until - 1) {
      WindowDays(since, until, day);
    }
    if !((since < until && until % DAY != 0) || DayOf(until) < DayOf(since)) {
      assert HasPoint(days, DayOf(until)) && !IsInWindow(since, until, DayOf(until));
    }
  }

  /** A window of one whole day gets two points. */
  lemma MidnightAddsDay(events: seq<Event>)
    ensures var days := Points(Query(events, 0, DAY), DayOf(0), DayCount(0, DAY));
            |days| == 2 && days[1].day == 1 && !IsInWindow(0, DAY, 1)
  {
    WindowDays(0, DAY, 1);
    PointHolds(Query(events, 0, DAY), 1, "");
  }

  /** An empty window gets a point for a day of which it holds no instant. */
  lemma EmptyWindowHasDay(events: seq<Event>)
    ensures var noon := DAY / 2;
            var days := Points(Query(events, noon, noon), DayOf(noon), DayCount(noon, noon));
            |days| == 1 && days[0].day == 0 && forall day :: !IsInWindow(noon, noon, day)
  {
    PointHolds(Query(events, DAY / 2, DAY / 2), 0, "");
  }

  // ---------- Conservation ----------

  function SumOfDays(days: seq<Point>): int {
    if days == [] then 0 else SumOfDays(days[..|days| - 1]) + days[|days| - 1].totalCostCents
  }

  /** What falls on the first `count` days. */
  function CostWithin(rows: seq<Row>, first: int, count: nat): int {
    if rows == [] then 0
    else
      var n := |rows| - 1;
      CostWithin(rows[..n], first, count) + if first <= rows[n].day < first + count then rows[n].cost else 0
  }

  lemma {:induction false} OneMoreDay(rows: seq<Row>, first: int, count: nat)
    ensures CostWithin(rows, first, count + 1) ==
            CostWithin(rows, first, count) + CostOf(rows, Key(Some(first + count), None, None))
  {
    if rows != [] {
      OneMoreDay(rows[..|rows| - 1], first, count);
    }
  }

  lemma {:induction false} NoDays(rows: seq<Row>, first: int)
    ensures CostWithin(rows, first, 0) == 0
  {
    if rows != [] {
      NoDays(rows[..|rows| - 1], first);
    }
  }

  lemma {:induction false} DaysSum(rows: seq<Row>, first: int, count: nat)
    ensures SumOfDays(Points(rows, first, count)) == CostWithin(rows, first, count)
  {
    if count == 0 {
      NoDays(rows, first);
    } else {
      DaysSum(rows, first, count - 1);
      OneMoreDay(rows, first, count - 1);
      PointHolds(rows, first + count - 1, "");
      assert Points(rows, first, count)[..count - 1] == Points(rows, first, count - 1);
    }
  }

  lemma {:induction false} AllWithin(rows: seq<Row>, first: int, count: nat)
    requires forall x <- rows :: first <= x.day < first + count
    ensures CostWithin(rows, first, count) == CostOf(rows, Key(None, None, None))
  {
    if rows != [] {
      assert rows[|rows| - 1] in rows;
      AllWithin(rows[..|rows| - 1], first, count);
    }
  }

  /** No money is lost: the days sum to what was spent in the window. */
  lemma SummaryConserves(events: seq<Event>, since: int, until: int)
    ensures SumOfDays(Points(Query(events, since, until), DayOf(since), DayCount(since, until))) ==
            Spent(events, since, until, Key(None, None, None))
  {
    var rows := Query(events, since, until);
    QueryDays(events, since, until);
    QueryCosts(events, since, until, Key(None, None, None));
    DaysSum(rows, DayOf(since), DayCount(since, until));
    AllWithin(rows, DayOf(since), DayCount(since, until));
  }

  /** The i-th point is the i-th day, with what was spent on it in all, by kind and by model. */
  lemma PointsAreDays(events: seq<Event>, since: int, until: int, i: nat, k: string)
    requires i < DayCount(since, until)
    ensures var p := Points(Query(events, since, until), DayOf(since), DayCount(since, until))[i];
            && p.day == DayOf(since) + i
            && p.totalCostCents == Spent(events, since, until, Key(Some(p.day), None, None))
            && Get(p.byKind, k) == Spent(events, since, until, Key(Some(p.day), Some(k), None))
            && Get(p.byModel, k) == Spent(events, since, until, Key(Some(p.day), None, Some(k)))
            && Total(p.byKind) == p.totalCostCents == Total(p.byModel)
  {
    var rows, day := Query(events, since, until), DayOf(since) + i;
    PointHolds(rows, day, k);
    BreakdownsSum(rows, day);
    QueryCosts(events, since, until, Key(Some(day), None, None));
    QueryCosts(events, since, until, Key(Some(day), Some(k), None));
    QueryCosts(events, since, until, Key(Some(day), None, Some(k)));
  }
}
