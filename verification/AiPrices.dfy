/** What calls cost, in cents and tokens, and how the cost of a window adds up. */
module AiPrices {
  import opened Results
  import opened AiCost

  predicate IsLocal(model: string) {
    model == "llama3.2" || model == "nomic-embed-text"
  }

  /** Three dollars for a million input tokens and fifteen for a million output tokens, for every model that
    * is not a local one, in millionths of a cent. */
  function Charge(u: Usage): int {
    if IsLocal(u.model) then 0 else 300 * u.inputTokens + 1500 * u.outputTokens
  }

  lemma ExactIsCharge(u: Usage)
    ensures ExactCost(u) == Charge(u)
  {}

  /** The recorded cost is the number of cents nearest to the charge; a half is rounded up. */
  lemma CostIsNearestCent(u: Usage)
    ensures 1_000_000 * ComputeCostCents(u) - 500_000 <= Charge(u) < 1_000_000 * ComputeCostCents(u) + 500_000
  {
    ExactIsCharge(u);
  }

  /** Whole millions of tokens are charged without any rounding. */
  lemma MillionsAreExact(model: string, a: int, b: int)
    ensures ComputeCostCents(Usage(model, 1_000_000 * a, 1_000_000 * b)) ==
            if IsLocal(model) then 0 else 300 * a + 1500 * b
  {
    var u := Usage(model, 1_000_000 * a, 1_000_000 * b);
    CostIsNearestCent(u);
  }

  /** Tokens can be charged in any parts. */
  lemma ChargesAddUp(model: string, a: int, b: int, c: int, d: int)
    ensures ExactCost(Usage(model, a + c, b + d)) == ExactCost(Usage(model, a, b)) + ExactCost(Usage(model, c, d))
  {
    ExactIsCharge(Usage(model, a, b));
    ExactIsCharge(Usage(model, c, d));
    ExactIsCharge(Usage(model, a + c, b + d));
  }

  /** Days of UTC have 86.4 million milliseconds. */
  lemma DayIsUtc(time: int, day: int)
    ensures DayOf(time) == day <==> 86_400_000 * day <= time < 86_400_000 * (day + 1)
  {
    DayBounds(time, day);
  }

  // ---------- What is spent ----------

  lemma {:induction false} SpentConcat(a: seq<Event>, b: seq<Event>, since: int, until: int, key: Key)
    ensures Spent(a + b, since, until, key) == Spent(a, since, until, key) + Spent(b, since, until, key)
  {
    if b == [] {
      assert a + b == a;
    } else {
      assert (a + b)[..|a + b| - 1] == a + b[..|b| - 1];
      SpentConcat(a, b[..|b| - 1], since, until, key);
    }
  }

  /** A call counts when it succeeded, fell in the half-open window and fits what is asked for. */
  lemma CallIsSpent(events: seq<Event>, e: Event, since: int, until: int, kind: Option<string>, model: Option<string>)
    ensures var key := Key(None, kind, model);
            Spent(events + [e], since, until, key) - Spent(events, since, until, key) ==
            if e.ok && since <= e.createdAt && e.createdAt < until
               && (kind.None? || kind == Some(e.kind)) && (model.None? || model == Some(e.model))
            then e.cents else 0
  {
    assert (events + [e])[..|events|] == events;
  }

  /** Two windows that meet spend together what the whole spends: no call is counted twice or missed. */
  lemma {:induction false} WindowsAddUp(events: seq<Event>, since: int, middle: int, until: int, key: Key)
    requires since <= middle <= until
    ensures Spent(events, since, middle, key) + Spent(events, middle, until, key) == Spent(events, since, until, key)
  {
    if events != [] {
      WindowsAddUp(events[..|events| - 1], since, middle, until, key);
    }
  }

  function Without(events: seq<Event>, k: nat): seq<Event>
    requires k < |events|
  {
    events[..k] + events[k + 1..]
  }

  lemma TakeOut(events: seq<Event>, k: nat, since: int, until: int, key: Key)
    requires k < |events|
    ensures Spent(events, since, until, key) ==
            Spent(Without(events, k), since, until, key) + Spent([events[k]], since, until, key)
    ensures multiset(events) == multiset(Without(events, k)) + multiset{events[k]}
  {
    assert events == events[..k] + ([events[k]] + events[k + 1..]);
    SpentConcat(events[..k], [events[k]] + events[k + 1..], since, until, key);
    SpentConcat([events[k]], events[k + 1..], since, until, key);
    SpentConcat(events[..k], events[k + 1..], since, until, key);
  }

  lemma Cancel(m: multiset<Event>, n: multiset<Event>, e: Event)
    requires m + multiset{e} == n + multiset{e}
    ensures m == n
  {
    assert m == m + multiset{e} - multiset{e};
    assert n == n + multiset{e} - multiset{e};
  }

  /** The order in which calls were recorded plays no part. */
  lemma {:induction false} SpentIgnoresOrder(a: seq<Event>, b: seq<Event>, since: int, until: int, key: Key)
    requires multiset(a) == multiset(b)
    ensures Spent(a, since, until, key) == Spent(b, since, until, key)
    decreases |a|
  {
    if a == [] {
      assert |multiset(b)| == |b|;
    } else {
      var e := a[0];
      assert e in multiset(b);
      var k :| 0 <= k < |b| && b[k] == e;
      TakeOut(a, 0, since, until, key);
      TakeOut(b, k, since, until, key);
      Cancel(multiset(Without(a, 0)), multiset(Without(b, k)), e);
      SpentIgnoresOrder(Without(a, 0), Without(b, k), since, until, key);
    }
  }
}
