/** Whole calls of `withLock`, from their first command to their result. */
module SchedulerCalls {
  import opened Results
  import opened SchedulerLock

  lemma AfterOne(s: State, e: Event)
    ensures After(s, [e]) == Next(s, e)
  {
    assert [e][1..] == [];
  }

  lemma AfterTwo(s: State, e: Event, f: Event)
    requires Next(s, e).Some?
    ensures After(s, [e, f]) == Next(Next(s, e).value, f)
  {
    assert [e, f][1..] == [f];
    AfterOne(Next(s, e).value, f);
  }

  // ---------- The end of a body frees the lock ----------

  /** The events of a call whose body ends and whose release arrives. */
  function EndAndRelease(token: Token): seq<Event> {
    [BodyEnds(token), Execute(token)]
  }

  /** A body that ends while its call holds the lock frees it at once, and touches no other lock. */
  lemma EndedBodyFreesLock(s: State, token: Token, key: string)
    requires Reachable(s) && RunsBody(s, token) && Holds(s, token)
    ensures After(s, EndAndRelease(token)).Some?
    ensures var s' := After(s, EndAndRelease(token)).value;
            && s'.now == s.now && s'.calls.Keys == s.calls.Keys && s'.calls[token].stage == Releasing
            && Live(s', key) == if key == s.calls[token].key then None else Live(s, key)
  {
    var c := s.calls[token];
    var s1 := Next(s, BodyEnds(token)).value;
    assert s1.calls[token] == c.(stage := Releasing, wire := ReleaseCommand) && s1.keys == s.keys;
    AfterTwo(s, BodyEnds(token), Execute(token));
    HolderIsStored(s, c.key, token);
    assert Live(s1, c.key) == Live(s, c.key) == Some(token);
  }

  /** The next call to ask gets the freed lock, and runs its body. */
  lemma ReleaseHandsOver(s: State, a: Token, b: Token, ttl: int)
    requires Reachable(s) && RunsBody(s, a) && Holds(s, a) && b !in s.calls && ttl > 0
    ensures var events := EndAndRelease(a) + (Acquire(b, s.calls[a].key, ttl) + [Hear(b)]);
            && After(s, events).Some?
            && RunsBody(After(s, events).value, b) && Holds(After(s, events).value, b)
            && After(s, events).value.calls[b].key == s.calls[a].key && !RunsBody(After(s, events).value, a)
  {
    var key := s.calls[a].key;
    EndedBodyFreesLock(s, a, key);
    var s1 := After(s, EndAndRelease(a)).value;
    AfterConcat(s, EndAndRelease(a), Acquire(b, key, ttl) + [Hear(b)]);
    FreeLockIsTaken(s1, b, key, ttl);
  }

  lemma FreeLockIsTaken(s: State, token: Token, key: string, ttl: int)
    requires token !in s.calls && Live(s, key).None? && ttl > 0
    ensures After(s, Acquire(token, key, ttl) + [Hear(token)]) ==
            Some(State(s.now, s.keys[key := Entry(token, s.now + ttl)],
                       s.calls[token := Call(key, ttl, Running(s.now), Idle, Some(Granted), Some(s.now + ttl))]))
  {
    AcquireWorks(s, token, key, ttl);
    AfterConcat(s, Acquire(token, key, ttl), [Hear(token)]);
    var s1 := After(s, Acquire(token, key, ttl)).value;
    AfterOne(s1, Hear(token));
    var call := Call(key, ttl, Running(s.now), Idle, Some(Granted), Some(s.now + ttl));
    assert s1.calls[token := call] == s.calls[token := call];
  }

  // ---------- One call from begin to end ----------

  function CallTo(token: Token, key: string, ttl: int): seq<Event> {
    Acquire(token, key, ttl) + [Hear(token)]
  }

  /** A call on a free lock runs its body and, when that ends in time, leaves the lock free again. */
  lemma FreeCallRuns(s: State, token: Token, key: string, ttl: int, ms: nat)
    requires token !in s.calls && Live(s, key).None? && ms < ttl
    ensures var events := CallTo(token, key, ttl) + [Pass(ms)] + EndAndRelease(token) + [GiveUp(token)];
            After(s, events) ==
            Some(State(s.now + ms, s.keys - {key},
                       s.calls[token := Call(key, ttl, Finished(Ran), Idle, Some(Granted), None)]))
  {
    FreeLockIsTaken(s, token, key, ttl);
    var taken := After(s, CallTo(token, key, ttl)).value;
    var passed := taken.(now := s.now + ms);
    AfterOne(taken, Pass(ms));
    ReleasedByHolder(passed, token);
    var freed := After(passed, EndAndRelease(token)).value;
    AfterOne(freed, GiveUp(token));
    var call := Call(key, ttl, Finished(Ran), Idle, Some(Granted), None);
    assert freed.calls[token := call] == s.calls[token := call];
    assert s.keys[key := Entry(token, s.now + ttl)] - {key} == s.keys - {key};
    FourRuns(s, CallTo(token, key, ttl), taken, [Pass(ms)], passed, EndAndRelease(token), freed, [GiveUp(token)]);
  }

  lemma ReleasedByHolder(s: State, token: Token)
    requires RunsBody(s, token) && Live(s, s.calls[token].key) == Some(token)
    ensures After(s, EndAndRelease(token)) ==
            Some(s.(keys := s.keys - {s.calls[token].key},
                    calls := s.calls[token := s.calls[token].(stage := Releasing, wire := Idle, deadline := None)]))
  {
    var c := s.calls[token];
    var s1 := Next(s, BodyEnds(token)).value;
    AfterTwo(s, BodyEnds(token), Execute(token));
    var done := c.(stage := Releasing, wire := Idle, deadline := None);
    assert s1.calls[token := done] == s.calls[token := done];
  }

  lemma FourRuns(s: State, a: seq<Event>, sa: State, b: seq<Event>, sb: State, c: seq<Event>, sc: State, d: seq<Event>)
    requires After(s, a) == Some(sa) && After(sa, b) == Some(sb) && After(sb, c) == Some(sc)
    ensures After(s, a + b + c + d) == After(sc, d)
  {
    AfterConcat(s, a, b);
    AfterConcat(s, a + b, c);
    AfterConcat(s, a + b + c, d);
  }

  /** A call on a lock that is held is skipped, and a call without a positive time to live throws; neither
    * runs its body or touches the store. */
  lemma RefusedCallEnds(s: State, token: Token, key: string, ttl: int)
    requires token !in s.calls && (ttl <= 0 || Live(s, key).Some?)
    ensures var r := After(s, CallTo(token, key, ttl));
            && r.Some? && r.value.now == s.now && r.value.keys == s.keys && token in r.value.calls
            && r.value.calls[token].stage == Finished(if ttl <= 0 then Threw else Skipped)
            && r.value.calls == s.calls[token := r.value.calls[token]]
  {
    var s1 := Next(s, Begin(token, key, ttl)).value;
    var reply := if ttl <= 0 then Rejected else Busy;
    var heard := Call(key, ttl, Setting, Idle, Some(reply), None);
    AfterTwo(s, Begin(token, key, ttl), Execute(token));
    assert s1.calls[token := heard] == s.calls[token := heard];
    var s2 := s.(calls := s.calls[token := heard]);
    assert Live(s1, key) == Live(s, key);
    assert After(s, Acquire(token, key, ttl)) == Some(s2);
    AfterConcat(s, Acquire(token, key, ttl), [Hear(token)]);
    AfterOne(s2, Hear(token));
  }

  /** A release that fails leaves the result of the body as it is, and the entry to its expiry. */
  lemma FailedReleaseIsHarmless(s: State, token: Token)
    requires token in s.calls && s.calls[token].stage == Releasing
    ensures var r := After(s, [Lose(token), GiveUp(token)]);
            && r.Some? && r.value.now == s.now && r.value.keys == s.keys
            && token in r.value.calls && r.value.calls[token].stage == Finished(Ran)
  {
    AfterTwo(s, Lose(token), GiveUp(token));
  }

  // ---------- What a result says ----------

  /** The result of a call tells the answer to its SET. */
  predicate ResultFits(c: Call) {
    && (c.stage.Running? || c.stage.Releasing? || c.stage == Finished(Ran) ==> c.reply == Some(Granted))
    && (c.stage == Finished(Skipped) ==> c.reply == Some(Busy))
  }

  ghost predicate ResultsFit(s: State) {
    forall t <- s.calls :: ResultFits(s.calls[t])
  }

  lemma StepFitsOne(s: State, e: Event, t: Token)
    requires Next(s, e).Some? && t in Next(s, e).value.calls
    requires t in s.calls ==> IsSound(s.calls[t], s.now) && ResultFits(s.calls[t])
    ensures ResultFits(Next(s, e).value.calls[t])
  {}

  lemma StepFits(s: State, e: Event)
    requires Inv(s) && ResultsFit(s) && Next(s, e).Some?
    ensures ResultsFit(Next(s, e).value)
  {
    var s' := Next(s, e).value;
    forall t | t in s'.calls ensures ResultFits(s'.calls[t]) {
      StepFitsOne(s, e, t);
    }
  }

  lemma {:induction false} RunFits(s: State, events: seq<Event>)
    requires Inv(s) && ResultsFit(s) && After(s, events).Some?
    ensures ResultsFit(After(s, events).value)
    decreases events
  {
    if events != [] {
      StepFits(s, events[0]);
      StepKeepsInv(s, events[0]);
      RunFits(Next(s, events[0]).value, events[1..]);
    }
  }

  /** In every run a call has run its body only if the lock was granted to it, and was skipped only if the
    * lock was held. */
  lemma ResultTellsReply(s: State, token: Token)
    requires Reachable(s) && token in s.calls
    ensures var c := s.calls[token];
            && (c.stage == Finished(Ran) ==> c.reply == Some(Granted))
            && (c.stage == Finished(Skipped) ==> c.reply == Some(Busy))
  {
    var events :| After(INITIAL, events) == Some(s);
    RunFits(INITIAL, events);
  }
}
