/** The distributed scheduler lock: many replicas, one store with expiring keys, and a network that
  * delays and loses commands. Each replica's code runs in one piece between two awaits, so a run is a
  * sequence of such pieces, of commands executed by the store, and of passing time. */
module SchedulerLock {
  import opened Results

  type Token = string

  /** A stored token and the instant at which the store forgets it. */
  datatype Entry = Entry(token: Token, expiry: int)

  /** The answer to SET with NX and PX. */
  datatype Reply = Granted | Busy | Rejected

  datatype Result = Ran | Skipped | Threw | Crashed

  /** Where a call of `withLock` is suspended. */
  datatype Stage = Setting | Running(since: int) | Releasing | Finished(result: Result)

  /** The command of a call that is on its way to the store. */
  datatype Wire = Idle | SetCommand | ReleaseCommand

  /** A call; `deadline` is when the entry stored for it expires, until the call's release removes it. */
  datatype Call = Call(key: string, ttl: int, stage: Stage, wire: Wire, reply: Option<Reply>, deadline: Option<int>)

  datatype State = State(now: int, keys: map<string, Entry>, calls: map<Token, Call>)

  datatype Event =
    | Begin(token: Token, key: string, ttl: int)
    | Execute(token: Token)
    | Lose(token: Token)
    | Hear(token: Token)
    | BodyEnds(token: Token)
    | GiveUp(token: Token)
    | Crash(token: Token)
    | Pass(ms: nat)

  /** The token that the store would return for a key. */
  function Live(s: State, key: string): Option<Token> {
    if key in s.keys && s.now < s.keys[key].expiry then Some(s.keys[key].token) else None
  }

  // ---------- The commands, as the store executes them ----------

  function ExecuteSet(s: State, token: Token): State
    requires token in s.calls
  {
    var c := s.calls[token].(wire := Idle);
    if c.ttl <= 0 then s.(calls := s.calls[token := c.(reply := Some(Rejected))])
    else if Live(s, c.key).Some? then s.(calls := s.calls[token := c.(reply := Some(Busy))])
    else
      var expiry := s.now + c.ttl;
      s.(keys := s.keys[c.key := Entry(token, expiry)],
         calls := s.calls[token := c.(reply := Some(Granted), deadline := Some(expiry))])
  }

  /** Compare and delete. */
  function ExecuteRelease(s: State, token: Token): State
    requires token in s.calls
  {
    var c := s.calls[token].(wire := Idle);
    if Live(s, c.key) == Some(token) then
      s.(keys := s.keys - {c.key}, calls := s.calls[token := c.(deadline := None)])
    else s.(calls := s.calls[token := c])
  }

  // ---------- One step ----------

  function Update(s: State, token: Token, call: Call): Option<State> {
    Some(s.(calls := s.calls[token := call]))
  }

  /** The state after an event, if the event can happen. */
  function Next(s: State, e: Event): Option<State> {
    match e
    case Pass(ms) => Some(s.(now := s.now + ms))
    case Begin(token, key, ttl) =>
      if token in s.calls then None
      else Update(s, token, Call(key, ttl, Setting, SetCommand, None, None))
    case _ => if e.token in s.calls then NextOf(s, e, s.calls[e.token]) else None
  }

  function NextOf(s: State, e: Event, c: Call): Option<State>
    requires !e.Pass? && !e.Begin? && e.token in s.calls && s.calls[e.token] == c
  {
    match e
    case Execute(token) =>
      (match c.wire
       case Idle => None
       case SetCommand => Some(ExecuteSet(s, token))
       case ReleaseCommand => Some(ExecuteRelease(s, token)))
    case Lose(token) => Update(s, token, c.(wire := Idle))
    case Hear(token) =>
      if c.stage != Setting || c.reply.None? then None
      else Update(s, token, c.(stage := match c.reply.value
                                        case Granted => Running(s.now)
                                        case Busy => Finished(Skipped)
                                        case Rejected => Finished(Threw)))
    case BodyEnds(token) =>
      if c.stage.Running? then Update(s, token, c.(stage := Releasing, wire := ReleaseCommand)) else None
    case GiveUp(token) =>
      (match c.stage
       case Setting => Update(s, token, c.(stage := Finished(Threw)))
       case Releasing => Update(s, token, c.(stage := Finished(Ran)))
       case _ => None)
    case Crash(token) => Update(s, token, c.(stage := Finished(Crashed)))
  }

  // ---------- Runs ----------

  const INITIAL := State(0, map[], map[])

  function After(s: State, events: seq<Event>): Option<State>
    decreases events
  {
    if events == [] then Some(s)
    else
      var r := Next(s, events[0]);
      if r.None? then None else After(r.value, events[1..])
  }

  ghost predicate Reachable(s: State) {
    exists events :: After(INITIAL, events) == Some(s)
  }

  /** The call's entry has been stored, and has neither expired nor been removed by the call. */
  predicate Holds(s: State, token: Token) {
    token in s.calls && s.calls[token].deadline.Some? && s.now < s.calls[token].deadline.value
  }

  predicate RunsBody(s: State, token: Token) {
    token in s.calls && s.calls[token].stage.Running?
  }

  /** Its body is still running although its entry has expired. */
  predicate Overruns(s: State, token: Token) {
    RunsBody(s, token) && !Holds(s, token)
  }

  predicate SameKey(s: State, a: Token, b: Token) {
    a in s.calls && b in s.calls && s.calls[a].key == s.calls[b].key
  }

  // ---------- The invariant ----------

  predicate IsSound(c: Call, now: int) {
    && (c.deadline.Some? ==> c.deadline.value <= now + c.ttl && c.reply == Some(Granted))
    && (c.wire == SetCommand ==> c.reply.None?)
    && (c.wire == ReleaseCommand ==> !c.stage.Setting? && !c.stage.Running?)
    && (c.stage.Setting? && c.reply == Some(Granted) ==> c.deadline.Some?)
    && (c.stage.Running? ==> c.deadline.Some? && c.wire == Idle)
  }

  /** A stored entry belongs to the call with its token. */
  predicate Owns(s: State, key: string)
    requires key in s.keys
  {
    var e := s.keys[key];
    e.token in s.calls && s.calls[e.token].key == key && s.calls[e.token].deadline == Some(e.expiry)
  }

  /** A call that holds the lock has its token in the store. */
  predicate IsStored(s: State, token: Token)
    requires token in s.calls
  {
    Holds(s, token) ==> Live(s, s.calls[token].key) == Some(token)
  }

  ghost predicate Inv(s: State) {
    && (forall key <- s.keys :: Owns(s, key))
    && (forall t <- s.calls :: IsStored(s, t) && IsSound(s.calls[t], s.now))
  }

  lemma SetKeepsInv(s: State, token: Token)
    requires Inv(s) && token in s.calls && s.calls[token].wire == SetCommand
    ensures Inv(ExecuteSet(s, token))
  {
    assert IsSound(s.calls[token], s.now);
    var s' := ExecuteSet(s, token);
    forall t | t in s'.calls ensures IsStored(s', t) && IsSound(s'.calls[t], s'.now) {
      assert t != token ==> IsStored(s, t) && IsSound(s.calls[t], s.now);
    }
    forall key | key in s'.keys ensures Owns(s', key) {
      assert key in s.keys ==> Owns(s, key);
    }
  }

  lemma ReleaseKeepsInv(s: State, token: Token)
    requires Inv(s) && token in s.calls && s.calls[token].wire == ReleaseCommand
    ensures Inv(ExecuteRelease(s, token))
  {
    assert IsSound(s.calls[token], s.now) && IsStored(s, token);
    var s' := ExecuteRelease(s, token);
    forall t | t in s'.calls ensures IsStored(s', t) && IsSound(s'.calls[t], s'.now) {
      assert t != token ==> IsStored(s, t) && IsSound(s.calls[t], s.now);
    }
    forall key | key in s'.keys ensures Owns(s', key) {
      assert Owns(s, key);
    }
  }

  /** Steps of a replica touch neither the store nor any deadline. */
  lemma UpdateKeepsInv(s: State, token: Token, c: Call)
    requires Inv(s) && IsSound(c, s.now)
    requires if token in s.calls then c.key == s.calls[token].key && c.deadline == s.calls[token].deadline
             else c.deadline.None?
    ensures Inv(s.(calls := s.calls[token := c]))
  {
    var s' := s.(calls := s.calls[token := c]);
    forall t | t in s'.calls ensures IsStored(s', t) && IsSound(s'.calls[t], s'.now) {
      assert t in s.calls ==> IsStored(s, t) && IsSound(s.calls[t], s.now);
    }
    forall key | key in s'.keys ensures Owns(s', key) {
      assert Owns(s, key);
    }
  }

  lemma PassKeepsInv(s: State, ms: nat)
    requires Inv(s)
    ensures Inv(s.(now := s.now + ms))
  {
    var s' := s.(now := s.now + ms);
    forall t | t in s'.calls ensures IsStored(s', t) && IsSound(s'.calls[t], s'.now) {
      assert IsStored(s, t) && IsSound(s.calls[t], s.now);
    }
    forall key | key in s'.keys ensures Owns(s', key) {
      assert Owns(s, key);
    }
  }

  lemma StepKeepsInv(s: State, e: Event)
    requires Inv(s) && Next(s, e).Some?
    ensures Inv(Next(s, e).value)
  {
    match e
    case Pass(ms) => PassKeepsInv(s, ms);
    case Begin(token, key, ttl) => UpdateKeepsInv(s, token, Call(key, ttl, Setting, SetCommand, None, None));
    case Execute(token) =>
      if s.calls[token].wire == SetCommand {
        SetKeepsInv(s, token);
      } else {
        ReleaseKeepsInv(s, token);
      }
    case _ =>
      assert IsSound(s.calls[e.token], s.now);
      UpdateKeepsInv(s, e.token, Next(s, e).value.calls[e.token]);
  }

  lemma {:induction false} RunKeepsInv(s: State, events: seq<Event>)
    requires Inv(s) && After(s, events).Some?
    ensures Inv(After(s, events).value)
    decreases events
  {
    if events != [] {
      StepKeepsInv(s, events[0]);
      RunKeepsInv(Next(s, events[0]).value, events[1..]);
    }
  }

  lemma ReachableIsInv(s: State)
    requires Reachable(s)
    ensures Inv(s)
  {
    var events :| After(INITIAL, events) == Some(s);
    RunKeepsInv(INITIAL, events);
  }

  // ---------- Safety over every run ----------

  /** The store returns a token exactly when the call with that token holds the lock. */
  lemma HolderIsStored(s: State, key: string, token: Token)
    requires Reachable(s)
    ensures Live(s, key) == Some(token) <==> Holds(s, token) && s.calls[token].key == key
  {
    ReachableIsInv(s);
    if key in s.keys {
      assert Owns(s, key);
    }
    if token in s.calls {
      assert IsStored(s, token);
    }
  }

  /** No two calls hold one lock. */
  lemma AtMostOneHolder(s: State, a: Token, b: Token)
    requires Reachable(s) && Holds(s, a) && Holds(s, b) && SameKey(s, a, b)
    ensures a == b
  {
    HolderIsStored(s, s.calls[a].key, a);
    HolderIsStored(s, s.calls[b].key, b);
  }

  /** A body runs only on a granted lock that its own call has not released. */
  lemma RunningWasGranted(s: State, token: Token)
    requires Reachable(s) && RunsBody(s, token)
    ensures s.calls[token].reply == Some(Granted) && s.calls[token].deadline.Some?
    ensures Overruns(s, token) <==> s.calls[token].deadline.value <= s.now
  {
    ReachableIsInv(s);
    assert IsSound(s.calls[token], s.now);
  }

  /** Of the bodies that run under one lock at the same time, all but one have outlived their entries. */
  lemma OverlapNeedsOverrun(s: State, a: Token, b: Token)
    requires Reachable(s) && a != b && SameKey(s, a, b) && RunsBody(s, a) && RunsBody(s, b)
    ensures Overruns(s, a) || Overruns(s, b)
  {
    if Holds(s, a) && Holds(s, b) {
      AtMostOneHolder(s, a, b);
    }
  }

  ghost predicate NeverOverruns(s: State, events: seq<Event>) {
    forall n | 0 <= n <= |events| :: After(s, events[..n]).Some? ==>
      forall t: Token :: !Overruns(After(s, events[..n]).value, t)
  }

  /** While every body ends before its entry expires, no two bodies under one lock overlap, whatever
    * releases fail, replicas crash and commands get lost or come late. */
  lemma BodiesExcludeEachOther(events: seq<Event>, n: nat, a: Token, b: Token)
    requires n <= |events| && After(INITIAL, events[..n]).Some? && NeverOverruns(INITIAL, events)
    requires var s := After(INITIAL, events[..n]).value; SameKey(s, a, b) && RunsBody(s, a) && RunsBody(s, b)
    ensures a == b
  {
    var s := After(INITIAL, events[..n]).value;
    assert Reachable(s);
    if a != b {
      OverlapNeedsOverrun(s, a, b);
    }
  }

  /** Only time and the holder's own release end a hold; in particular a late release of another
    * call removes nothing. */
  lemma HoldIsKept(s: State, e: Event, token: Token)
    requires Reachable(s) && Next(s, e).Some? && Holds(s, token)
    requires !e.Pass? && !(e == Execute(token) && s.calls[token].wire == ReleaseCommand)
    ensures Holds(Next(s, e).value, token)
    ensures Live(Next(s, e).value, s.calls[token].key) == Some(token)
  {
    ReachableIsInv(s);
    StepKeepsInv(s, e);
    assert IsSound(s.calls[token], s.now);
    DeadlineIsKept(s, e, token);
    assert IsStored(Next(s, e).value, token);
  }

  lemma DeadlineIsKept(s: State, e: Event, token: Token)
    requires Next(s, e).Some? && token in s.calls && !e.Pass?
    requires e == Execute(token) ==> s.calls[token].wire == Idle
    ensures var s' := Next(s, e).value;
            && s'.now == s.now && token in s'.calls
            && s'.calls[token].key == s.calls[token].key && s'.calls[token].deadline == s.calls[token].deadline
  {}

  /** A release that arrives removes exactly the entry of its own call: afterwards the key is free if
    * the call held it, and as it was if not. */
  lemma ReleaseFreesOwnEntryOnly(s: State, token: Token, key: string)
    requires Reachable(s) && token in s.calls && s.calls[token].wire == ReleaseCommand
    ensures var s' := Next(s, Execute(token)).value;
            Live(s', key) == if Holds(s, token) && s.calls[token].key == key then None else Live(s, key)
  {
    HolderIsStored(s, key, token);
    HolderIsStored(s, s.calls[token].key, token);
  }

  /** Nothing blocks a lock for longer than the holder's time to live. */
  lemma ExpiryFreesLock(s: State, key: string, ms: nat)
    requires Reachable(s) && forall t <- s.calls :: Holds(s, t) && s.calls[t].key == key ==> s.calls[t].ttl <= ms
    ensures Live(Next(s, Pass(ms)).value, key).None?
  {
    ReachableIsInv(s);
    if Live(s, key).Some? {
      HolderIsStored(s, key, Live(s, key).value);
      assert IsSound(s.calls[Live(s, key).value], s.now);
    }
  }

  /** A SET that arrives is granted exactly when its time to live is positive and no call holds the key. */
  lemma GrantedExactlyWhenFree(s: State, token: Token)
    requires Reachable(s) && token in s.calls && s.calls[token].wire == SetCommand
    ensures var s' := Next(s, Execute(token)).value; var c := s.calls[token];
            s'.calls[token].reply == Some(Granted) <==>
            c.ttl > 0 && forall t: Token :: Holds(s, t) ==> s.calls[t].key != c.key
  {
    var c := s.calls[token];
    if Live(s, c.key).Some? {
      HolderIsStored(s, c.key, Live(s, c.key).value);
    }
    forall t: Token | Holds(s, t) && Live(s, c.key).None? ensures s.calls[t].key != c.key {
      HolderIsStored(s, c.key, t);
    }
  }

  // ---------- Where exclusion ends ----------

  lemma {:induction false} AfterConcat(s: State, a: seq<Event>, b: seq<Event>)
    requires After(s, a).Some?
    ensures After(s, a + b) == After(After(s, a).value, b)
    decreases a
  {
    if a == [] {
      assert a + b == b;
    } else {
      assert (a + b)[1..] == a[1..] + b;
      AfterConcat(Next(s, a[0]).value, a[1..], b);
    }
  }

  function Acquire(token: Token, key: string, ttl: int): seq<Event> {
    [Begin(token, key, ttl), Execute(token)]
  }

  /** A free key is stored for a call that begins and whose SET arrives. */
  lemma AcquireWorks(s: State, token: Token, key: string, ttl: int)
    requires ttl > 0 && token !in s.calls && Live(s, key).None?
    ensures After(s, Acquire(token, key, ttl)) ==
            Some(State(s.now, s.keys[key := Entry(token, s.now + ttl)],
                       s.calls[token := Call(key, ttl, Setting, Idle, Some(Granted), Some(s.now + ttl))]))
  {
    var begun := Next(s, Begin(token, key, ttl)).value;
    assert Acquire(token, key, ttl)[1..] == [Execute(token)];
    assert [Execute(token)][1..] == [];
    assert After(begun, [Execute(token)]) == Next(begun, Execute(token));
    var call := Call(key, ttl, Setting, Idle, Some(Granted), Some(s.now + ttl));
    assert begun.calls[token := call] == s.calls[token := call];
  }

  /** The events of two replicas, the first of which hears its answer only as its entry expires. */
  function LateAnswer(key: string, ttl: int): seq<Event>
    requires ttl > 0
  {
    Acquire("a", key, ttl) + [Pass(ttl)] + Acquire("b", key, ttl) + [Hear("a"), Hear("b")]
  }

  /** Whatever the time to live, two bodies can start at the same instant: the time counts from the
    * store's clock, not from the start of the body. */
  lemma BodiesCanOverlap(key: string, ttl: int)
    requires ttl > 0
    ensures After(INITIAL, LateAnswer(key, ttl)).Some?
    ensures var s := After(INITIAL, LateAnswer(key, ttl)).value;
            && SameKey(s, "a", "b") && s.calls["a"].stage == s.calls["b"].stage == Running(s.now)
            && Overruns(s, "a") && !Overruns(s, "b")
  {
    AcquireWorks(INITIAL, "a", key, ttl);
    var s1 := After(INITIAL, Acquire("a", key, ttl)).value;
    var s2 := Next(s1, Pass(ttl)).value;
    assert After(s1, [Pass(ttl)]) == Some(s2);
    AcquireWorks(s2, "b", key, ttl);
    var s3 := After(s2, Acquire("b", key, ttl)).value;
    BothHear(s3, s3.calls["a"], s3.calls["b"]);
    AfterConcat(INITIAL, Acquire("a", key, ttl), [Pass(ttl)]);
    AfterConcat(INITIAL, Acquire("a", key, ttl) + [Pass(ttl)], Acquire("b", key, ttl));
    AfterConcat(INITIAL, Acquire("a", key, ttl) + [Pass(ttl)] + Acquire("b", key, ttl), [Hear("a"), Hear("b")]);
  }

  lemma BothHear(s: State, a: Call, b: Call)
    requires "a" in s.calls && "b" in s.calls && s.calls["a"] == a && s.calls["b"] == b
    requires a.stage == b.stage == Setting && a.reply == b.reply == Some(Granted)
    ensures After(s, [Hear("a"), Hear("b")]) ==
            Some(s.(calls := s.calls["a" := a.(stage := Running(s.now))]["b" := b.(stage := Running(s.now))]))
  {
    var s1 := Next(s, Hear("a")).value;
    assert [Hear("a"), Hear("b")][1..] == [Hear("b")];
    assert After(s1, [Hear("b")]) == Next(s1, Hear("b"));
  }

  /** Waits until the key is free, and lets another call take it and hear of it. */
  function TakeOver(s: State, key: string, token: Token, ttl: int): seq<Event> {
    var ms := if Live(s, key).Some? then s.keys[key].expiry - s.now else 0;
    [Pass(ms)] + (Acquire(token, key, ttl) + [Hear(token)])
  }

  /** An overrun is all that an overlap needs: wherever a body has outlived its entry, any new call with
    * any time to live can come to run its body beside it. */
  lemma OverrunAllowsOverlap(s: State, a: Token, b: Token, ttl: int)
    requires Overruns(s, a) && b !in s.calls && ttl > 0
    ensures var r := After(s, TakeOver(s, s.calls[a].key, b, ttl));
            r.Some? && SameKey(r.value, a, b) && RunsBody(r.value, a) && RunsBody(r.value, b)
  {
    var key, events := s.calls[a].key, TakeOver(s, s.calls[a].key, b, ttl);
    var s1 := Next(s, events[0]).value;
    AcquireWorks(s1, b, key, ttl);
    var s2 := After(s1, Acquire(b, key, ttl)).value;
    assert [Hear(b)][1..] == [];
    assert After(s2, [Hear(b)]) == Next(s2, Hear(b));
    AfterConcat(s1, Acquire(b, key, ttl), [Hear(b)]);
    assert events[1..] == Acquire(b, key, ttl) + [Hear(b)];
    assert After(s, events) == After(s1, events[1..]);
  }

  // ---------- The steps as a program ----------

  /** The replicas and the store, updated in place. */
  class Cluster {
    var now: int
    var keys: map<string, Entry>
    var calls: map<Token, Call>

    constructor ()
      ensures View() == INITIAL
    {
      now, keys, calls := 0, map[], map[];
    }

    ghost function View(): State
      reads this
    {
      State(now, keys, calls)
    }

    /** The first part of `withLock`: up to the await of the SET. */
    method WithLock(token: Token, key: string, ttl: int)
      requires token !in calls
      modifies this`calls
      ensures Next(old(View()), Begin(token, key, ttl)) == Some(View())
    {
      calls := calls[token := Call(key, ttl, Setting, SetCommand, None, None)];
    }

    /** SET with NX and PX, in the store. */
    method Set(token: Token) returns (reply: Reply)
      requires token in calls && calls[token].wire == SetCommand
      modifies this`keys, this`calls
      ensures Next(old(View()), Execute(token)) == Some(View()) && calls[token].reply == Some(reply)
    {
      var c := calls[token];
      if c.ttl <= 0 {
        reply := Rejected;
      } else if c.key in keys && now < keys[c.key].expiry {
        reply := Busy;
      } else {
        keys := keys[c.key := Entry(token, now + c.ttl)];
        reply := Granted;
        c := c.(deadline := Some(now + c.ttl));
      }
      calls := calls[token := c.(wire := Idle, reply := Some(reply))];
    }

    /** The part after the await: skip, throw or start the body. */
    method Resume(token: Token)
      requires token in calls && calls[token].stage == Setting && calls[token].reply.Some?
      modifies this`calls
      ensures Next(old(View()), Hear(token)) == Some(View())
    {
      var stage;
      match calls[token].reply.value {
        case Granted => stage := Running(now);
        case Busy => stage := Finished(Skipped);
        case Rejected => stage := Finished(Threw);
      }
      calls := calls[token := calls[token].(stage := stage)];
    }

    /** The body settles and the `finally` block sends the release. */
    method Finally(token: Token)
      requires token in calls && calls[token].stage.Running?
      modifies this`calls
      ensures Next(old(View()), BodyEnds(token)) == Some(View())
    {
      calls := calls[token := calls[token].(stage := Releasing, wire := ReleaseCommand)];
    }

    /** The release script, in the store. */
    method Release(token: Token)
      requires token in calls && calls[token].wire == ReleaseCommand
      modifies this`keys, this`calls
      ensures Next(old(View()), Execute(token)) == Some(View())
    {
      var c := calls[token].(wire := Idle);
      if c.key in keys && now < keys[c.key].expiry && keys[c.key].token == token {
        keys := keys - {c.key};
        c := c.(deadline := None);
      }
      calls := calls[token := c];
    }
  }
}
