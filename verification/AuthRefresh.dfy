/** Token refresh shared by concurrent requests. Code between two awaits runs in one piece, so a run is
  * a sequence of such pieces in any order the network and the timers allow. */
module AuthRefresh {
  import opened Results

  datatype Tokens = Tokens(access: string, refresh: string)

  /** What the promise of a refresh round has come to. */
  datatype Progress = Posting | Reading | Resolved(token: Option<string>) | Rejected
  {
    predicate IsSettled() {
      Resolved? || Rejected?
    }

    /** Resolved to a token that is not the empty string. */
    predicate GivesToken() {
      Resolved? && token.Some? && token.value != ""
    }
  }

  /** A round; it presents no refresh token when there was none. `timer` says that the timer which
    * empties the cache is pending. */
  datatype Round = Round(presented: Option<string>, progress: Progress, timer: bool)

  datatype Phase = Fetching | Waiting | Finished

  /** A request: the bearer tokens it sent, the statuses it got, and the round it joined. */
  datatype Exchange = Exchange(sent: seq<Option<string>>, statuses: seq<int>, joined: Option<nat>, phase: Phase)

  datatype State =
    State(tokens: Option<Tokens>, inFlight: Option<nat>, rounds: seq<Round>, requests: map<nat, Exchange>)

  datatype Event =
    | Start(id: nat)
    | Answer(id: nat, status: int)
    | Fail(id: nat)
    | Continue(id: nat)
    | RefreshAccepted(round: nat)
    | RefreshRefused(round: nat)
    | RefreshRead(round: nat, tokens: Tokens)
    | RefreshRejected(round: nat)
    | Timer(round: nat)
    | SignIn(tokens: Tokens)
    | SignOut

  function Truthy(token: Option<string>): Option<string> {
    if token == Some("") then None else token
  }

  /** The bearer token of a first fetch. */
  function Access(tokens: Option<Tokens>): Option<string> {
    if tokens.Some? then Truthy(Some(tokens.value.access)) else None
  }

  function Refresh(tokens: Option<Tokens>): Option<string> {
    if tokens.Some? then Truthy(Some(tokens.value.refresh)) else None
  }

  /** A new round runs up to its first await; without a refresh token it is over at once, and sets no
    * timer because it returns before the `try`. */
  function NewRound(tokens: Option<Tokens>): Round {
    match Refresh(tokens)
    case Some(token) => Round(Some(token), Posting, false)
    case None => Round(None, Resolved(None), false)
  }

  /** `onUnauthorized`, up to the await of the shared promise. */
  function Join(s: State): (State, nat) {
    match s.inFlight
    case Some(round) => (s, round)
    case None => (s.(rounds := s.rounds + [NewRound(s.tokens)], inFlight := Some(|s.rounds|)), |s.rounds|)
  }

  function SetRequest(s: State, id: nat, request: Exchange): State {
    s.(requests := s.requests[id := request])
  }

  /** A first answer of 401 joins a round; every other answer is the request's last. */
  function Answered(s: State, id: nat, q: Exchange, status: int): State {
    var q := q.(statuses := q.statuses + [status]);
    if q.joined.None? && status == 401 then
      var (s', round) := Join(s);
      SetRequest(s', id, q.(joined := Some(round), phase := Waiting))
    else SetRequest(s, id, q.(phase := Finished))
  }

  function Continued(s: State, id: nat, q: Exchange, progress: Progress): State {
    if progress.GivesToken() then SetRequest(s, id, q.(sent := q.sent + [progress.token], phase := Fetching))
    else SetRequest(s, id, q.(phase := Finished))
  }

  /** The round settles and its `finally` block sets the timer. */
  function Settle(s: State, round: nat, progress: Progress, tokens: Option<Tokens>): State
    requires round < |s.rounds|
  {
    s.(tokens := tokens, rounds := s.rounds[round := s.rounds[round].(progress := progress, timer := true)])
  }

  function NextOfRequest(s: State, e: Event): Option<State>
    requires e.Answer? || e.Fail? || e.Continue?
  {
    if e.id !in s.requests then None
    else
      var q := s.requests[e.id];
      match e
      case Answer(id, status) => if q.phase == Fetching then Some(Answered(s, id, q, status)) else None
      case Fail(id) => if q.phase == Fetching then Some(SetRequest(s, id, q.(phase := Finished))) else None
      case Continue(id) =>
        if q.phase == Waiting && q.joined.Some? && q.joined.value < |s.rounds|
           && s.rounds[q.joined.value].progress.IsSettled()
        then Some(Continued(s, id, q, s.rounds[q.joined.value].progress))
        else None
  }

  function NextOfRound(s: State, e: Event): Option<State>
    requires e.RefreshAccepted? || e.RefreshRefused? || e.RefreshRead? || e.RefreshRejected? || e.Timer?
  {
    if e.round >= |s.rounds| then None
    else
      var r := s.rounds[e.round];
      match e
      case RefreshAccepted(round) =>
        if r.progress == Posting then Some(s.(rounds := s.rounds[round := r.(progress := Reading)])) else None
      case RefreshRefused(round) =>
        if r.progress == Posting then Some(Settle(s, round, Resolved(None), None)) else None
      case RefreshRead(round, tokens) =>
        if r.progress == Reading then Some(Settle(s, round, Resolved(Some(tokens.access)), Some(tokens))) else None
      case RefreshRejected(round) =>
        if r.progress.IsSettled() then None else Some(Settle(s, round, Rejected, s.tokens))
      case Timer(round) =>
        if r.timer then Some(s.(rounds := s.rounds[round := r.(timer := false)], inFlight := None)) else None
  }

  function Next(s: State, e: Event): Option<State> {
    match e
    case Start(id) =>
      if id in s.requests then None else Some(SetRequest(s, id, Exchange([Access(s.tokens)], [], None, Fetching)))
    case SignIn(tokens) => Some(s.(tokens := Some(tokens)))
    case SignOut => Some(s.(tokens := None))
    case Answer(_, _) => NextOfRequest(s, e)
    case Fail(_) => NextOfRequest(s, e)
    case Continue(_) => NextOfRequest(s, e)
    case _ => NextOfRound(s, e)
  }

  // ---------- Runs ----------

  function Initial(tokens: Option<Tokens>): State {
    State(tokens, None, [], map[])
  }

  function After(s: State, events: seq<Event>): Option<State>
    decreases events
  {
    if events == [] then Some(s)
    else
      var r := Next(s, events[0]);
      if r.None? then None else After(r.value, events[1..])
  }

  ghost predicate Reachable(s: State) {
    exists tokens, events :: After(Initial(tokens), events) == Some(s)
  }

  // ---------- The invariant on rounds ----------

  /** Before it settles, and then until its timer fires, a round with a refresh token is the cached one;
    * a round without one is cached for ever. */
  predicate RoundIsSound(s: State, i: nat)
    requires i < |s.rounds|
  {
    var r := s.rounds[i];
    && (r.timer ==> r.progress.IsSettled() && r.presented.Some?)
    && (r.presented.None? ==> r.progress == Resolved(None))
    && (s.inFlight == Some(i) <==> !r.progress.IsSettled() || r.timer || r.presented.None?)
    && r.presented != Some("")
  }

  predicate CacheIsLast(s: State) {
    s.inFlight.Some? ==> s.inFlight.value == |s.rounds| - 1
  }

  ghost predicate RoundsAreSound(s: State) {
    CacheIsLast(s) && forall i | 0 <= i < |s.rounds| :: RoundIsSound(s, i)
  }

  lemma RoundStepIsSound(s: State, e: Event)
    requires RoundsAreSound(s)
    requires e.RefreshAccepted? || e.RefreshRefused? || e.RefreshRead? || e.RefreshRejected? || e.Timer?
    requires NextOfRound(s, e).Some?
    ensures RoundsAreSound(NextOfRound(s, e).value)
  {
    var s' := NextOfRound(s, e).value;
    assert RoundIsSound(s, e.round);
    forall i | 0 <= i < |s'.rounds| ensures RoundIsSound(s', i) {
      assert RoundIsSound(s, i);
    }
  }

  lemma JoinIsSound(s: State)
    requires RoundsAreSound(s)
    ensures var (s', round) := Join(s); RoundsAreSound(s') && s'.inFlight == Some(round) && round < |s'.rounds|
  {
    var (s', round) := Join(s);
    forall i | 0 <= i < |s'.rounds| ensures RoundIsSound(s', i) {
      assert i < |s.rounds| ==> RoundIsSound(s, i);
    }
  }

  /** Rounds do not look at requests, nor at the token store once they have begun. */
  lemma SameRounds(s: State, s': State)
    requires RoundsAreSound(s) && s'.rounds == s.rounds && s'.inFlight == s.inFlight
    ensures RoundsAreSound(s')
  {
    forall i | 0 <= i < |s'.rounds| ensures RoundIsSound(s', i) {
      assert RoundIsSound(s, i);
    }
  }

  lemma StepKeepsRounds(s: State, e: Event)
    requires RoundsAreSound(s) && Next(s, e).Some?
    ensures RoundsAreSound(Next(s, e).value)
  {
    match e {
      case Answer(id, status) =>
        JoinIsSound(s);
        SameRounds(if s.requests[id].joined.None? && status == 401 then Join(s).0 else s, Next(s, e).value);
      case Start(_) => SameRounds(s, Next(s, e).value);
      case Fail(_) => SameRounds(s, Next(s, e).value);
      case Continue(_) => SameRounds(s, Next(s, e).value);
      case SignIn(_) => SameRounds(s, Next(s, e).value);
      case SignOut => SameRounds(s, Next(s, e).value);
      case _ => RoundStepIsSound(s, e);
    }
  }

  // ---------- The invariant on requests ----------

  predicate RequestIsSound(rounds: seq<Round>, q: Exchange) {
    && 1 <= |q.sent| <= 2 && |q.statuses| <= |q.sent|
    && (q.joined.Some? ==> q.joined.value < |rounds|)
    && (q.joined.Some? <==> |q.statuses| > 0 && q.statuses[0] == 401)
    && (q.phase == Waiting ==> q.joined.Some? && |q.sent| == 1)
    && (q.phase == Fetching ==> |q.statuses| < |q.sent|)
    && (q.phase == Fetching ==> |q.sent| == if q.joined.Some? then 2 else 1)
    && (|q.sent| == 2 ==> q.joined.Some? && SentToken(rounds[q.joined.value].progress, q.sent[1]))
    && (q.phase == Finished && q.joined.Some? && |q.sent| == 1 ==> GaveNone(rounds[q.joined.value].progress))
  }

  predicate SentToken(progress: Progress, token: Option<string>) {
    progress.GivesToken() && token == progress.token
  }

  predicate GaveNone(progress: Progress) {
    progress.IsSettled() && !progress.GivesToken()
  }

  ghost predicate RequestsAreSound(s: State) {
    forall id <- s.requests :: RequestIsSound(s.rounds, s.requests[id])
  }

  /** Rounds are only added, and a settled round keeps its outcome. */
  ghost predicate Extends(before: seq<Round>, after: seq<Round>) {
    |before| <= |after| && forall i | 0 <= i < |before| :: KeepsOutcome(before[i], after[i])
  }

  predicate KeepsOutcome(before: Round, after: Round) {
    && (before.progress.IsSettled() ==> after.progress == before.progress)
    && after.presented == before.presented
  }

  lemma StepExtends(s: State, e: Event)
    requires Next(s, e).Some? && RoundsAreSound(s)
    ensures Extends(s.rounds, Next(s, e).value.rounds)
  {
    if e.Timer? {
      assert RoundIsSound(s, e.round);
    }
  }

  lemma RequestStaysSound(before: seq<Round>, after: seq<Round>, q: Exchange)
    requires Extends(before, after) && RequestIsSound(before, q)
    ensures RequestIsSound(after, q)
  {}

  lemma StepKeepsOtherRequest(s: State, e: Event, id: nat)
    requires RoundsAreSound(s) && RequestsAreSound(s) && Next(s, e).Some? && id in s.requests
    requires (e.Answer? || e.Fail? || e.Continue?) ==> e.id != id
    ensures id in Next(s, e).value.requests && RequestIsSound(Next(s, e).value.rounds, Next(s, e).value.requests[id])
  {
    StepExtends(s, e);
    RequestStaysSound(s.rounds, Next(s, e).value.rounds, s.requests[id]);
  }

  lemma AnswerKeepsOwnRequest(s: State, id: nat, status: int)
    requires RoundsAreSound(s) && RequestsAreSound(s) && Next(s, Answer(id, status)).Some?
    ensures RequestIsSound(Next(s, Answer(id, status)).value.rounds, Next(s, Answer(id, status)).value.requests[id])
  {}

  lemma StepKeepsOwnRequest(s: State, e: Event)
    requires RoundsAreSound(s) && RequestsAreSound(s) && Next(s, e).Some? && (e.Start? || e.Fail? || e.Continue?)
    ensures RequestIsSound(Next(s, e).value.rounds, Next(s, e).value.requests[e.id])
  {}

  lemma StepKeepsRequests(s: State, e: Event)
    requires RoundsAreSound(s) && RequestsAreSound(s) && Next(s, e).Some?
    ensures RequestsAreSound(Next(s, e).value)
  {
    var s' := Next(s, e).value;
    forall id | id in s'.requests ensures RequestIsSound(s'.rounds, s'.requests[id]) {
      if e.Answer? && e.id == id {
        AnswerKeepsOwnRequest(s, id, e.status);
      } else if (e.Start? || e.Fail? || e.Continue?) && e.id == id {
        StepKeepsOwnRequest(s, e);
      } else {
        StepKeepsOtherRequest(s, e, id);
      }
    }
  }

  ghost predicate Inv(s: State) {
    RoundsAreSound(s) && RequestsAreSound(s)
  }

  lemma {:induction false} RunKeepsInv(s: State, events: seq<Event>)
    requires Inv(s) && After(s, events).Some?
    ensures Inv(After(s, events).value)
    decreases events
  {
    if events != [] {
      StepKeepsRounds(s, events[0]);
      StepKeepsRequests(s, events[0]);
      RunKeepsInv(Next(s, events[0]).value, events[1..]);
    }
  }

  lemma ReachableIsInv(s: State)
    requires Reachable(s)
    ensures Inv(s)
  {
    var tokens, events :| After(Initial(tokens), events) == Some(s);
    RunKeepsInv(Initial(tokens), events);
  }

  // ---------- Single flight ----------

  /** At most one refresh call is outstanding, and it is the cached one. */
  lemma OneRefreshAtATime(s: State, i: nat, j: nat)
    requires Reachable(s) && i < |s.rounds| && j < |s.rounds|
    requires !s.rounds[i].progress.IsSettled() && !s.rounds[j].progress.IsSettled()
    ensures i == j && s.inFlight == Some(i)
  {
    ReachableIsInv(s);
    assert RoundIsSound(s, i) && RoundIsSound(s, j);
  }

  /** A timer that fires clears the round that set it, which is the last round; no later one has begun. */
  lemma TimerClearsOwnRound(s: State, round: nat)
    requires Reachable(s) && Next(s, Timer(round)).Some?
    ensures s.inFlight == Some(round) && round == |s.rounds| - 1 && s.rounds[round].progress.IsSettled()
  {
    ReachableIsInv(s);
    assert RoundIsSound(s, round);
  }

  /** Every request makes one fetch or two. It makes the second after a first answer of 401, with the
    * token that the round it joined resolved to. */
  lemma SecondFetchUsesSharedToken(s: State, id: nat)
    requires Reachable(s) && id in s.requests
    ensures var q := s.requests[id];
            && 1 <= |q.sent| <= 2
            && (|q.sent| == 2 ==>
                  && q.statuses != [] && q.statuses[0] == 401 && q.joined.Some? && q.joined.value < |s.rounds|
                  && s.rounds[q.joined.value].progress == Resolved(q.sent[1])
                  && q.sent[1].Some? && q.sent[1] != Some(""))
  {
    ReachableIsInv(s);
    assert RequestIsSound(s.rounds, s.requests[id]);
  }

  /** A finished request has retried exactly when its first answer was 401 and the round gave a token. */
  lemma RetriesExactlyWithToken(s: State, id: nat)
    requires Reachable(s) && id in s.requests && s.requests[id].phase == Finished
    ensures var q := s.requests[id];
            |q.sent| == 2 <==> q.statuses != [] && q.statuses[0] == 401 && q.joined.Some? &&
                               q.joined.value < |s.rounds| && s.rounds[q.joined.value].progress.GivesToken()
  {
    ReachableIsInv(s);
    assert RequestIsSound(s.rounds, s.requests[id]);
  }

  /** Requests that share a round and retry do so with the same token. */
  lemma SharersRetryAlike(s: State, a: nat, b: nat)
    requires Reachable(s) && a in s.requests && b in s.requests && s.requests[a].joined == s.requests[b].joined
    requires |s.requests[a].sent| == |s.requests[b].sent| == 2
    ensures s.requests[a].sent[1] == s.requests[b].sent[1]
  {
    SecondFetchUsesSharedToken(s, a);
    SecondFetchUsesSharedToken(s, b);
  }

  // ---------- The round that is never cleared ----------

  /** The cache holds a round that began without a refresh token. */
  predicate IsStuck(s: State) {
    s.inFlight.Some? && s.inFlight.value < |s.rounds| && s.rounds[s.inFlight.value].presented.None?
  }

  /** The client gets stuck exactly by a first 401 that finds no round in flight and no refresh token,
    * and stays so. */
  lemma BecomesStuckExactly(s: State, e: Event)
    requires Reachable(s) && Next(s, e).Some?
    ensures IsStuck(Next(s, e).value) <==>
            IsStuck(s) || (e.Answer? && e.status == 401 && s.requests[e.id].joined.None? &&
                           s.inFlight.None? && Refresh(s.tokens).None?)
  {
    ReachableIsInv(s);
    if e.Timer? {
      assert RoundIsSound(s, e.round);
    }
    if IsStuck(s) {
      assert RoundIsSound(s, s.inFlight.value);
    }
  }

  lemma StuckStep(s: State, e: Event)
    requires Inv(s) && IsStuck(s) && Next(s, e).Some?
    ensures IsStuck(Next(s, e).value) && Next(s, e).value.inFlight == s.inFlight
    ensures Next(s, e).value.rounds == s.rounds
  {
    assert RoundIsSound(s, s.inFlight.value);
    if e.RefreshAccepted? || e.RefreshRefused? || e.RefreshRead? || e.RefreshRejected? || e.Timer? {
      if e.round < |s.rounds| {
        StuckRoundIsOver(s, e.round);
      }
    }
  }

  lemma StuckRoundIsOver(s: State, i: nat)
    requires Inv(s) && IsStuck(s) && i < |s.rounds|
    ensures s.rounds[i].progress.IsSettled() && !s.rounds[i].timer
  {
    assert RoundIsSound(s, i);
    assert RoundIsSound(s, s.inFlight.value);
  }

  /** A sign-in that is refused, without tokens in the store; a sign-in that succeeds; another request. */
  function RefusedSignIn(): seq<Event> {
    [Start(0), Answer(0, 401)]
  }

  function SignedInLater(tokens: Tokens): seq<Event> {
    [SignIn(tokens), Start(1), Answer(1, 401), Continue(1)]
  }

  /** A client without tokens is stuck by its first 401. */
  lemma RefusedSignInSticks()
    ensures var s := After(Initial(None), RefusedSignIn());
            s == Some(State(None, Some(0), [Round(None, Resolved(None), false)],
                            map[0 := Exchange([None], [401], Some(0), Waiting)])) &&
            IsStuck(s.value)
  {
    var s1 := Next(Initial(None), Start(0)).value;
    assert RefusedSignIn()[1..] == [Answer(0, 401)] && [Answer(0, 401)][1..] == [];
    assert After(s1, [Answer(0, 401)]) == Next(s1, Answer(0, 401));
    var s2 := Next(s1, Answer(0, 401)).value;
    assert s1.requests == map[0 := Exchange([None], [], None, Fetching)];
    assert s2.requests[0].statuses == [401] && s2.rounds == [Round(None, Resolved(None), false)];
    assert s2.requests == map[0 := Exchange([None], [401], Some(0), Waiting)];
  }

  /** From there a request after a successful sign-in fails on its first 401, although the store holds
    * a refresh token that was never presented. */
  lemma SignedInRequestFails(tokens: Tokens)
    requires tokens.refresh != ""
    ensures var r := After(Initial(None), RefusedSignIn() + SignedInLater(tokens));
            && r.Some? && IsStuck(r.value) && Refresh(r.value.tokens) == Some(tokens.refresh) && |r.value.rounds| == 1
            && 1 in r.value.requests && r.value.requests[1].phase == Finished
            && |r.value.requests[1].sent| == 1 && r.value.requests[1].statuses == [401]
  {
    RefusedSignInSticks();
    AfterConcat(Initial(None), RefusedSignIn(), SignedInLater(tokens));
    var e := SignedInLater(tokens);
    var s0 := After(Initial(None), RefusedSignIn()).value;
    var s1 := Next(s0, e[0]).value;
    var s2 := Next(s1, e[1]).value;
    var s3 := Next(s2, e[2]).value;
    var s4 := Next(s3, e[3]).value;
    assert e[1..][1..] == e[2..] && e[2..][1..] == e[3..] && e[3..] == [e[3]] && [e[3]][1..] == [];
    assert After(s3, e[3..]) == Some(s4);
    assert After(s2, e[2..]) == Some(s4);
    assert After(s1, e[1..]) == Some(s4);
  }

  lemma {:induction false} AfterConcat(s: State, a: seq<Event>, b: seq<Event>)
    requires After(s, a).Some?
    ensures After(s, a + b) == After(After(s, a).value, b)
    decreases a
  {
    if a == [] {
      assert a + b == b;
    } else {
      assert (a + b)[1..] == a[1..] + b;
      AfterConcat(Next(s, a[0]).value, a[1..], b);
    }
  }

  /** Once stuck, no event begins another round, not even a new sign-in. */
  lemma {:induction false} StuckForever(s: State, events: seq<Event>)
    requires Inv(s) && IsStuck(s) && After(s, events).Some?
    ensures IsStuck(After(s, events).value) && After(s, events).value.inFlight == s.inFlight
    ensures After(s, events).value.rounds == s.rounds
    decreases events
  {
    if events != [] {
      StuckStep(s, events[0]);
      StepKeepsRounds(s, events[0]);
      StepKeepsRequests(s, events[0]);
      StuckForever(Next(s, events[0]).value, events[1..]);
    }
  }

  /** The way out of a round that is not stuck: its call rejects, if it is still out, and its timer fires. */
  function WayOut(s: State): seq<Event>
    requires s.inFlight.Some? && s.inFlight.value < |s.rounds|
  {
    var i := s.inFlight.value;
    (if s.rounds[i].progress.IsSettled() then [] else [RefreshRejected(i)]) + [Timer(i)]
  }

  lemma WayOutWorks(s: State)
    requires Inv(s) && s.inFlight.Some? && !IsStuck(s)
    ensures s.inFlight.value < |s.rounds|
    ensures After(s, WayOut(s)).Some? && After(s, WayOut(s)).value.inFlight.None?
  {
    var i := s.inFlight.value;
    assert RoundIsSound(s, i);
    assert [Timer(i)][1..] == [];
    if s.rounds[i].progress.IsSettled() {
      assert WayOut(s) == [Timer(i)];
    } else {
      assert WayOut(s) == [RefreshRejected(i), Timer(i)];
      assert WayOut(s)[1..] == [Timer(i)];
      var s1 := Next(s, RefreshRejected(i)).value;
      assert After(s1, [Timer(i)]) == Next(s1, Timer(i));
    }
  }

  ghost predicate CanClear(s: State) {
    exists events :: After(s, events).Some? && After(s, events).value.inFlight.None?
  }

  /** The cache can be emptied again exactly when the round in it had a refresh token to present. */
  lemma ClearsExactlyWhenNotStuck(s: State)
    requires Reachable(s)
    ensures CanClear(s) <==> !IsStuck(s)
  {
    ReachableIsInv(s);
    if IsStuck(s) {
      forall events | After(s, events).Some? ensures After(s, events).value.inFlight.Some? {
        StuckForever(s, events);
      }
    } else if s.inFlight.Some? {
      WayOutWorks(s);
    } else {
      assert After(s, []) == Some(s);
    }
  }

  /** After that, a request that gets a first 401 never retries, whatever tokens the store holds. */
  lemma StuckRequestsFail(s: State, events: seq<Event>, id: nat)
    requires Reachable(s) && IsStuck(s) && After(s, events).Some?
    requires id in After(s, events).value.requests && After(s, events).value.requests[id].joined == s.inFlight
    ensures |After(s, events).value.requests[id].sent| == 1
  {
    ReachableIsInv(s);
    StuckForever(s, events);
    RunKeepsInv(s, events);
    assert RoundIsSound(s, s.inFlight.value);
    assert RequestIsSound(s.rounds, After(s, events).value.requests[id]);
  }

  // ---------- Each refresh token is presented once ----------

  function NewTokens(e: Event): Option<Tokens> {
    match e
    case RefreshRead(_, tokens) => Some(tokens)
    case SignIn(tokens) => Some(tokens)
    case _ => None
  }

  /** Every pair that a refresh or a sign-in brings has a refresh token not seen before. */
  predicate IssuesFresh(events: seq<Event>, seen: set<string>) {
    if events == [] then true
    else
      match NewTokens(events[0])
      case None => IssuesFresh(events[1..], seen)
      case Some(tokens) => tokens.refresh !in seen && IssuesFresh(events[1..], seen + {tokens.refresh})
  }

  predicate WasSeen(token: Option<string>, seen: set<string>) {
    token.Some? ==> token.value in seen
  }

  /** What a round that resolved has presented is not in the store. */
  predicate IsSpent(s: State, i: nat)
    requires i < |s.rounds|
  {
    s.rounds[i].progress.Resolved? && s.rounds[i].presented.Some? ==> Refresh(s.tokens) != s.rounds[i].presented
  }

  /** Of two rounds with the same token the earlier was rejected. */
  predicate EarlierRejected(s: State, i: nat, j: nat)
    requires i < j < |s.rounds|
  {
    s.rounds[i].presented.Some? && s.rounds[i].presented == s.rounds[j].presented ==> s.rounds[i].progress.Rejected?
  }

  ghost predicate TokensAreTracked(s: State, seen: set<string>) {
    && WasSeen(Refresh(s.tokens), seen)
    && (forall i | 0 <= i < |s.rounds| :: WasSeen(s.rounds[i].presented, seen))
    && (forall i | 0 <= i < |s.rounds| :: IsSpent(s, i))
    && (forall i, j | 0 <= i < j < |s.rounds| :: EarlierRejected(s, i, j))
  }

  function SeenAfter(seen: set<string>, e: Event): set<string> {
    match NewTokens(e)
    case None => seen
    case Some(tokens) => seen + {tokens.refresh}
  }

  predicate IsFresh(e: Event, seen: set<string>) {
    NewTokens(e).Some? ==> NewTokens(e).value.refresh !in seen
  }

  lemma JoinKeepsTokens(s: State, seen: set<string>)
    requires Inv(s) && TokensAreTracked(s, seen)
    ensures TokensAreTracked(Join(s).0, seen)
  {
    var s' := Join(s).0;
    forall i | 0 <= i < |s'.rounds| ensures IsSpent(s', i) && WasSeen(s'.rounds[i].presented, seen) {
      assert i < |s.rounds| ==> IsSpent(s, i) && WasSeen(s.rounds[i].presented, seen);
    }
    forall i, j | 0 <= i < j < |s'.rounds| ensures EarlierRejected(s', i, j) {
      assert RoundIsSound(s, i) && IsSpent(s, i);
      assert j < |s.rounds| ==> EarlierRejected(s, i, j);
    }
  }

  /** Changes to the store: nothing, a fresh pair, or no tokens at all. */
  lemma StoreKeepsTokens(s: State, seen: set<string>, tokens: Option<Tokens>)
    requires TokensAreTracked(s, seen) && (tokens.Some? ==> tokens.value.refresh !in seen)
    ensures TokensAreTracked(s.(tokens := tokens), if tokens.Some? then seen + {tokens.value.refresh} else seen)
  {
    var s' := s.(tokens := tokens);
    forall i | 0 <= i < |s'.rounds| ensures IsSpent(s', i) && WasSeen(s'.rounds[i].presented, seen) {
      assert IsSpent(s, i) && WasSeen(s.rounds[i].presented, seen);
    }
    forall i, j | 0 <= i < j < |s'.rounds| ensures EarlierRejected(s', i, j) {
      assert EarlierRejected(s, i, j);
    }
  }

  /** A round moves on; if it resolves, the store must not hold its token any more. */
  lemma RoundKeepsTokens(s: State, seen: set<string>, k: nat, r: Round)
    requires TokensAreTracked(s, seen) && k < |s.rounds| && r.presented == s.rounds[k].presented
    requires s.rounds[k].progress.Rejected? ==> r.progress.Rejected?
    requires r.progress.Resolved? && r.presented.Some? ==> Refresh(s.tokens) != r.presented
    ensures TokensAreTracked(s.(rounds := s.rounds[k := r]), seen)
  {
    var s' := s.(rounds := s.rounds[k := r]);
    forall i | 0 <= i < |s'.rounds| ensures IsSpent(s', i) && WasSeen(s'.rounds[i].presented, seen) {
      assert IsSpent(s, i) && WasSeen(s.rounds[i].presented, seen);
    }
    forall i, j | 0 <= i < j < |s'.rounds| ensures EarlierRejected(s', i, j) {
      assert EarlierRejected(s, i, j);
    }
  }

  /** Requests and the cache play no part. */
  lemma SameTokens(s: State, s': State, seen: set<string>)
    requires TokensAreTracked(s, seen) && s'.tokens == s.tokens && s'.rounds == s.rounds
    ensures TokensAreTracked(s', seen)
  {
    forall i | 0 <= i < |s'.rounds| ensures IsSpent(s', i) {
      assert IsSpent(s, i);
    }
    forall i, j | 0 <= i < j < |s'.rounds| ensures EarlierRejected(s', i, j) {
      assert EarlierRejected(s, i, j);
    }
  }

  lemma SettleKeepsTokens(s: State, seen: set<string>, k: nat, progress: Progress, tokens: Option<Tokens>)
    requires TokensAreTracked(s, seen) && k < |s.rounds| && !s.rounds[k].progress.IsSettled()
    requires tokens.Some? ==> tokens.value.refresh !in seen
    ensures TokensAreTracked(Settle(s, k, progress, tokens),
                             if tokens.Some? then seen + {tokens.value.refresh} else seen)
  {
    StoreKeepsTokens(s, seen, tokens);
    assert WasSeen(s.rounds[k].presented, seen);
    RoundKeepsTokens(s.(tokens := tokens), if tokens.Some? then seen + {tokens.value.refresh} else seen, k,
                     s.rounds[k].(progress := progress, timer := true));
  }

  lemma RoundStepKeepsTokens(s: State, seen: set<string>, e: Event)
    requires Inv(s) && TokensAreTracked(s, seen) && IsFresh(e, seen)
    requires e.RefreshAccepted? || e.RefreshRefused? || e.RefreshRead? || e.RefreshRejected? || e.Timer?
    requires NextOfRound(s, e).Some?
    ensures TokensAreTracked(NextOfRound(s, e).value, SeenAfter(seen, e))
  {
    var r := s.rounds[e.round];
    match e
    case RefreshAccepted(round) => RoundKeepsTokens(s, seen, round, r.(progress := Reading));
    case RefreshRefused(round) => SettleKeepsTokens(s, seen, round, Resolved(None), None);
    case RefreshRead(round, tokens) => SettleKeepsTokens(s, seen, round, Resolved(Some(tokens.access)), Some(tokens));
    case RefreshRejected(round) => RoundKeepsTokens(s, seen, round, r.(progress := Rejected, timer := true));
    case Timer(round) =>
      assert IsSpent(s, round);
      RoundKeepsTokens(s, seen, round, r.(timer := false));
      SameTokens(s.(rounds := s.rounds[round := r.(timer := false)]), NextOfRound(s, e).value, seen);
  }

  lemma StepKeepsTokens(s: State, seen: set<string>, e: Event)
    requires Inv(s) && TokensAreTracked(s, seen) && IsFresh(e, seen) && Next(s, e).Some?
    ensures TokensAreTracked(Next(s, e).value, SeenAfter(seen, e))
  {
    match e
    case Answer(id, status) =>
      JoinKeepsTokens(s, seen);
      SameTokens(if s.requests[id].joined.None? && status == 401 then Join(s).0 else s, Next(s, e).value, seen);
    case Start(_) => SameTokens(s, Next(s, e).value, seen);
    case Fail(_) => SameTokens(s, Next(s, e).value, seen);
    case Continue(_) => SameTokens(s, Next(s, e).value, seen);
    case SignIn(tokens) => StoreKeepsTokens(s, seen, Some(tokens));
    case SignOut => StoreKeepsTokens(s, seen, None);
    case _ => RoundStepKeepsTokens(s, seen, e);
  }

  lemma {:induction false} RunKeepsTokens(s: State, events: seq<Event>, seen: set<string>)
    requires Inv(s) && TokensAreTracked(s, seen) && IssuesFresh(events, seen) && After(s, events).Some?
    ensures exists all: set<string> :: TokensAreTracked(After(s, events).value, all)
    decreases events
  {
    if events != [] {
      StepKeepsTokens(s, seen, events[0]);
      StepKeepsRounds(s, events[0]);
      StepKeepsRequests(s, events[0]);
      RunKeepsTokens(Next(s, events[0]).value, events[1..], SeenAfter(seen, events[0]));
    }
  }

  function SeenAtFirst(tokens: Option<Tokens>): set<string> {
    if tokens.Some? then {tokens.value.refresh} else {}
  }

  /** When every pair that is issued is fresh, a refresh token is presented again only after a round
    * that presented it was rejected; so without rejections no token is presented twice. */
  lemma PresentedTwiceOnlyAfterRejection(tokens: Option<Tokens>, events: seq<Event>, i: nat, j: nat)
    requires IssuesFresh(events, SeenAtFirst(tokens)) && After(Initial(tokens), events).Some?
    requires i < j < |After(Initial(tokens), events).value.rounds|
    ensures var rounds := After(Initial(tokens), events).value.rounds;
            rounds[i].presented.Some? && rounds[i].presented == rounds[j].presented ==> rounds[i].progress.Rejected?
  {
    RunKeepsTokens(Initial(tokens), events, SeenAtFirst(tokens));
    assert EarlierRejected(After(Initial(tokens), events).value, i, j);
  }

  function LostAnswer(): seq<Event> {
    [Start(0), Answer(0, 401), RefreshRejected(0), Timer(0), Start(1), Answer(1, 401)]
  }

  /** A rejection does lead to a second presentation: the answer that carried the new pair may be lost
    * after the server has replaced the old one. */
  lemma RejectedTokenIsPresentedAgain(tokens: Tokens)
    requires tokens.refresh != ""
    ensures var s := After(Initial(Some(tokens)), LostAnswer());
            s.Some? && |s.value.rounds| == 2 &&
            s.value.rounds[0].presented == s.value.rounds[1].presented == Some(tokens.refresh)
  {
    var e := LostAnswer();
    var s1 := Next(Initial(Some(tokens)), e[0]).value;
    var s2 := Next(s1, e[1]).value;
    var s3 := Next(s2, e[2]).value;
    var s4 := Next(s3, e[3]).value;
    var s5 := Next(s4, e[4]).value;
    var s6 := Next(s5, e[5]).value;
    assert e[1..][1..] == e[2..] && e[2..][1..] == e[3..] && e[3..][1..] == e[4..] && e[4..][1..] == e[5..];
    assert e[5..] == [e[5]] && [e[5]][1..] == [];
    assert After(s5, e[5..]) == Some(s6);
    assert After(s4, e[4..]) == Some(s6);
    assert After(s3, e[3..]) == Some(s6);
    assert After(s2, e[2..]) == Some(s6);
    assert After(s1, e[1..]) == Some(s6);
  }

  // ---------- The steps as a program ----------

  /** The module variable, the token store and the requests, updated in place. */
  class Client {
    var tokens: Option<Tokens>
    var refreshInFlight: Option<nat>
    var rounds: seq<Round>
    var requests: map<nat, Exchange>

    constructor (stored: Option<Tokens>)
      ensures View() == Initial(stored)
    {
      tokens, refreshInFlight, rounds, requests := stored, None, [], map[];
    }

    ghost function View(): State
      reads this
    {
      State(tokens, refreshInFlight, rounds, requests)
    }

    /** `request`, up to the await of the first fetch. */
    method Request(id: nat)
      requires id !in requests
      modifies this`requests
      ensures Next(old(View()), Start(id)) == Some(View())
    {
      var token := None;
      if tokens.Some? && tokens.value.access != "" {
        token := Some(tokens.value.access);
      }
      requests := requests[id := Exchange([token], [], None, Fetching)];
    }

    /** Joins the round in flight or begins one. */
    method OnUnauthorized() returns (round: nat)
      modifies this`refreshInFlight, this`rounds
      ensures (View(), round) == Join(old(View()))
    {
      if refreshInFlight.None? {
        var r;
        if tokens.None? || tokens.value.refresh == "" {
          r := Round(None, Resolved(None), false);
        } else {
          r := Round(Some(tokens.value.refresh), Posting, false);
        }
        refreshInFlight := Some(|rounds|);
        rounds := rounds + [r];
      }
      round := refreshInFlight.value;
    }

    /** The part of `request` after the await of a fetch. */
    method Receive(id: nat, status: int)
      requires id in requests && requests[id].phase == Fetching
      modifies this`refreshInFlight, this`rounds, this`requests
      ensures Next(old(View()), Answer(id, status)) == Some(View())
    {
      var q := requests[id].(statuses := requests[id].statuses + [status]);
      if q.joined.None? && status == 401 {
        var round := OnUnauthorized();
        q := q.(joined := Some(round), phase := Waiting);
      } else {
        q := q.(phase := Finished);
      }
      requests := requests[id := q];
    }

    /** The part of `request` after the await of the round. */
    method Retry(id: nat)
      requires id in requests && requests[id].phase == Waiting && requests[id].joined.Some?
      requires requests[id].joined.value < |rounds| && rounds[requests[id].joined.value].progress.IsSettled()
      modifies this`requests
      ensures Next(old(View()), Continue(id)) == Some(View())
    {
      var q, progress := requests[id], rounds[requests[id].joined.value].progress;
      if progress.Resolved? && progress.token.Some? && progress.token.value != "" {
        q := q.(sent := q.sent + [progress.token], phase := Fetching);
      } else {
        q := q.(phase := Finished);
      }
      requests := requests[id := q];
    }

    /** The part of a round after its last await; None stands for a refusal. */
    method Finish(round: nat, pair: Option<Tokens>)
      requires round < |rounds| && rounds[round].progress == (if pair.Some? then Reading else Posting)
      modifies this`tokens, this`rounds
      ensures Next(old(View()), if pair.Some? then RefreshRead(round, pair.value) else RefreshRefused(round))
              == Some(View())
    {
      tokens := pair;
      var result := if pair.Some? then Some(pair.value.access) else None;
      rounds := rounds[round := rounds[round].(progress := Resolved(result), timer := true)];
    }

    /** The timer of a round. */
    method Clear(round: nat)
      requires round < |rounds| && rounds[round].timer
      modifies this`refreshInFlight, this`rounds
      ensures Next(old(View()), Timer(round)) == Some(View())
    {
      refreshInFlight := None;
      rounds := rounds[round := rounds[round].(timer := false)];
    }
  }
}
