/** Where the tokens of a run come from: what the store holds, what each request sends and what each
  * round presents, told by the events before it. */
module AuthHistory {
  import opened Results
  import opened AuthRefresh

  /** The last pair that a sign-in or a refresh brought in the first `k` events, if no sign-out and no
    * refusal came after it. */
  function StoreAt(tokens: Option<Tokens>, events: seq<Event>, k: nat): Option<Tokens>
    requires k <= |events|
  {
    if k == 0 then tokens
    else match events[k - 1]
      case SignIn(pair) => Some(pair)
      case RefreshRead(_, pair) => Some(pair)
      case SignOut => None
      case RefreshRefused(_) => None
      case _ => StoreAt(tokens, events, k - 1)
  }

  /** The bearer that a store gives to a first fetch. */
  predicate IsBearerOf(bearer: Option<string>, store: Option<Tokens>) {
    if store.Some? && store.value.access != "" then bearer == Some(store.value.access) else bearer == None
  }

  /** The refresh token that a store gives to a round. */
  predicate IsPresentedOf(presented: Option<string>, store: Option<Tokens>) {
    if store.Some? && store.value.refresh != "" then presented == Some(store.value.refresh) else presented == None
  }

  // ---------- One step ----------

  lemma StoreStep(s: State, e: Event)
    requires Next(s, e).Some?
    ensures Next(s, e).value.tokens == match e
                                       case SignIn(pair) => Some(pair)
                                       case RefreshRead(_, pair) => Some(pair)
                                       case SignOut => None
                                       case RefreshRefused(_) => None
                                       case _ => s.tokens
  {}

  lemma RequestStep(s: State, e: Event, id: nat)
    requires Next(s, e).Some? && id in Next(s, e).value.requests
    requires id in s.requests ==> s.requests[id].sent != []
    ensures var q := Next(s, e).value.requests[id];
            && q.sent != []
            && if id in s.requests then q.sent[0] == s.requests[id].sent[0]
               else e == Start(id) && IsBearerOf(q.sent[0], s.tokens)
  {}

  /** How a round gets from one state to the next. */
  predicate MovesBy(before: Round, after: Round, e: Event, i: nat) {
    && after.presented == before.presented
    && (after.progress == before.progress ||
        match after.progress
        case Posting => false
        case Reading => e == RefreshAccepted(i)
        case Resolved(Some(t)) => e.RefreshRead? && e.round == i && e.tokens.access == t
        case Resolved(None) => e == RefreshRefused(i)
        case Rejected => e == RefreshRejected(i))
  }

  predicate BeginsBy(r: Round, e: Event, store: Option<Tokens>) {
    && e.Answer? && e.status == 401 && IsPresentedOf(r.presented, store)
    && r.progress == if r.presented.Some? then Posting else Resolved(None)
  }

  lemma RoundStep(s: State, e: Event, i: nat)
    requires Next(s, e).Some? && i < |Next(s, e).value.rounds|
    ensures var r := Next(s, e).value.rounds[i];
            if i < |s.rounds| then MovesBy(s.rounds[i], r, e, i) else BeginsBy(r, e, s.tokens)
  {}

  // ---------- The story of a run ----------

  ghost predicate RequestStory(tokens: Option<Tokens>, events: seq<Event>, k: nat, id: nat, q: Exchange)
    requires k <= |events|
  {
    q.sent != [] &&
    exists n | 0 <= n < k :: events[n] == Start(id) && IsBearerOf(q.sent[0], StoreAt(tokens, events, n))
  }

  ghost predicate HasBegun(tokens: Option<Tokens>, events: seq<Event>, k: nat, r: Round)
    requires k <= |events|
  {
    exists n | 0 <= n < k ::
      events[n].Answer? && events[n].status == 401 && IsPresentedOf(r.presented, StoreAt(tokens, events, n))
  }

  ghost predicate HasMoved(events: seq<Event>, k: nat, i: nat, r: Round)
    requires k <= |events|
  {
    match r.progress
    case Posting => true
    case Reading => exists n | 0 <= n < k :: events[n] == RefreshAccepted(i)
    case Resolved(Some(t)) => exists n | 0 <= n < k :: Brought(events[n], i, t)
    case Resolved(None) => r.presented.None? || exists n | 0 <= n < k :: events[n] == RefreshRefused(i)
    case Rejected => exists n | 0 <= n < k :: events[n] == RefreshRejected(i)
  }

  /** The refresh of the round has brought a pair with this access token. */
  predicate Brought(e: Event, round: nat, access: string) {
    e.RefreshRead? && e.round == round && e.tokens.access == access
  }

  ghost predicate RoundStory(tokens: Option<Tokens>, events: seq<Event>, k: nat, i: nat, r: Round)
    requires k <= |events|
  {
    HasBegun(tokens, events, k, r) && HasMoved(events, k, i, r)
  }

  ghost predicate Story(tokens: Option<Tokens>, events: seq<Event>, k: nat, s: State)
    requires k <= |events|
  {
    && s.tokens == StoreAt(tokens, events, k)
    && (forall id <- s.requests :: RequestStory(tokens, events, k, id, s.requests[id]))
    && forall i | 0 <= i < |s.rounds| :: RoundStory(tokens, events, k, i, s.rounds[i])
  }

  lemma RequestStoryGrows(tokens: Option<Tokens>, events: seq<Event>, k: nat, s: State, id: nat)
    requires k < |events| && s.tokens == StoreAt(tokens, events, k) && Next(s, events[k]).Some?
    requires id in Next(s, events[k]).value.requests
    requires id in s.requests ==> RequestStory(tokens, events, k, id, s.requests[id])
    ensures RequestStory(tokens, events, k + 1, id, Next(s, events[k]).value.requests[id])
  {
    RequestStep(s, events[k], id);
    if id in s.requests {
      var n :| 0 <= n < k && events[n] == Start(id) &&
               IsBearerOf(s.requests[id].sent[0], StoreAt(tokens, events, n));
    }
  }

  lemma BeginsStory(tokens: Option<Tokens>, events: seq<Event>, k: nat, i: nat, r: Round)
    requires k < |events| && BeginsBy(r, events[k], StoreAt(tokens, events, k))
    ensures RoundStory(tokens, events, k + 1, i, r)
  {}

  lemma MovesStory(tokens: Option<Tokens>, events: seq<Event>, k: nat, i: nat, before: Round, after: Round)
    requires k < |events| && RoundStory(tokens, events, k, i, before) && MovesBy(before, after, events[k], i)
    ensures RoundStory(tokens, events, k + 1, i, after)
  {
    MovesOn(events, k, i, before, after);
    var n :| 0 <= n < k && events[n].Answer? && events[n].status == 401 &&
             IsPresentedOf(before.presented, StoreAt(tokens, events, n));
    assert HasBegun(tokens, events, k + 1, after);
  }

  lemma MovesOn(events: seq<Event>, k: nat, i: nat, before: Round, after: Round)
    requires k < |events| && HasMoved(events, k, i, before) && MovesBy(before, after, events[k], i)
    ensures HasMoved(events, k + 1, i, after)
  {}

  lemma StoryGrows(tokens: Option<Tokens>, events: seq<Event>, k: nat, s: State)
    requires k < |events| && Story(tokens, events, k, s) && Next(s, events[k]).Some?
    ensures Story(tokens, events, k + 1, Next(s, events[k]).value)
  {
    var s' := Next(s, events[k]).value;
    StoreStep(s, events[k]);
    forall id | id in s'.requests ensures RequestStory(tokens, events, k + 1, id, s'.requests[id]) {
      RequestStoryGrows(tokens, events, k, s, id);
    }
    forall i | 0 <= i < |s'.rounds| ensures RoundStory(tokens, events, k + 1, i, s'.rounds[i]) {
      RoundStep(s, events[k], i);
      if i < |s.rounds| {
        MovesStory(tokens, events, k, i, s.rounds[i], s'.rounds[i]);
      } else {
        BeginsStory(tokens, events, k, i, s'.rounds[i]);
      }
    }
  }

  lemma {:induction false} StoryGoesOn(tokens: Option<Tokens>, events: seq<Event>, k: nat, s: State)
    requires k <= |events| && Story(tokens, events, k, s) && After(s, events[k..]).Some?
    ensures Story(tokens, events, |events|, After(s, events[k..]).value)
    decreases |events| - k
  {
    if k < |events| {
      assert events[k..][1..] == events[k + 1..];
      StoryGrows(tokens, events, k, s);
      StoryGoesOn(tokens, events, k + 1, Next(s, events[k]).value);
    }
  }

  lemma RunTellsStory(tokens: Option<Tokens>, events: seq<Event>, s: State)
    requires After(Initial(tokens), events) == Some(s)
    ensures Story(tokens, events, |events|, s)
  {
    assert events[0..] == events;
    StoryGoesOn(tokens, events, 0, Initial(tokens));
  }

  // ---------- Where the tokens come from ----------

  /** The store holds the last pair of a sign-in or a refresh, and nothing after a sign-out or a refusal. */
  lemma StoreHoldsLastPair(tokens: Option<Tokens>, events: seq<Event>, s: State)
    requires After(Initial(tokens), events) == Some(s)
    ensures s.tokens == StoreAt(tokens, events, |events|)
  {
    RunTellsStory(tokens, events, s);
  }

  predicate ChangesStore(e: Event) {
    e.SignIn? || e.RefreshRead? || e.SignOut? || e.RefreshRefused?
  }

  /** What a refresh brought stays in the store until the next event that changes it. */
  lemma {:induction false} PairStays(tokens: Option<Tokens>, events: seq<Event>, n: nat, k: nat, round: nat,
                                     pair: Tokens)
    requires n < k <= |events| && events[n] == RefreshRead(round, pair)
    requires forall i | n < i < k :: !ChangesStore(events[i])
    ensures StoreAt(tokens, events, k) == Some(pair)
  {
    if n + 1 < k {
      PairStays(tokens, events, n, k - 1, round, pair);
    }
  }

  /** The first fetch of a request carries the access token that the store held when the request began. */
  lemma FirstBearerIsStored(tokens: Option<Tokens>, events: seq<Event>, s: State, id: nat) returns (n: nat)
    requires After(Initial(tokens), events) == Some(s) && id in s.requests
    ensures n < |events| && events[n] == Start(id) && s.requests[id].sent != []
    ensures IsBearerOf(s.requests[id].sent[0], StoreAt(tokens, events, n))
  {
    RunTellsStory(tokens, events, s);
    assert RequestStory(tokens, events, |events|, id, s.requests[id]);
    n :| n < |events| && events[n] == Start(id) && IsBearerOf(s.requests[id].sent[0], StoreAt(tokens, events, n));
  }

  /** The second fetch of a request carries the access token of the pair that its round has brought. */
  lemma SecondBearerWasBrought(tokens: Option<Tokens>, events: seq<Event>, s: State, id: nat) returns (n: nat)
    requires After(Initial(tokens), events) == Some(s) && id in s.requests && |s.requests[id].sent| == 2
    ensures n < |events| && events[n].RefreshRead?
    ensures s.requests[id].joined == Some(events[n].round) && s.requests[id].sent[1] == Some(events[n].tokens.access)
  {
    RunTellsStory(tokens, events, s);
    assert Reachable(s);
    SecondFetchUsesSharedToken(s, id);
    var k := s.requests[id].joined.value;
    assert RoundStory(tokens, events, |events|, k, s.rounds[k]);
    n :| n < |events| && Brought(events[n], k, s.requests[id].sent[1].value);
  }

  /** A round presents the refresh token that the store held when a first 401 began it. */
  lemma RoundPresentsStored(tokens: Option<Tokens>, events: seq<Event>, s: State, i: nat) returns (n: nat)
    requires After(Initial(tokens), events) == Some(s) && i < |s.rounds|
    ensures n < |events| && events[n].Answer? && events[n].status == 401
    ensures IsPresentedOf(s.rounds[i].presented, StoreAt(tokens, events, n))
  {
    RunTellsStory(tokens, events, s);
    assert RoundStory(tokens, events, |events|, i, s.rounds[i]);
    n :| n < |events| && events[n].Answer? && events[n].status == 401 &&
         IsPresentedOf(s.rounds[i].presented, StoreAt(tokens, events, n));
  }

  /** A round with a refresh token gives no token only after a refusal, which empties the store, or after a
    * rejection. */
  lemma RoundFailsByEvent(tokens: Option<Tokens>, events: seq<Event>, s: State, i: nat) returns (n: nat)
    requires After(Initial(tokens), events) == Some(s) && i < |s.rounds|
    requires s.rounds[i].presented.Some? && (s.rounds[i].progress == Resolved(None) || s.rounds[i].progress.Rejected?)
    ensures n < |events| && (events[n] == RefreshRefused(i) || events[n] == RefreshRejected(i))
    ensures events[n] == RefreshRefused(i) ==> StoreAt(tokens, events, n + 1) == None
  {
    RunTellsStory(tokens, events, s);
    assert RoundStory(tokens, events, |events|, i, s.rounds[i]);
    n :| n < |events| && (events[n] == RefreshRefused(i) || events[n] == RefreshRejected(i));
  }
}
