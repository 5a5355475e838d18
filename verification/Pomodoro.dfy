/** The pomodoro timer: a state machine over a clock that never runs backwards. */
module Pomodoro {
  import opened Results

  datatype Phase = Idle | Work | ShortBreak | LongBreak

  const CYCLES_BEFORE_LONG_BREAK := 4

  function PhaseDurationSec(phase: Phase): nat {
    match phase
    case Idle => 0
    case Work => 25 * 60
    case ShortBreak => 5 * 60
    case LongBreak => 15 * 60
  }

  function AdvancePhase(phase: Phase, cycle: int): (Phase, int) {
    match phase
    case Idle => (Work, 1)
    case Work => (if cycle >= CYCLES_BEFORE_LONG_BREAK then LongBreak else ShortBreak, cycle)
    case ShortBreak => (Work, cycle + 1)
    case LongBreak => (Work, 1)
  }

  datatype State = State(enabled: bool, phase: Phase, cycle: int, startedAt: Option<int>, paused: Option<int>)
  {
    function TotalSec(): nat {
      PhaseDurationSec(phase)
    }

    /** Whole seconds since the phase started; the quotient is rounded down. */
    function ElapsedSec(at: int): int {
      if startedAt.Some? then (at - startedAt.value) / 1000 else 0
    }

    function RemainingSec(at: int): int {
      if phase == Idle then 0
      else if paused.Some? then paused.value
      else if startedAt.Some? then Max(0, TotalSec() - ElapsedSec(at))
      else 0
    }

    /** The interval that ticks is installed. */
    predicate Ticks() {
      enabled && phase != Idle && paused.None? && startedAt.Some?
    }
  }

  function Max(a: int, b: int): int {
    if a < b then b else a
  }

  /** A use of the controls, a tick, or a change of the preference, with the time on the clock. */
  datatype Event =
    | Start(at: int)
    | Pause(at: int)
    | Resume(at: int)
    | Reset(at: int)
    | Skip(at: int)
    | Tick(at: int)
    | SetEnabled(at: int, on: bool)

  datatype PhaseChange = PhaseChange(from: Phase, to: Phase, cycle: int)

  function Stopped(enabled: bool): State {
    State(enabled, Idle, 0, None, None)
  }

  function Advanced(s: State, at: int): State {
    var (phase, cycle) := AdvancePhase(s.phase, s.cycle);
    s.(phase := phase, cycle := cycle, startedAt := Some(at), paused := None)
  }

  function Next(s: State, e: Event): State {
    match e
    case Start(at) => if s.enabled && s.phase == Idle then State(true, Work, 1, Some(at), None) else s
    case Pause(at) =>
      if s.phase == Idle || s.paused.Some? || s.startedAt.None? then s
      else s.(paused := Some(Max(0, s.TotalSec() - s.ElapsedSec(at))))
    case Resume(at) =>
      if s.paused.None? then s
      else s.(startedAt := Some(at - (s.TotalSec() - s.paused.value) * 1000), paused := None)
    case Reset(_) => Stopped(s.enabled)
    case Skip(at) => if s.phase == Idle then s else Advanced(s, at)
    case Tick(at) => if s.Ticks() && s.ElapsedSec(at) >= s.TotalSec() then Advanced(s, at) else s
    case SetEnabled(_, on) => if on then s.(enabled := true) else Stopped(false)
  }

  /** The change that is announced. */
  function Announced(s: State, e: Event): Option<PhaseChange> {
    var s' := Next(s, e);
    match e
    case Start(_) => if s.enabled && s.phase == Idle then Some(PhaseChange(Idle, Work, 1)) else None
    case Skip(_) => if s.phase == Idle then None else Some(PhaseChange(s.phase, s'.phase, s'.cycle))
    case Tick(at) =>
      if s.Ticks() && s.ElapsedSec(at) >= s.TotalSec() then Some(PhaseChange(s.phase, s'.phase, s'.cycle)) else None
    case _ => None
  }

  // ---------- Runs ----------

  function After(s: State, events: seq<Event>): State
    decreases events
  {
    if events == [] then s else After(Next(s, events[0]), events[1..])
  }

  function Log(s: State, events: seq<Event>): seq<PhaseChange>
    decreases events
  {
    if events == [] then []
    else
      var rest := Log(Next(s, events[0]), events[1..]);
      match Announced(s, events[0])
      case Some(change) => [change] + rest
      case None => rest
  }

  /** The clock, last read at `clock`, never runs backwards. */
  predicate IsMonotone(clock: int, events: seq<Event>)
    decreases events
  {
    events == [] || (clock <= events[0].at && IsMonotone(events[0].at, events[1..]))
  }

  function LastAt(clock: int, events: seq<Event>): int
    decreases events
  {
    if events == [] then clock else LastAt(events[0].at, events[1..])
  }

  ghost predicate Reachable(s: State) {
    exists on, clock, events :: IsMonotone(clock, events) && After(Stopped(on), events) == s
  }

  // ---------- The reachable states ----------

  predicate IsStage(phase: Phase, cycle: int) {
    match phase
    case Idle => cycle == 0
    case Work => 1 <= cycle <= 4
    case ShortBreak => 1 <= cycle <= 3
    case LongBreak => cycle == 4
  }

  predicate IsShaped(s: State) {
    && IsStage(s.phase, s.cycle)
    && (s.startedAt.None? <==> s.phase == Idle)
    && (s.phase == Idle ==> s.paused.None?)
    && (!s.enabled ==> s.phase == Idle)
    && (s.paused.Some? ==> 0 <= s.paused.value <= s.TotalSec())
  }

  predicate StartedBy(s: State, clock: int) {
    s.startedAt.Some? ==> s.startedAt.value <= clock
  }

  lemma StepKeepsShape(s: State, clock: int, e: Event)
    requires IsShaped(s) && StartedBy(s, clock) && clock <= e.at
    ensures IsShaped(Next(s, e)) && StartedBy(Next(s, e), e.at)
  {}

  lemma {:induction false} RunKeepsShape(s: State, clock: int, events: seq<Event>)
    requires IsShaped(s) && StartedBy(s, clock) && IsMonotone(clock, events)
    ensures IsShaped(After(s, events)) && StartedBy(After(s, events), LastAt(clock, events))
    decreases events
  {
    if events != [] {
      StepKeepsShape(s, clock, events[0]);
      RunKeepsShape(Next(s, events[0]), events[0].at, events[1..]);
    }
  }

  /** The number of skips from the first work phase. */
  function Rank(phase: Phase, cycle: int): int {
    match phase
    case Idle => 0
    case Work => 2 * (cycle - 1)
    case ShortBreak => 2 * cycle - 1
    case LongBreak => 7
  }

  /** Starts and skips `n` times, all at one instant. */
  function Route(at: int, n: nat): seq<Event> {
    if n == 0 then [Start(at)] else Route(at, n - 1) + [Skip(at)]
  }

  lemma {:induction false} AfterThen(s: State, events: seq<Event>, e: Event)
    ensures After(s, events + [e]) == Next(After(s, events), e)
    decreases events
  {
    if events == [] {
      assert [e][1..] == [];
      assert events + [e] == [e];
    } else {
      assert (events + [e])[1..] == events[1..] + [e];
      AfterThen(Next(s, events[0]), events[1..], e);
    }
  }

  lemma {:induction false} MonotoneThen(clock: int, events: seq<Event>, e: Event)
    requires IsMonotone(clock, events) && LastAt(clock, events) <= e.at
    ensures IsMonotone(clock, events + [e]) && LastAt(clock, events + [e]) == e.at
    decreases events
  {
    if events == [] {
      assert [e][1..] == [];
      assert events + [e] == [e];
    } else {
      assert (events + [e])[1..] == events[1..] + [e];
      MonotoneThen(events[0].at, events[1..], e);
    }
  }

  lemma {:induction false} RouteLeads(at: int, n: nat)
    requires n <= 7
    ensures IsMonotone(at, Route(at, n)) && LastAt(at, Route(at, n)) == at
    ensures var s := After(Stopped(true), Route(at, n));
            IsShaped(s) && s.enabled && s.phase != Idle && Rank(s.phase, s.cycle) == n
            && s.startedAt == Some(at) && s.paused.None?
  {
    if n == 0 {
      assert [Start(at)][1..] == [];
      assert After(Stopped(true), [Start(at)]) == Next(Stopped(true), Start(at));
    } else {
      RouteLeads(at, n - 1);
      AfterThen(Stopped(true), Route(at, n - 1), Skip(at));
      MonotoneThen(at, Route(at, n - 1), Skip(at));
    }
  }

  lemma ShapedIsReachable(s: State)
    requires IsShaped(s)
    ensures Reachable(s)
  {
    if s.phase == Idle {
      assert IsMonotone(0, []) && After(Stopped(s.enabled), []) == s;
    } else {
      var at, n := s.startedAt.value, Rank(s.phase, s.cycle);
      var route := Route(at, n);
      RouteLeads(at, n);
      var s' := After(Stopped(true), route);
      if s.paused.Some? {
        var e := Pause(at + (s.TotalSec() - s.paused.value) * 1000);
        AfterThen(Stopped(true), route, e);
        MonotoneThen(at, route, e);
        assert After(Stopped(true), route + [e]) == s;
      }
    }
  }

  /** The reachable states are exactly: idle with cycle 0, work in cycles 1 to 4, a short break after
    * cycles 1 to 3, a long break after cycle 4; running or paused with 0 to all of the seconds left;
    * and only idle while switched off. */
  lemma ReachableStates(s: State)
    ensures Reachable(s) <==> IsShaped(s)
  {
    if IsShaped(s) {
      ShapedIsReachable(s);
    } else if Reachable(s) {
      var on, clock, events :| IsMonotone(clock, events) && After(Stopped(on), events) == s;
      RunKeepsShape(Stopped(on), clock, events);
    }
  }

  /** From any later reading of the clock, the seconds left are between none and all. */
  lemma RemainingIsBounded(on: bool, clock: int, events: seq<Event>, at: int)
    requires IsMonotone(clock, events) && LastAt(clock, events) <= at
    ensures var s := After(Stopped(on), events); 0 <= s.RemainingSec(at) <= s.TotalSec()
  {
    RunKeepsShape(Stopped(on), clock, events);
  }

  // ---------- Announcements ----------

  predicate Stops(e: Event) {
    e.Reset? || (e.SetEnabled? && !e.on)
  }

  /** The changes of the state graph. */
  predicate IsEdge(c: PhaseChange) {
    || (c.from == Idle && c.to == Work && c.cycle == 1)
    || (c.from == Work && c.to == ShortBreak && 1 <= c.cycle <= 3)
    || (c.from == Work && c.to == LongBreak && c.cycle == 4)
    || (c.from == ShortBreak && c.to == Work && 2 <= c.cycle <= 4)
    || (c.from == LongBreak && c.to == Work && c.cycle == 1)
  }

  /** Every change of phase is announced, except the fall back to idle. */
  lemma AnnouncesChanges(s: State, e: Event)
    requires IsShaped(s)
    ensures var s' := Next(s, e);
            if Announced(s, e).Some? then
              Announced(s, e).value == PhaseChange(s.phase, s'.phase, s'.cycle) && IsEdge(Announced(s, e).value)
            else (s'.phase == s.phase && s'.cycle == s.cycle) || Stops(e)
    ensures Stops(e) ==> Announced(s, e).None? && Next(s, e).phase == Idle
  {}

  /** Each change leaves the phase that the one before it entered, or leaves idle. */
  predicate IsChain(from: Phase, log: seq<PhaseChange>)
    decreases log
  {
    log == [] || ((log[0].from == from || log[0].from == Idle) && IsEdge(log[0]) && IsChain(log[0].to, log[1..]))
  }

  /** The same without ever falling back to idle. */
  predicate IsTightChain(from: Phase, log: seq<PhaseChange>, to: Phase)
    decreases log
  {
    if log == [] then from == to
    else log[0].from == from && IsEdge(log[0]) && IsTightChain(log[0].to, log[1..], to)
  }

  /** Over every run the announcements chain. */
  lemma {:induction false} AnnouncementsChain(s: State, clock: int, events: seq<Event>)
    requires IsShaped(s) && StartedBy(s, clock) && IsMonotone(clock, events)
    ensures IsChain(s.phase, Log(s, events))
    decreases events
  {
    if events != [] {
      var e := events[0];
      StepKeepsShape(s, clock, e);
      AnnouncesChanges(s, e);
      AnnouncementsChain(Next(s, e), e.at, events[1..]);
    }
  }

  /** Without a reset or a switch-off, the announcements trace the way from the first phase to the last. */
  lemma {:induction false} AnnouncementsTraceRun(s: State, clock: int, events: seq<Event>)
    requires IsShaped(s) && StartedBy(s, clock) && IsMonotone(clock, events)
    requires forall i | 0 <= i < |events| :: !Stops(events[i])
    ensures IsTightChain(s.phase, Log(s, events), After(s, events).phase)
    decreases events
  {
    if events != [] {
      var e := events[0];
      assert !Stops(e);
      StepKeepsShape(s, clock, e);
      AnnouncesChanges(s, e);
      AnnouncementsTraceRun(Next(s, e), e.at, events[1..]);
    }
  }

  // ---------- Pause and resume ----------

  predicate IsRunning(s: State) {
    IsShaped(s) && s.phase != Idle && s.paused.None?
  }

  /** The time the phase counts as run. */
  function CountedMs(s: State, at: int): int {
    if s.startedAt.Some? then at - s.startedAt.value else 0
  }

  /** What a pause at `at` throws away: the part of a second, or all that exceeds the phase. */
  function Loss(s: State, at: int): int {
    CountedMs(s, at) - 1000 * Min(s.TotalSec(), s.ElapsedSec(at))
  }

  function Min(a: int, b: int): int {
    if a < b then a else b
  }

  function Break(s: State, pause: int, resume: int): State {
    Next(Next(s, Pause(pause)), Resume(resume))
  }

  /** Pausing freezes the seconds left, and resuming goes on from exactly those. */
  lemma ResumeGoesOn(s: State, pause: int, resume: int, later: int)
    requires IsRunning(s) && s.startedAt.value <= pause <= resume <= later
    ensures IsRunning(Break(s, pause, resume))
    ensures Next(s, Pause(pause)).RemainingSec(later) == s.RemainingSec(pause)
    ensures Break(s, pause, resume).RemainingSec(resume) == s.RemainingSec(pause)
    ensures Break(s, pause, resume).RemainingSec(later) == Max(0, s.RemainingSec(pause) - (later - resume) / 1000)
  {}

  /** A break moves the start so that only its loss is not counted. */
  lemma BreakLoses(s: State, pause: int, resume: int, at: int)
    requires IsRunning(s) && s.startedAt.value <= pause <= resume <= at
    ensures var b := Break(s, pause, resume);
            IsRunning(b) && b.phase == s.phase && b.startedAt.value <= resume &&
            (pause - s.startedAt.value) + (at - resume) == CountedMs(b, at) + Loss(s, pause)
    ensures Loss(s, pause) >= 0
    ensures Loss(s, pause) <= 999 <==> s.ElapsedSec(pause) <= s.TotalSec()
  {}

  /** A pause and the resume that ends it. */
  datatype Pair = Pair(pause: int, resume: int)

  /** The breaks follow each other. */
  predicate InOrder(clock: int, breaks: seq<Pair>)
    decreases breaks
  {
    breaks == [] || (clock <= breaks[0].pause <= breaks[0].resume && InOrder(breaks[0].resume, breaks[1..]))
  }

  function AfterBreaks(s: State, breaks: seq<Pair>): State
    decreases breaks
  {
    if breaks == [] then s else AfterBreaks(Break(s, breaks[0].pause, breaks[0].resume), breaks[1..])
  }

  /** The time from `clock` to `at` outside the breaks. */
  function RunningMs(clock: int, breaks: seq<Pair>, at: int): int
    decreases breaks
  {
    if breaks == [] then at - clock else breaks[0].pause - clock + RunningMs(breaks[0].resume, breaks[1..], at)
  }

  /** No pause comes later than the first tick at which the phase is due. */
  predicate PausesBeforeDue(s: State, breaks: seq<Pair>)
    decreases breaks
  {
    breaks == [] ||
    (s.ElapsedSec(breaks[0].pause) <= s.TotalSec() &&
     PausesBeforeDue(Break(s, breaks[0].pause, breaks[0].resume), breaks[1..]))
  }

  function LastResume(clock: int, breaks: seq<Pair>): int
    decreases breaks
  {
    if breaks == [] then clock else LastResume(breaks[0].resume, breaks[1..])
  }

  function TotalLoss(s: State, breaks: seq<Pair>): int
    decreases breaks
  {
    if breaks == [] then 0
    else Loss(s, breaks[0].pause) + TotalLoss(Break(s, breaks[0].pause, breaks[0].resume), breaks[1..])
  }

  /** Whatever the breaks, the time run in a phase is the time counted plus what the pauses threw away. */
  lemma {:induction false} BreaksLose(s: State, clock: int, breaks: seq<Pair>, at: int)
    requires IsRunning(s) && s.startedAt.value <= clock && InOrder(clock, breaks) && LastResume(clock, breaks) <= at
    ensures IsRunning(AfterBreaks(s, breaks)) && AfterBreaks(s, breaks).phase == s.phase
    ensures RunningMs(clock, breaks, at) + CountedMs(s, clock)
            == CountedMs(AfterBreaks(s, breaks), at) + TotalLoss(s, breaks)
    decreases breaks
  {
    if breaks != [] {
      var pause, resume := breaks[0].pause, breaks[0].resume;
      BreakLoses(s, pause, resume, resume);
      BreaksLose(Break(s, pause, resume), resume, breaks[1..], at);
    }
  }

  /** After k breaks whose pauses come before the phase is due, between 0 and 999 * k milliseconds of
    * running time are not counted. */
  lemma {:induction false} LossIsBounded(s: State, clock: int, breaks: seq<Pair>)
    requires IsRunning(s) && s.startedAt.value <= clock && InOrder(clock, breaks)
    ensures 0 <= TotalLoss(s, breaks)
    ensures PausesBeforeDue(s, breaks) ==> TotalLoss(s, breaks) <= 999 * |breaks|
    decreases breaks
  {
    if breaks != [] {
      var pause, resume := breaks[0].pause, breaks[0].resume;
      BreakLoses(s, pause, resume, resume);
      LossIsBounded(Break(s, pause, resume), resume, breaks[1..]);
    }
  }

  /** The phase started at `s.startedAt`: running time exceeds counted time by 0 to 999 ms a pause. */
  lemma PausesCostUnderOneSecond(s: State, breaks: seq<Pair>, at: int)
    requires IsRunning(s) && InOrder(s.startedAt.value, breaks) && LastResume(s.startedAt.value, breaks) <= at
    requires PausesBeforeDue(s, breaks)
    ensures 0 <= RunningMs(s.startedAt.value, breaks, at) - CountedMs(AfterBreaks(s, breaks), at) <= 999 * |breaks|
  {
    BreaksLose(s, s.startedAt.value, breaks, at);
    LossIsBounded(s, s.startedAt.value, breaks);
  }

  // ---------- The hook as a program ----------

  /** The state the hook keeps, with the announcements in the order in which they were queued. */
  class Hook {
    var enabled: bool
    var phase: Phase
    var cycle: int
    var phaseStartedAt: Option<int>
    var pausedRemainingSec: Option<int>
    var announced: seq<PhaseChange>

    constructor (on: bool)
      ensures View() == Stopped(on) && announced == []
    {
      enabled, phase, cycle, phaseStartedAt, pausedRemainingSec, announced := on, Idle, 0, None, None, [];
    }

    ghost function View(): State
      reads this
    {
      State(enabled, phase, cycle, phaseStartedAt, pausedRemainingSec)
    }

    /** The log after one more event. */
    ghost function Logged(s: State, e: Event): seq<PhaseChange>
      reads this
    {
      announced + if Announced(s, e).Some? then [Announced(s, e).value] else []
    }

    method Start(at: int)
      modifies this
      ensures View() == Next(old(View()), Event.Start(at)) && announced == old(Logged(View(), Event.Start(at)))
    {
      if !enabled || phase != Idle {
        return;
      }
      phase, cycle, phaseStartedAt, pausedRemainingSec := Work, 1, Some(at), None;
      announced := announced + [PhaseChange(Idle, Work, 1)];
    }

    method Pause(at: int)
      modifies this`pausedRemainingSec
      ensures View() == Next(old(View()), Event.Pause(at))
    {
      if phase == Idle || pausedRemainingSec.Some? || phaseStartedAt.None? {
        return;
      }
      var elapsed := (at - phaseStartedAt.value) / 1000;
      pausedRemainingSec := Some(Max(0, PhaseDurationSec(phase) - elapsed));
    }

    method Resume(at: int)
      modifies this`phaseStartedAt, this`pausedRemainingSec
      ensures View() == Next(old(View()), Event.Resume(at))
    {
      if pausedRemainingSec.None? {
        return;
      }
      phaseStartedAt := Some(at - (PhaseDurationSec(phase) - pausedRemainingSec.value) * 1000);
      pausedRemainingSec := None;
    }

    method Reset(at: int)
      modifies this
      ensures View() == Next(old(View()), Event.Reset(at)) && announced == old(announced)
    {
      phase, cycle, phaseStartedAt, pausedRemainingSec := Idle, 0, None, None;
    }

    method Skip(at: int)
      modifies this
      ensures View() == Next(old(View()), Event.Skip(at)) && announced == old(Logged(View(), Event.Skip(at)))
    {
      if phase == Idle {
        return;
      }
      var (phase', cycle') := AdvancePhase(phase, cycle);
      announced := announced + [PhaseChange(phase, phase', cycle')];
      phase, cycle, phaseStartedAt, pausedRemainingSec := phase', cycle', Some(at), None;
    }

    /** One firing of the interval. */
    method Tick(at: int)
      modifies this
      ensures View() == Next(old(View()), Event.Tick(at)) && announced == old(Logged(View(), Event.Tick(at)))
    {
      if !enabled || phase == Idle || pausedRemainingSec.Some? || phaseStartedAt.None? {
        return;
      }
      var elapsed := (at - phaseStartedAt.value) / 1000;
      if elapsed >= PhaseDurationSec(phase) {
        var (phase', cycle') := AdvancePhase(phase, cycle);
        announced := announced + [PhaseChange(phase, phase', cycle')];
        phase, cycle, phaseStartedAt := phase', cycle', Some(at);
      }
    }

    /** The effect that follows the preference. */
    method SetEnabled(at: int, on: bool)
      modifies this
      ensures View() == Next(old(View()), Event.SetEnabled(at, on)) && announced == old(announced)
    {
      enabled := on;
      if !enabled {
        phase, cycle, phaseStartedAt, pausedRemainingSec := Idle, 0, None, None;
      }
    }
  }
}
