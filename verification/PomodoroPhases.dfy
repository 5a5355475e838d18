/** How long the phases last and what comes after what, in milliseconds on the clock. */
module PomodoroPhases {
  import opened Results
  import opened Pomodoro

  function LengthMs(phase: Phase): nat {
    match phase
    case Idle => 0
    case Work => 1_500_000
    case ShortBreak => 300_000
    case LongBreak => 900_000
  }

  /** The round of eight phases. */
  predicate Follows(phase: Phase, cycle: int, phase': Phase, cycle': int) {
    match (phase, cycle)
    case (Work, 1) => phase' == ShortBreak && cycle' == 1
    case (ShortBreak, 1) => phase' == Work && cycle' == 2
    case (Work, 2) => phase' == ShortBreak && cycle' == 2
    case (ShortBreak, 2) => phase' == Work && cycle' == 3
    case (Work, 3) => phase' == ShortBreak && cycle' == 3
    case (ShortBreak, 3) => phase' == Work && cycle' == 4
    case (Work, 4) => phase' == LongBreak && cycle' == 4
    case (LongBreak, 4) => phase' == Work && cycle' == 1
    case _ => false
  }

  /** The state of a phase that has just begun. */
  function Begun(phase: Phase, cycle: int, at: int): State {
    State(true, phase, cycle, Some(at), None)
  }

  ghost predicate MovesOn(s: State, s': State, at: int) {
    s' == Begun(s'.phase, s'.cycle, at) && Follows(s.phase, s.cycle, s'.phase, s'.cycle)
  }

  lemma LengthInSeconds(s: State)
    ensures LengthMs(s.phase) == 1000 * s.TotalSec()
  {}

  /** A tick ends the running phase when its whole length has been counted, and does nothing before. */
  lemma TickEndsDuePhase(s: State, at: int)
    requires IsRunning(s) && s.startedAt.value <= at
    ensures CountedMs(s, at) >= LengthMs(s.phase) ==> MovesOn(s, Next(s, Tick(at)), at)
    ensures CountedMs(s, at) < LengthMs(s.phase) ==> Next(s, Tick(at)) == s
  {
    LengthInSeconds(s);
    assert s.ElapsedSec(at) >= s.TotalSec() <==> CountedMs(s, at) >= 1000 * s.TotalSec();
  }

  function Ticks(times: seq<int>): seq<Event> {
    seq(|times|, i requires 0 <= i < |times| => Tick(times[i]))
  }

  /** Over any number of ticks the phase ends at the first one that is due, and at no earlier one. */
  lemma {:induction false} PhaseEndsAtFirstDueTick(s: State, early: seq<int>, at: int)
    requires IsRunning(s) && s.startedAt.value <= at
    requires forall i | 0 <= i < |early| ::
               s.startedAt.value <= early[i] && CountedMs(s, early[i]) < LengthMs(s.phase)
    ensures After(s, Ticks(early)) == s
    ensures CountedMs(s, at) >= LengthMs(s.phase) ==> MovesOn(s, After(s, Ticks(early) + [Tick(at)]), at)
    decreases early
  {
    AfterThen(s, Ticks(early), Tick(at));
    TickEndsDuePhase(s, at);
    if early != [] {
      TickEndsDuePhase(s, early[0]);
      PhaseEndsAtFirstDueTick(s, early[1..], at);
      assert Ticks(early)[1..] == Ticks(early[1..]);
    }
  }

  /** The seconds shown are the milliseconds left, rounded up, and 0 once the phase is due. */
  lemma RemainingCountsDown(s: State, at: int)
    requires IsRunning(s) && s.startedAt.value <= at
    ensures var left, ms := s.RemainingSec(at), LengthMs(s.phase) - CountedMs(s, at);
            if ms >= 0 then 1000 * left - 1000 < ms <= 1000 * left else left == 0
  {
    LengthInSeconds(s);
  }

  /** A paused or idle timer ignores the ticks, and a control that does not apply changes nothing. */
  lemma NothingElseHappens(s: State, at: int)
    requires IsShaped(s)
    ensures s.phase == Idle || s.paused.Some? ==> Next(s, Tick(at)) == s && Next(s, Pause(at)) == s
    ensures s.phase == Idle ==> Next(s, Skip(at)) == s
    ensures s.paused.None? ==> Next(s, Resume(at)) == s
    ensures s.phase != Idle || !s.enabled ==> Next(s, Start(at)) == s
    ensures s.enabled ==> Next(s, SetEnabled(at, true)) == s
    ensures !s.enabled ==> Next(s, SetEnabled(at, true)) == State(true, Idle, 0, None, None)
  {}

  /** What the controls do where they apply. */
  lemma ControlsApply(s: State, at: int)
    requires IsShaped(s) && StartedBy(s, at)
    ensures s.enabled && s.phase == Idle ==> Next(s, Start(at)) == Begun(Work, 1, at)
    ensures s.phase != Idle ==> MovesOn(s, Next(s, Skip(at)), at)
    ensures s.phase != Idle && s.paused.None? ==>
              Next(s, Pause(at)) == State(true, s.phase, s.cycle, s.startedAt, Some(s.RemainingSec(at)))
    ensures s.paused.Some? ==>
              var s' := Next(s, Resume(at));
              && s' == State(true, s.phase, s.cycle, s'.startedAt, None) && s'.startedAt.Some?
              && CountedMs(s', at) == LengthMs(s.phase) - 1000 * s.paused.value
    ensures Next(s, Reset(at)) == State(s.enabled, Idle, 0, None, None)
    ensures Next(s, SetEnabled(at, false)) == State(false, Idle, 0, None, None)
  {
    LengthInSeconds(s);
  }

  lemma DueAt(phase: Phase, cycle: int, t: int, phase': Phase, cycle': int)
    requires Follows(phase, cycle, phase', cycle')
    ensures Next(Begun(phase, cycle, t), Tick(t + LengthMs(phase))) == Begun(phase', cycle', t + LengthMs(phase))
  {
    TickEndsDuePhase(Begun(phase, cycle, t), t + LengthMs(phase));
  }

  /** The times at which the phases of a round are due, counted from its start. */
  const DUE: seq<int> :=
    [1_500_000, 1_800_000, 3_300_000, 3_600_000, 5_100_000, 5_400_000, 6_900_000, 7_800_000]

  function RoundTicks(t: int): seq<Event> {
    seq(8, i requires 0 <= i < 8 => Tick(t + DUE[i]))
  }

  lemma {:induction false} LastStep(s: State, events: seq<Event>, n: nat)
    requires n < |events|
    ensures After(s, events[..n + 1]) == Next(After(s, events[..n]), events[n])
  {
    assert events[..n + 1] == events[..n] + [events[n]];
    AfterThen(s, events[..n], events[n]);
  }

  /** With ticks on time, a round of four work phases, three short breaks and a long one takes two hours and
    * ten minutes and leads back to where it began. */
  lemma RoundTakesItsTime(t: int)
    ensures After(Begun(Work, 1, t), RoundTicks(t)) == Begun(Work, 1, t + 7_800_000)
  {
    var s, e := Begun(Work, 1, t), RoundTicks(t);
    assert e[..0] == [] && e[..8] == e;
    DueAt(Work, 1, t, ShortBreak, 1);
    LastStep(s, e, 0);
    DueAt(ShortBreak, 1, t + 1_500_000, Work, 2);
    LastStep(s, e, 1);
    DueAt(Work, 2, t + 1_800_000, ShortBreak, 2);
    LastStep(s, e, 2);
    DueAt(ShortBreak, 2, t + 3_300_000, Work, 3);
    LastStep(s, e, 3);
    DueAt(Work, 3, t + 3_600_000, ShortBreak, 3);
    LastStep(s, e, 4);
    DueAt(ShortBreak, 3, t + 5_100_000, Work, 4);
    LastStep(s, e, 5);
    DueAt(Work, 4, t + 5_400_000, LongBreak, 4);
    LastStep(s, e, 6);
    DueAt(LongBreak, 4, t + 6_900_000, Work, 1);
    LastStep(s, e, 7);
  }
}
