/**
  The two periodic processes of a running game and the failure checks that
  follow every change of their inputs: the countdown loses one second per
  tick, the mood grows by 2 per tick up to 100, and the game fails once the
  countdown is at or below 0 or the mood at or above the ceiling.
 */
module Ticks {
  import opened GameState
  import Mission

  /** The countdown interval exists only while the game runs with time left. */
  predicate TimerArmed(s: State) {
    s.running && s.timer > 0
  }

  /** One countdown tick. */
  function TimerTick(s: State): (r: State)
    ensures TimerArmed(s) ==> r.timer == s.timer - 1 && r.timer >= 0
    ensures r.step == s.step && r.mood == s.mood && r.running == s.running
    ensures r.found == s.found && r.overlay == s.overlay
    ensures !TimerArmed(s) ==> r == s
  {
    if TimerArmed(s) then s.(timer := s.timer - 1) else s
  }

  /** One mood tick: +2, capped at 100, and only while the game runs. */
  function MoodTick(s: State): (r: State)
    ensures s.running ==> r.mood <= MoodMax
    ensures s.running && s.mood <= MoodMax - 2 ==> r.mood == s.mood + 2
    ensures s.running && s.mood > MoodMax - 2 ==> r.mood == MoodMax
    ensures r.step == s.step && r.timer == s.timer && r.running == s.running
    ensures r.found == s.found && r.overlay == s.overlay
    ensures !s.running ==> r == s
  {
    if s.running then s.(mood := Min(MoodMax, s.mood + 2)) else s
  }

  /** The countdown check has something to do. */
  predicate TimeIsUp(s: State) {
    s.running && s.timer <= 0
  }

  /** The mood check has something to do. */
  predicate MoodOverflows(s: State) {
    s.running && s.mood >= MoodCeiling
  }

  /** Neither failure check has anything left to do. */
  predicate Calm(s: State) {
    !TimeIsUp(s) && !MoodOverflows(s)
  }

  /**
    The two checks that run after a change: the countdown check first, then
    the mood check, both reading the same state, so when both fire the mood
    message is the one left on the overlay.
   */
  function Settle(s: State): (r: State)
    ensures Calm(r)
    ensures r.step == s.step && r.mood == s.mood && r.timer == s.timer && r.found == s.found
    ensures r.running <==> s.running && Calm(s)
    ensures MoodOverflows(s) ==> r.overlay == Ended(Meltdown)
    ensures TimeIsUp(s) && !MoodOverflows(s) ==> r.overlay == Ended(TimeUp)
    ensures Calm(s) ==> r == s
  {
    var afterTimer := if TimeIsUp(s) then Mission.EndGame(s, TimeUp) else s;
    if MoodOverflows(s) then Mission.EndGame(afterTimer, Meltdown) else afterTimer
  }

  /** A countdown tick followed by the checks. */
  function TimerStep(s: State): State {
    Settle(TimerTick(s))
  }

  /** A mood tick followed by the checks. */
  function MoodStep(s: State): State {
    Settle(MoodTick(s))
  }

  function TimerSteps(s: State, k: nat): State
    decreases k
  {
    if k == 0 then s else TimerSteps(TimerStep(s), k - 1)
  }

  function MoodSteps(s: State, k: nat): State
    decreases k
  {
    if k == 0 then s else MoodSteps(MoodStep(s), k - 1)
  }

  /**
    Left alone, a running game with t seconds left loses one second per tick
    and fails on time exactly at the t-th tick, with nothing else changed.
   */
  lemma {:induction false} CountdownRuns(s: State, k: nat)
    requires s.running && Calm(s) && k <= s.timer
    ensures var r := TimerSteps(s, k);
      && r.timer == s.timer - k
      && (r.running <==> k < s.timer)
      && (k == s.timer ==> r.overlay == Ended(TimeUp))
      && r.step == s.step && r.mood == s.mood && r.found == s.found
    decreases k
  {
    if k > 0 {
      var n := TimerStep(s);
      if s.timer == 1 {
        assert TimerSteps(n, 0) == n;
      } else {
        assert n == s.(timer := s.timer - 1);
        CountdownRuns(n, k - 1);
      }
    }
  }

  /**
    Left alone, a running game climbs 2 mood points per tick and melts down
    exactly at the tick that brings the mood to the ceiling.
   */
  lemma {:induction false} MoodClimbs(s: State, k: nat)
    requires s.running && Calm(s)
    requires s.mood + 2 * k <= MoodCeiling
    ensures var r := MoodSteps(s, k);
      && r.mood == s.mood + 2 * k
      && (r.running <==> r.mood < MoodCeiling)
      && (!r.running ==> r.overlay == Ended(Meltdown))
      && r.step == s.step && r.timer == s.timer && r.found == s.found
    decreases k
  {
    if k > 0 {
      var n := MoodStep(s);
      if s.mood + 2 == MoodCeiling {
        assert MoodSteps(n, 0) == n;
      } else {
        assert n == s.(mood := s.mood + 2);
        MoodClimbs(n, k - 1);
      }
    }
  }

  /** From the starting mood of 6 the meltdown comes on the 42nd mood tick and not before. */
  lemma MeltdownFromStartingMood(s: State)
    requires s.running && Calm(s) && s.mood == Initial.mood
    ensures !MoodSteps(s, 42).running && MoodSteps(s, 42).overlay == Ended(Meltdown)
    ensures MoodSteps(s, 41).running
  {
    MoodClimbs(s, 42);
    MoodClimbs(s, 41);
  }

  /** From the starting countdown of 90 the game fails on the 90th second and not before. */
  lemma TimeUpFromStartingCountdown(s: State)
    requires s.running && Calm(s) && s.timer == Initial.timer
    ensures !TimerSteps(s, 90).running && TimerSteps(s, 90).overlay == Ended(TimeUp)
    ensures TimerSteps(s, 89).running && TimerSteps(s, 89).timer == 1
  {
    CountdownRuns(s, 90);
    CountdownRuns(s, 89);
  }

  /** Start does not refill the countdown: after a time-out, a restart fails at once. */
  lemma RestartAfterTimeUpFailsAtOnce(s: State)
    requires s.timer <= 0 && s.mood < MoodCeiling
    ensures var r := Settle(Mission.Start(s));
      !r.running && r.overlay == Ended(TimeUp) && r.step == Idle
  {
  }
}
