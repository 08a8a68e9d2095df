/**
  The mission controls and the four click handlers of the game component.
  Each handler is guarded by the mission step alone: it neither asks whether
  the cursor is near its target nor whether the game is running.
 */
module Mission {
  import opened Options
  import opened GameState

  /** What the player typed into the "call the office" prompt; `Dismissed` is a cancelled prompt. */
  datatype Reply = Dismissed | Typed(text: string)

  /** The callback number that calms the player down. */
  const OfficeNumber := "555"

  /**
    What a click does: the new state, how many sparks it asks the particle
    system for at the click point, and whether it schedules the delayed pole
    completion.
   */
  datatype Reaction = Reaction(state: State, sparks: nat, completion: bool)

  /** Hides the start overlay, sets the game running and puts the step back to idle. */
  function Start(s: State): (r: State)
    ensures r.running && r.step == Idle && r.overlay == Hidden
    ensures r.mood == s.mood && r.timer == s.timer && r.found == s.found
  {
    s.(running := true, step := Idle, overlay := Hidden)
  }

  /** The end of the start countdown: the fuse search begins. */
  function BeginMission(s: State): (r: State)
    ensures r.step == Fuse
    ensures r.mood == s.mood && r.timer == s.timer && r.running == s.running
    ensures r.found == s.found && r.overlay == s.overlay
  {
    s.(step := Fuse)
  }

  /** Stops the game and shows the overlay for the outcome. */
  function EndGame(s: State, o: Outcome): (r: State)
    ensures !r.running && r.overlay == Ended(o)
    ensures r.step == s.step && r.mood == s.mood && r.timer == s.timer && r.found == s.found
  {
    s.(running := false, overlay := Ended(o))
  }

  /** Victory: mood drops by 30 but not below 0, and the game stops. */
  function Win(s: State): (r: State)
    ensures !r.running && r.overlay == Ended(Victory)
    ensures r.mood >= 0 && r.mood <= Max(s.mood, 0)
    ensures s.mood >= 30 ==> r.mood == s.mood - 30
    ensures s.mood < 30 ==> r.mood == 0
    ensures r.step == s.step && r.timer == s.timer && r.found == s.found
  {
    EndGame(s.(mood := Max(0, s.mood - 30)), Victory)
  }

  /** The delayed pole completion: the mission is done and the game is won. */
  function CompletePole(s: State): (r: State)
    ensures r.step == Done && !r.running && r.overlay == Ended(Victory)
    ensures r.mood == Max(0, s.mood - 30)
    ensures r.timer == s.timer && r.found == s.found
  {
    Win(s.(step := Done))
  }

  /** Mood after the phone prompt: the right number calms, anything else enrages without a cap. */
  function PhoneMood(m: int, reply: Reply): (r: int)
    ensures reply == Typed(OfficeNumber) ==> r == Max(0, m - 8) && r <= Max(m, 0)
    ensures reply != Typed(OfficeNumber) ==> r == m + 12 && r > m
  {
    if reply == Typed(OfficeNumber) then Max(0, m - 8) else m + 12
  }

  /** Click on the fuse box: only at the fuse step; sets its flag, moves to the cat, mood +8 capped at 100. */
  function ClickFuse(s: State): (r: Reaction)
    ensures s.step != Fuse ==> r == Reaction(s, 0, false)
    ensures s.step == Fuse ==>
      && r.state.step == Cat
      && r.state.found == s.found.(fuse := true)
      && r.state.mood == Min(MoodMax, s.mood + 8)
      && r.state.timer == s.timer && r.state.running == s.running && r.state.overlay == s.overlay
      && r.sparks == 20 && !r.completion
  {
    if s.step != Fuse then Reaction(s, 0, false)
    else Reaction(s.(found := Mark(s.found, FuseBox), step := Cat, mood := Min(MoodMax, s.mood + 8)), 20, false)
  }

  /** Click on the cat: only at the cat step; sets its flag, moves to the meter, mood -10 floored at 0. */
  function ClickCat(s: State): (r: Reaction)
    ensures s.step != Cat ==> r == Reaction(s, 0, false)
    ensures s.step == Cat ==>
      && r.state.step == Meter
      && r.state.found == s.found.(cat := true)
      && r.state.mood == Max(0, s.mood - 10)
      && r.state.timer == s.timer && r.state.running == s.running && r.state.overlay == s.overlay
      && r.sparks == 14 && !r.completion
  {
    if s.step != Cat then Reaction(s, 0, false)
    else Reaction(s.(found := Mark(s.found, CatBlocker), step := Meter, mood := Max(0, s.mood - 10)), 14, false)
  }

  /**
    Click on the meter: only at the meter step; sets its flag, moves to the
    pole and asks for the office number, whose answer alone changes the mood.
   */
  function ClickMeter(s: State, reply: Reply): (r: Reaction)
    ensures s.step != Meter ==> r == Reaction(s, 0, false)
    ensures s.step == Meter ==>
      && r.state.step == Pole
      && r.state.found == s.found.(meter := true)
      && r.state.mood == PhoneMood(s.mood, reply)
      && r.state.timer == s.timer && r.state.running == s.running && r.state.overlay == s.overlay
      && r.sparks == 0 && !r.completion
  {
    if s.step != Meter then Reaction(s, 0, false)
    else Reaction(s.(found := Mark(s.found, MeterBox), step := Pole, mood := PhoneMood(s.mood, reply)), 0, false)
  }

  /**
    Click on the pole: only at the pole step; sets its flag and schedules the
    delayed completion, but leaves the step where it is, so every further
    click schedules another completion.
   */
  function ClickPole(s: State): (r: Reaction)
    ensures s.step != Pole ==> r == Reaction(s, 0, false)
    ensures s.step == Pole ==>
      && r.state == s.(found := s.found.(pole := true))
      && r.sparks == 0 && r.completion
  {
    if s.step != Pole then Reaction(s, 0, false)
    else Reaction(s.(found := Mark(s.found, UtilityPole)), 0, true)
  }

  /** A click on a target, dispatched to its handler. */
  function Click(s: State, t: Target, reply: Reply): Reaction {
    match t
    case FuseBox => ClickFuse(s)
    case CatBlocker => ClickCat(s)
    case MeterBox => ClickMeter(s, reply)
    case UtilityPole => ClickPole(s)
  }

  /**
    A click does something exactly when its target is the one of the current
    step; it then sets that target's flag only and advances the step by one,
    except at the pole, where the step waits for the completion.
   */
  lemma ClickGuardedByStep(s: State, t: Target, reply: Reply)
    ensures TargetFor(s.step) != Some(t) ==> Click(s, t, reply) == Reaction(s, 0, false)
    ensures TargetFor(s.step) == Some(t) ==>
      var r := Click(s, t, reply).state;
      && r.found == Mark(s.found, t)
      && r.step == (if t == UtilityPole then s.step else Succ(s.step))
      && r.timer == s.timer && r.running == s.running && r.overlay == s.overlay
  {
  }

  /** The unclamped penalty: a wrong number at the meter can take mood past 100. */
  lemma WrongNumberPassesMoodMax(s: State, reply: Reply)
    requires s.step == Meter && s.mood > MoodMax - 12
    requires reply != Typed(OfficeNumber)
    ensures ClickMeter(s, reply).state.mood > MoodMax
  {
  }
}
