/**
  The game's state record: the mission step, the mood meter, the countdown,
  the running flag and the four found-flags, plus the overlay that tells the
  player how the last game ended. Also the four scene targets and which step
  each one belongs to.
 */
module GameState {
  import opened Options

  /** The mission step. `App.tsx` stores it as the numbers 0, 1, 1.5, 2, 3, 4. */
  datatype Step = Idle | Fuse | Cat | Meter | Pole | Done

  /** Position of a step in the mission order. */
  function Rank(st: Step): nat {
    match st
    case Idle => 0
    case Fuse => 1
    case Cat => 2
    case Meter => 3
    case Pole => 4
    case Done => 5
  }

  /** The step after `st` in the mission order; `Done` is last. */
  function Succ(st: Step): (r: Step)
    ensures st != Done ==> Rank(r) == Rank(st) + 1
    ensures st == Done ==> r == Done
  {
    match st
    case Idle => Fuse
    case Fuse => Cat
    case Cat => Meter
    case Meter => Pole
    case Pole => Done
    case Done => Done
  }

  /** The number `App.tsx` stores for a step. */
  function Code(st: Step): real {
    match st
    case Idle => 0.0
    case Fuse => 1.0
    case Cat => 1.5
    case Meter => 2.0
    case Pole => 3.0
    case Done => 4.0
  }

  /** Reads a stored step number back; numbers that are no step give `None`. */
  function DecodeStep(c: real): (r: Option<Step>)
    ensures r.Some? ==> Code(r.value) == c
    ensures r.None? ==> forall st: Step :: Code(st) != c
  {
    if c == 0.0 then Some(Idle)
    else if c == 1.0 then Some(Fuse)
    else if c == 1.5 then Some(Cat)
    else if c == 2.0 then Some(Meter)
    else if c == 3.0 then Some(Pole)
    else if c == 4.0 then Some(Done)
    else None
  }

  /** The stored numbers are ordered as the steps are, so the encoding loses nothing. */
  lemma CodeFollowsRank(a: Step, b: Step)
    ensures Rank(a) < Rank(b) <==> Code(a) < Code(b)
    ensures DecodeStep(Code(a)) == Some(a)
  {
  }

  datatype Found = Found(fuse: bool, cat: bool, meter: bool, pole: bool)

  const NothingFound := Found(false, false, false, false)

  /** How a game ended, each with its own overlay message in the game component. */
  datatype Outcome = Victory | TimeUp | Meltdown

  /** The overlay: the start screen, hidden during play, or an end-of-game message. */
  datatype Overlay = Intro | Hidden | Ended(outcome: Outcome)

  datatype State = State(step: Step, mood: int, timer: int, running: bool, found: Found, overlay: Overlay)

  /** The values the component starts with. */
  const Initial := State(Idle, 6, 90, false, NothingFound, Intro)

  /** Mood at or above which a running game fails. */
  const MoodCeiling := 90
  /** Upper clamp of the passive mood growth and of the fuse bonus. */
  const MoodMax := 100

  function Min(a: int, b: int): int { if a <= b then a else b }
  function Max(a: int, b: int): int { if a >= b then a else b }

  /** The four objects hidden in the scene, by their element ids. */
  datatype Target = FuseBox | CatBlocker | MeterBox | UtilityPole

  /** The target the player must find at a step; none before and after the mission. */
  function TargetFor(st: Step): (r: Option<Target>)
    ensures r.Some? <==> st in {Fuse, Cat, Meter, Pole}
    ensures r.Some? ==> StepFor(r.value) == st
  {
    match st
    case Fuse => Some(FuseBox)
    case Cat => Some(CatBlocker)
    case Meter => Some(MeterBox)
    case Pole => Some(UtilityPole)
    case _ => None
  }

  /** The step at which a target is found. */
  function StepFor(t: Target): Step {
    match t
    case FuseBox => Fuse
    case CatBlocker => Cat
    case MeterBox => Meter
    case UtilityPole => Pole
  }

  /** Whether a target's found-flag is set. */
  function Has(f: Found, t: Target): bool {
    match t
    case FuseBox => f.fuse
    case CatBlocker => f.cat
    case MeterBox => f.meter
    case UtilityPole => f.pole
  }

  /** Sets one found-flag, leaving the other three as they were. */
  function Mark(f: Found, t: Target): (r: Found)
    ensures Has(r, t)
    ensures forall u: Target :: u != t ==> Has(r, u) == Has(f, u)
  {
    match t
    case FuseBox => f.(fuse := true)
    case CatBlocker => f.(cat := true)
    case MeterBox => f.(meter := true)
    case UtilityPole => f.(pole := true)
  }

  /** No flag of `f` is cleared in `g`. */
  predicate Grows(f: Found, g: Found) {
    forall t: Target :: Has(f, t) ==> Has(g, t)
  }
}
