/**
  The whole game as a sequence of events: the start button, the end of the
  start countdown, the two periodic ticks, clicks on targets and the firing
  of a delayed pole completion. After each event the failure checks run, as
  the component's effects do after every change they depend on.
 */
module Play {
  import opened Options
  import opened GameState
  import Mission
  import Ticks

  /** The game state and the number of pole completions scheduled and not yet fired. */
  datatype World = World(state: State, pending: nat)

  datatype Event =
    | StartPressed
    | CountdownOver
    | TimerTicked
    | MoodTicked
    | Clicked(target: Target, reply: Mission.Reply)
    | PoleCompleted

  const Opening := World(Initial, 0)

  /** The effect of one event, before the failure checks. */
  function Apply(w: World, e: Event): World {
    match e
    case StartPressed => w.(state := Mission.Start(w.state))
    case CountdownOver => w.(state := Mission.BeginMission(w.state))
    case TimerTicked => w.(state := Ticks.TimerTick(w.state))
    case MoodTicked => w.(state := Ticks.MoodTick(w.state))
    case Clicked(t, reply) =>
      var r := Mission.Click(w.state, t, reply);
      World(r.state, if r.completion then w.pending + 1 else w.pending)
    case PoleCompleted =>
      if w.pending == 0 then w else World(Mission.CompletePole(w.state), w.pending - 1)
  }

  /** One event followed by the failure checks. */
  function Next(w: World, e: Event): (r: World)
    ensures Ticks.Calm(r.state)
    ensures Grows(w.state.found, r.state.found)
    ensures w.state.mood >= 0 ==> r.state.mood >= 0
    ensures w.state.timer >= 0 ==> r.state.timer >= 0
    ensures r.state.running ==> r.state.mood < MoodCeiling
  {
    var a := Apply(w, e);
    w.(state := Ticks.Settle(a.state), pending := a.pending)
  }

  function Run(w: World, es: seq<Event>): World
    decreases |es|
  {
    if |es| == 0 then w else Run(Next(w, es[0]), es[1..])
  }

  lemma {:induction false} RunAppend(w: World, a: seq<Event>, b: seq<Event>)
    ensures Run(w, a + b) == Run(Run(w, a), b)
    decreases |a|
  {
    if |a| == 0 {
      assert a + b == b;
    } else {
      assert (a + b)[1..] == a[1..] + b;
      RunAppend(Next(w, a[0]), a[1..], b);
    }
  }

  /** Events of a game in progress: everything but the start button and the start countdown. */
  predicate InPlay(e: Event) {
    !e.StartPressed? && !e.CountdownOver?
  }

  /**
    What holds throughout play: a pending completion means the pole has been
    reached, and a target's flag is only set once its step has been passed
    (or, for the pole, reached).
   */
  predicate Consistent(w: World) {
    && (w.pending > 0 ==> Rank(w.state.step) >= Rank(Pole))
    && (w.state.found.fuse ==> Rank(w.state.step) > Rank(Fuse))
    && (w.state.found.cat ==> Rank(w.state.step) > Rank(Cat))
    && (w.state.found.meter ==> Rank(w.state.step) > Rank(Meter))
    && (w.state.found.pole ==> Rank(w.state.step) >= Rank(Pole))
  }

  /**
    During play the step never skips: each event leaves it where it is or
    moves it to the next step, and consistency is kept.
   */
  lemma StepNeverSkips(w: World, e: Event)
    requires Consistent(w) && InPlay(e)
    ensures var r := Next(w, e);
      && (r.state.step == w.state.step || r.state.step == Succ(w.state.step))
      && Rank(r.state.step) >= Rank(w.state.step)
      && Consistent(r)
  {
    match e
    case Clicked(t, reply) =>
      Mission.ClickGuardedByStep(w.state, t, reply);
    case _ =>
  }

  lemma {:induction false} PlayNeverSkips(w: World, es: seq<Event>)
    requires Consistent(w)
    requires forall i :: 0 <= i < |es| ==> InPlay(es[i])
    ensures Consistent(Run(w, es))
    ensures Rank(Run(w, es).state.step) <= Rank(w.state.step) + |es|
    ensures Rank(Run(w, es).state.step) >= Rank(w.state.step)
    decreases |es|
  {
    if |es| > 0 {
      StepNeverSkips(w, es[0]);
      PlayNeverSkips(Next(w, es[0]), es[1..]);
    }
  }

  /**
    The pole's completion timer is never cancelled, so a completion scheduled
    before the start button still fires afterwards: the restarted game is idle
    with a completion pending, which is not a consistent world, and that
    completion moves it from idle straight to done and shows the victory.
   */
  lemma PendingCompletionSkipsAfterRestart(w: World)
    requires w.pending > 0
    ensures var s := Next(w, StartPressed);
      && s.state.step == Idle && s.pending == w.pending && !Consistent(s)
      && (Ticks.Calm(Mission.Start(w.state)) ==> s.state.running)
      && Next(s, PoleCompleted).state.step == Done
      && Next(s, PoleCompleted).state.overlay == Ended(Victory)
  {
  }

  /** After the meter, two pole clicks, one completion and a restart, the game runs idle with one completion pending. */
  const RestartMoves := [
    Clicked(MeterBox, Mission.Typed(Mission.OfficeNumber)),
    Clicked(UtilityPole, Mission.Dismissed),
    Clicked(UtilityPole, Mission.Dismissed),
    PoleCompleted,
    StartPressed
  ]

  /**
    The skip is reachable from the opening: the second completion lands on the
    restarted game and ends it as a victory with the step at done.
   */
  lemma RestartedGameCompletesAtOnce()
    ensures Run(Opening, OpeningMoves + RestartMoves) == World(State(Idle, 0, 90, true, Found(true, true, true, true), Hidden), 1)
    ensures Next(Run(Opening, OpeningMoves + RestartMoves), PoleCompleted).state
      == State(Done, 0, 90, false, Found(true, true, true, true), Ended(Victory))
  {
    OpeningReachesMeter();
    var w := Run(Opening, OpeningMoves);
    var w1 := Next(w, RestartMoves[0]);
    var w2 := Next(w1, RestartMoves[1]);
    var w3 := Next(w2, RestartMoves[2]);
    var w4 := Next(w3, RestartMoves[3]);
    var w5 := Next(w4, RestartMoves[4]);
    assert Run(w4, RestartMoves[4..]) == w5 by {
      assert RestartMoves[4..][1..] == [];
    }
    assert Run(w3, RestartMoves[3..]) == w5 by {
      assert RestartMoves[3..][1..] == RestartMoves[4..];
    }
    assert Run(w2, RestartMoves[2..]) == w5 by {
      assert RestartMoves[2..][1..] == RestartMoves[3..];
    }
    assert Run(w1, RestartMoves[1..]) == w5 by {
      assert RestartMoves[1..][1..] == RestartMoves[2..];
    }
    RunAppend(Opening, OpeningMoves, RestartMoves);
  }

  /**
    A completion ignores whether the game still runs, so one that fires after
    a time-up or a meltdown replaces that failure with a victory.
   */
  lemma LateCompletionTurnsFailureIntoVictory(w: World)
    requires w.pending > 0
    requires w.state.overlay == Ended(TimeUp) || w.state.overlay == Ended(Meltdown)
    ensures Next(w, PoleCompleted).state.overlay == Ended(Victory)
    ensures Next(w, PoleCompleted).state.step == Done
    ensures Next(w, PoleCompleted).pending == w.pending - 1
  {
  }

  /** Every change to the mood is even and the caps 0 and 100 are even, so an even mood stays even. */
  lemma NextKeepsMoodEven(w: World, e: Event)
    requires w.state.mood % 2 == 0
    ensures Next(w, e).state.mood % 2 == 0
  {
  }

  lemma {:induction false} RunKeepsMoodEven(w: World, es: seq<Event>)
    requires w.state.mood % 2 == 0
    ensures Run(w, es).state.mood % 2 == 0
    decreases |es|
  {
    if |es| > 0 {
      NextKeepsMoodEven(w, es[0]);
      RunKeepsMoodEven(Next(w, es[0]), es[1..]);
    }
  }

  /**
    From an even mood of at most 100 the mood passes 100 only through a
    wrong answer at the meter of a stopped game: while the game runs the mood
    is at most 88, and no other event raises it past the cap.
   */
  lemma OnlyStoppedMeterClickPassesMoodMax(w: World, e: Event)
    requires Ticks.Calm(w.state) && w.state.mood % 2 == 0 && w.state.mood <= MoodMax
    requires Next(w, e).state.mood > MoodMax
    ensures e.Clicked? && e.target == MeterBox && e.reply != Mission.Typed(Mission.OfficeNumber)
    ensures !w.state.running && w.state.step == Meter && w.state.mood >= MoodCeiling
  {
  }

  /** The start button keeps every found-flag, so a won game restarts idle with all four flags set. */
  lemma RestartKeepsFlags(w: World)
    requires w.state.found == Found(true, true, true, true)
    ensures Next(w, StartPressed).state.step == Idle
    ensures Next(w, StartPressed).state.found == w.state.found
    ensures !Consistent(Next(w, StartPressed))
  {
  }

  /** Two clicks on the pole schedule two completions, and the second one lowers the mood again. */
  lemma DoubleClickOnPoleWinsTwice(w: World)
    requires w.state.step == Pole && w.pending == 0 && w.state.mood >= 60
    ensures var c := Run(w, [Clicked(UtilityPole, Mission.Dismissed), Clicked(UtilityPole, Mission.Dismissed)]);
      && c.pending == 2
      && Run(c, [PoleCompleted, PoleCompleted]).state.mood == w.state.mood - 60
  {
    var c1 := Next(w, Clicked(UtilityPole, Mission.Dismissed));
    var c2 := Next(c1, Clicked(UtilityPole, Mission.Dismissed));
    assert Run(w, [Clicked(UtilityPole, Mission.Dismissed), Clicked(UtilityPole, Mission.Dismissed)]) == c2 by {
      assert Run(c2, []) == c2;
    }
    var d1 := Next(c2, PoleCompleted);
    var d2 := Next(d1, PoleCompleted);
    assert Run(c2, [PoleCompleted, PoleCompleted]) == d2 by {
      assert Run(d2, []) == d2;
    }
  }

  /** The opening moves: start, the countdown, the fuse and the cat. */
  const OpeningMoves := [StartPressed, CountdownOver, Clicked(FuseBox, Mission.Dismissed), Clicked(CatBlocker, Mission.Dismissed)]

  /**
    Mood is not kept at or below 100: after a meltdown at the meter step the
    meter can still be clicked, and a dismissed prompt adds 12 to a mood of 90.
   */
  lemma MoodCanPassMoodMax()
    ensures Run(Opening, OpeningMoves + seq(43, i => MoodTicked) + [Clicked(MeterBox, Mission.Dismissed)]).state.mood == 102
  {
    var w := Run(Opening, OpeningMoves);
    OpeningReachesMeter();
    var ticks := seq(43, i => MoodTicked);
    MoodTicksAreMoodSteps(w, 43);
    Ticks.MoodClimbs(w.state, 43);
    var m := Run(w, ticks);
    var last := [Clicked(MeterBox, Mission.Dismissed)];
    assert Run(m, last) == Next(m, last[0]) by {
      assert Run(Next(m, last[0]), []) == Next(m, last[0]);
    }
    RunAppend(Opening, OpeningMoves, ticks);
    RunAppend(Opening, OpeningMoves + ticks, last);
  }

  /** Start, countdown, fuse and cat leave a running game at the meter with mood 14 - 10 = 4. */
  lemma OpeningReachesMeter()
    ensures Run(Opening, OpeningMoves) == World(State(Meter, 4, 90, true, Found(true, true, false, false), Hidden), 0)
  {
    var w1 := Next(Opening, StartPressed);
    var w2 := Next(w1, CountdownOver);
    var w3 := Next(w2, Clicked(FuseBox, Mission.Dismissed));
    var w4 := Next(w3, Clicked(CatBlocker, Mission.Dismissed));
    assert Run(w4, []) == w4;
    assert OpeningMoves[1..][1..][1..][1..] == [];
  }

  /** A run of mood ticks is the tick-and-check step repeated. */
  lemma {:induction false} MoodTicksAreMoodSteps(w: World, k: nat)
    ensures Run(w, seq(k, i => MoodTicked)).state == Ticks.MoodSteps(w.state, k)
    ensures Run(w, seq(k, i => MoodTicked)).pending == w.pending
    decreases k
  {
    if k > 0 {
      var es := seq(k, i => MoodTicked);
      assert es[0] == MoodTicked;
      assert es[1..] == seq(k - 1, i => MoodTicked);
      MoodTicksAreMoodSteps(Next(w, MoodTicked), k - 1);
    }
  }
}
