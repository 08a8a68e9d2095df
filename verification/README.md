# Blackout minigame core, in Dafny

A model of the game logic inside `App.tsx`, a React component for a browser
minigame. During a power cut the player sweeps a flashlight over a dark scene
and must click, in a fixed order, the fuse box, the cat in the way, the meter
and the utility pole. The countdown must not run out and the mood meter must
not reach its ceiling.

The model pulls that logic out of the hooks and handlers into pure functions
over one immutable state record:

- `game_state.dfy` (`GameState`): the step (`Idle | Fuse | Cat | Meter | Pole | Done`,
  stored by `App.tsx` as 0, 1, 1.5, 2, 3, 4), mood, countdown, running flag and
  found-flags. It adds the overlay, which says how the last game ended (victory,
  time up or meltdown). It also holds the four targets and the step each one
  belongs to.
- `mission.dfy` (`Mission`): start, the end of the start countdown, end of game,
  win, the delayed pole completion, the four click handlers and the phone prompt.
  The handlers are guarded by the step alone: they check neither proximity nor
  the running flag.
- `ticks.dfy` (`Ticks`): the countdown tick, the mood tick, and the two failure
  checks that follow them (`timer <= 0`, `mood >= 90`, both only while running).
- `play.dfy` (`Play`): the whole game as a sequence of events. It counts the
  pole completions that are scheduled but have not fired yet. It proves that,
  from a consistent world, the step never skips during play. It also proves that
  a completion left over from the last game makes a restarted game skip from idle
  to done, and that mood can pass 100.
- `proximity.dfy` (`Proximity`): which target the flashlight lights.
- `particles.dfy` (`Particles`): spark bursts and the per-frame particle update,
  both as a function and as the game component's backwards splice loop.
- `clock.dfy` (`Clock`): the `MM:SS` countdown display.
- `persistence.dfy` (`Persistence`): save and load, with the `||` fallbacks of
  the load.
- `options.dfy` (`Options`): the `Option` datatype.

Timers, intervals, animation frames and `Math.random` are not modelled as such.
Each periodic tick, the end of the start countdown and the delayed pole
completion is an explicit event. Random numbers are passed in as `Draw` values
in `[0, 1)`. What the player types into the phone prompt is a `Reply` parameter.
Distances are compared squared, over `real`.

Where the code behaves differently from what the game appears to intend, the model follows the code:

- `start` does not reset mood, countdown or found-flags. It only sets the game
  running, puts the step back to idle and hides the overlay. So a restart after
  a time-out fails at once (`Ticks.RestartAfterTimeUpFailsAtOnce`). After a
  restart the flags of the last game are still set (`Play.RestartKeepsFlags`).
- A click is not gated by proximity: any click on the current step's target
  counts, lit or not. Clicks also work after the game has ended.
- Mood is kept at or above 0, and so is the countdown (`Play.Next`). Mood is
  not kept at or below 100: a wrong phone number adds 12 with no cap. While the
  game runs, mood stays below 90 (`Play.Next`). Every change to mood is even, so
  an even mood stays even (`Play.RunKeepsMoodEven`). From an even mood of at most
  100, mood passes 100 only through a wrong answer at the meter after the game
  has ended (`Play.OnlyStoppedMeterClickPassesMoodMax`). This can happen
  (`Play.MoodCanPassMoodMax`).
- If both failures hold at once (as after a start with no time left and mood at
  90), the countdown check runs first and the mood check second. The meltdown
  message is therefore the one left on the overlay.
- Each pole click schedules its own completion, so a double click wins twice
  and lowers mood by 60 (`Play.DoubleClickOnPoleWinsTwice`).
- The pole's completion timer is never cancelled, and `start` puts the step
  back to idle. A completion scheduled in the last game therefore fires in the
  restarted one and moves it from idle straight to done, with a victory
  (`Play.PendingCompletionSkipsAfterRestart`). A second pole click, a completion
  and a restart reach this from the opening (`Play.RestartedGameCompletesAtOnce`).
- A completion does not check whether the game still runs. One that fires
  after a time-up or a meltdown replaces the failure with a victory
  (`Play.LateCompletionTurnsFailureIntoVictory`).

The failure checks run after every event (`Ticks.Settle`). In `App.tsx`, each
check runs only when its own inputs change. The two agree because every state
the model produces is `Calm`: neither check has anything left to do. An event
that changes neither input therefore gives a check nothing to do.

## Model

| member | source | states |
|---|---|---|
| GameState.DecodeStep | App.tsx:162 | a stored step number reads back as the step it encodes; any number that encodes no step reads as none |
| GameState.CodeFollowsRank | App.tsx:144-147 | the stored numbers 0, 1, 1.5, 2, 3, 4 grow in mission order, and each one decodes to its own step |
| GameState.TargetFor | App.tsx:99-102 | exactly the four mission steps have a target, and the target determines its step |
| GameState.Mark | App.tsx:144-147 | setting a found-flag sets that flag and leaves the other three unchanged |
| Mission.Start | App.tsx:125-127 | start hides the overlay, sets the game running and the step to idle, and leaves mood, countdown and flags as they were |
| Mission.BeginMission | App.tsx:135 | the end of the start countdown moves to the fuse step and changes nothing else |
| Mission.EndGame | App.tsx:136-140 | ending stops the game and shows the outcome; step, mood, countdown and flags are untouched |
| Mission.Win | App.tsx:141 | winning stops the game with a victory, and lowers mood by 30 but never below 0 |
| Mission.CompletePole | App.tsx:147 | the delayed pole completion reaches the last step, stops the game with a victory and floors mood - 30 at 0 |
| Mission.PhoneMood | App.tsx:149-153 | the office number lowers mood by 8, floored at 0; any other reply, a dismissed prompt included, raises it by exactly 12 with no cap |
| Mission.ClickFuse | App.tsx:144 | outside the fuse step nothing happens; at it, the fuse flag is set, the step moves to the cat, mood rises by 8 capped at 100, and 20 sparks are asked for |
| Mission.ClickCat | App.tsx:145 | outside the cat step nothing happens; at it, the cat flag is set, the step moves to the meter, mood falls by 10 floored at 0, and 14 sparks are asked for |
| Mission.ClickMeter | App.tsx:146 | outside the meter step nothing happens; at it, the meter flag is set, the step moves to the pole, and only the phone reply changes the mood |
| Mission.ClickPole | App.tsx:147 | outside the pole step nothing happens; at it, the pole flag is set and a completion is scheduled, but the step stays at the pole |
| Mission.ClickGuardedByStep | App.tsx:143-147 | a click acts exactly when its target belongs to the current step; it then sets only that target's flag and advances by one step, except at the pole |
| Mission.WrongNumberPassesMoodMax | App.tsx:150-152 | at the meter step, a wrong number from a mood above 88 leaves mood above 100 |
| Ticks.TimerTick | App.tsx:28-36 | the countdown interval exists only while running with time left, and each tick takes exactly one second off and changes nothing else |
| Ticks.MoodTick | App.tsx:38-41 | while running, a mood tick adds 2 up to 100, so it never leaves mood above 100; a stopped game is unchanged |
| Ticks.Settle | App.tsx:28-44 | after the checks neither failure is pending; the game stops exactly when it ran with time up or mood at or above 90, showing the meltdown if the mood failed and time-up otherwise; nothing else changes |
| Ticks.CountdownRuns | App.tsx:28-36 | left alone, a running game with t seconds is still running after fewer than t ticks and fails on time at the t-th, at 0 seconds |
| Ticks.MoodClimbs | App.tsx:38-44 | left alone, a running game gains 2 mood per tick and melts down exactly at the tick that brings mood to 90 |
| Ticks.MeltdownFromStartingMood | App.tsx:5 | from the starting mood of 6, the 42nd mood tick melts the game down and the 41st does not |
| Ticks.TimeUpFromStartingCountdown | App.tsx:6 | from the starting 90 seconds, the game fails on time at the 90th tick and is still running with 1 second after the 89th |
| Ticks.RestartAfterTimeUpFailsAtOnce | App.tsx:125-127 | since start does not refill the countdown, a restart with no time left ends at once with the time-up outcome |
| Play.Next | App.tsx:27-44 | after any event no failure check is pending, so a running game has mood below 90; no found-flag is ever cleared; mood and countdown never drop below 0 |
| Play.StepNeverSkips | App.tsx:143-147 | from a consistent world, during play, each event keeps the step or moves it to the next one, and a flag is only set once its step is reached |
| Play.PlayNeverSkips | App.tsx:143-147 | from a consistent world, over n events of play the step advances by at most n and never goes back |
| Play.RestartKeepsFlags | App.tsx:125-127 | restarting a game with all four flags set gives an idle game that still has all four flags |
| Play.PendingCompletionSkipsAfterRestart | App.tsx:125-147 | a restart with a completion pending gives an idle game that is not consistent, and the completion then moves it to done with a victory |
| Play.RestartedGameCompletesAtOnce | App.tsx:125-147 | from the opening, the meter, two pole clicks, one completion and a restart give a running idle game with one completion pending, which that completion ends at done |
| Play.LateCompletionTurnsFailureIntoVictory | App.tsx:141-147 | a completion that fires after a time-up or a meltdown shows the victory instead, with the step at done |
| Play.NextKeepsMoodEven | App.tsx:141-152 | every event keeps an even mood even |
| Play.RunKeepsMoodEven | App.tsx:141-152 | any sequence of events keeps an even mood even |
| Play.OnlyStoppedMeterClickPassesMoodMax | App.tsx:150-152 | from a calm world with an even mood of at most 100, an event that takes mood past 100 is a wrong answer at the meter, and the game was stopped with mood at least 90 |
| Play.DoubleClickOnPoleWinsTwice | App.tsx:147 | two pole clicks schedule two completions, and the two completions together lower mood by 60 |
| Play.OpeningReachesMeter | App.tsx:125-145 | start, countdown, fuse and cat from the initial state give a running game at the meter step with mood 4 |
| Play.MoodCanPassMoodMax | App.tsx:150-152 | a reachable game has mood 102: melt down at the meter step, then dismiss the phone prompt |
| Proximity.Center | App.tsx:82-86 | the centre lies halfway across the box, in play-area coordinates |
| Proximity.Lit | App.tsx:93-104 | at most one target is lit; a target is lit exactly when it belongs to the current step, is present, and the cursor is strictly within 120 of its centre |
| Proximity.SquaredComparisonAgrees | App.tsx:87-90 | comparing the squared distance with 120 squared agrees with comparing the Euclidean distance with 120 |
| Proximity.NearMeansWithinReach | App.tsx:87-90 | a cursor is near a box exactly when its Euclidean distance to the box's centre is below 120 |
| Proximity.LitIsWithinReachOnEachAxis | App.tsx:87-90 | a lit target's centre is less than 120 away from the cursor on each axis |
| Proximity.OnlyTheCurrentTargetLights | App.tsx:99-102 | a cursor near a target lights it exactly at that target's step |
| Particles.Spark | App.tsx:108-114 | a new spark starts at the click point with drift in [-1.5, 1.5), upward speed in [-5.4, -2.4), life in [30, 60), radius in [1, 3) and green channel in [150, 250) |
| Particles.Spawn | App.tsx:106-115 | spawning appends exactly n sparks after the untouched store, one per random draw, each at the click point with life in [30, 60) and radius in [1, 3) |
| Particles.Move | App.tsx:59 | a frame moves a particle by its old velocity, adds 0.06 to its vertical speed and takes one frame off its life |
| Particles.Advance | App.tsx:57-63 | a frame never adds particles, and every particle left after it is alive |
| Particles.NoneDroppedIffAllSurvive | App.tsx:57-63 | a frame keeps the whole store exactly when every particle outlives it |
| Particles.AdvanceSplits | App.tsx:57-63 | a frame keeps the order: the survivors of the front of the store stay in front |
| Particles.AdvanceMovesTheLiving | App.tsx:57-63 | a frame is exactly the particles whose life stays above 0, in their order, each moved once |
| Particles.AdvanceInPlace | App.tsx:57-63 | the backwards loop that updates in place and splices out dead particles computes the same frame |
| Particles.BurnsOut | App.tsx:57-63 | a store of live particles with at most k frames of life is empty after k frames |
| Particles.BurstBurnsOut | App.tsx:106-115 | every burst is gone within 60 frames |
| Clock.Digits | App.tsx:164 | the decimal form of a number is digits only, one digit below 10 and two from 10 to 99 |
| Clock.DigitsRoundTrip | App.tsx:164 | reading the decimal digits back gives the number |
| Clock.Decimal | App.tsx:164 | a number's decimal form starts with '-' exactly when it is negative, and the digits after the sign read back as its size |
| Clock.PadStart2 | App.tsx:164 | padding keeps the string at its end and fills up to two characters with '0' in front |
| Clock.FloorDiv | App.tsx:164 | the minutes are the largest whole number with 60 times it not above the seconds |
| Clock.SignedRem | App.tsx:164 | the remainder has the sign of the seconds, is smaller than 60 in size, and differs from them by a multiple of 60 |
| Clock.FormatTime | App.tsx:164 | below 6000 seconds the display has five characters, MM:SS; the seconds field is below 60 and 60 * MM + SS is the time |
| Clock.NegativeTimeShowsTwoSigns | App.tsx:164 | -5 seconds shows as "-1:-5" |
| Persistence.Save | App.tsx:161 | a save records mood, countdown, running flag and flags as they are, and a step number that decodes to the step |
| Persistence.NumberOr | App.tsx:162 | a number falls back to the default when missing and when 0 |
| Persistence.Load | App.tsx:162 | with no save or an unreadable one the state is unchanged; otherwise mood falls back to 0, the countdown to 90 when missing or 0, the step to idle when missing, the running flag is set only by a saved true, the flags fall back to the current ones, and the overlay is untouched; the load succeeds exactly when the step number names a step |
| Persistence.LoadAfterSave | App.tsx:161-162 | loading a save gives back the saved state, except that a countdown of 0 returns as 90, and the overlay stays the current one |
| Persistence.RoundTripExactUnlessTimerZero | App.tsx:161-162 | save then load is exact if and only if the countdown was not 0 |

## Left out

- React rendering, hooks and re-render scheduling: each interval tick, the start
  countdown and the delayed pole completion is an event of `Play`. Nothing runs
  concurrently.
- The start countdown's hint messages: the four one-second steps of the countdown
  are one `CountdownOver` event. `Play` lets it happen at any time, as a second
  start's countdown can.
- DOM access: the element boxes are a `map` parameter of `Proximity.Lit`, a
  missing element is a missing key, and the click point reaches `Spawn` as plain
  coordinates. Showing and hiding the cat, meter and pole elements is not
  modelled. Nor are the flashlight gradient string, canvas drawing and the
  opacity `life / 60`.
- Hint texts and their expiry timer, the overlay's titles and texts: cosmetic.
  The overlay keeps only which outcome ended the game.
- Audio (ambient loop, click, spark, error sounds) and the sound toggle: they do
  not change game state.
- `prompt`, `confirm`, `window.open`, page reload and the keyboard shortcuts.
  What the prompt returns is a `Reply` parameter. Reset reloads the page, which is
  the initial state.
- `localStorage` and `JSON.stringify`/`JSON.parse`: a load starts from what was
  already parsed.
- Persistence.Load: a saved step number that is none of 0, 1, 1.5, 2, 3, 4 counts
  as a failed load that changes nothing, because the step datatype has no value for
  it. `App.tsx` treats it as a successful load: it restores mood, countdown, running
  flag and flags with their fallbacks, takes the number as the step (which no
  handler would ever match) and shows the success hint.
- Persistence.Load: mood, countdown and flags are typed as the save writes them.
  A field of another JSON type, and a `found` object missing some flags, are not
  modelled.
- Play.StepNeverSkips: holds only from a consistent world. A completion
  left pending across a restart breaks consistency, and then the step skips
  (`Play.PendingCompletionSkipsAfterRestart`).
- Play.PlayNeverSkips: holds only from a consistent world, for the same reason
  as `Play.StepNeverSkips`.
- The overlay's markup is not part of `App.tsx` as given. The model assumes the
  end overlay does not block clicks on the targets.
- The `power` flag that `win` adds to the found-flags: it is untyped and nothing
  reads it.
- `Math.random` and `Math.hypot`: random numbers are parameters in `[0, 1)`, and
  distances are compared squared over exact reals. Floating-point rounding is not
  modelled.
- Particle colour is kept only as its green channel.
