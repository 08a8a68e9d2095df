/**
  Saving and loading the game. A save records mood, countdown, step,
  running flag and found-flags; the storage slot and the JSON text are left
  to the browser, so a load starts from what the parser produced. Each
  field of a load falls back to a default when it is missing or falsy.
 */
module Persistence {
  import opened Options
  import opened GameState

  /** The parsed save; a field is `None` when it is missing or null. */
  datatype Snapshot = Snapshot(mood: Option<int>, timer: Option<int>, step: Option<real>, running: Option<bool>, found: Option<Found>)

  /** The storage slot as a load finds it: nothing saved, text that does not parse, or a parsed save. */
  datatype Slot = Empty | Unreadable | Holds(snapshot: Snapshot)

  datatype Notice = NoSave | LoadFailed | LoadOk

  datatype Loaded = Loaded(state: State, notice: Notice)

  function Save(s: State): (snap: Snapshot)
    ensures snap.mood == Some(s.mood) && snap.timer == Some(s.timer) && snap.running == Some(s.running)
    ensures snap.found == Some(s.found)
    ensures snap.step.Some? && DecodeStep(snap.step.value) == Some(s.step)
  {
    CodeFollowsRank(s.step, s.step);
    Snapshot(Some(s.mood), Some(s.timer), Some(Code(s.step)), Some(s.running), Some(s.found))
  }

  /** `x || d` on a number: a missing value and 0 both give `d`. */
  function NumberOr(x: Option<int>, d: int): (r: int)
    ensures x.Some? && x.value != 0 ==> r == x.value
    ensures (x.None? || x == Some(0)) ==> r == d
  {
    if x.Some? && x.value != 0 then x.value else d
  }

  /**
    Restores a save over the current state `cur`. Without a save, or with
    one that cannot be read, nothing changes. Mood falls back to 0, the
    countdown to 90 (also when it was saved as 0), the step to idle, the
    running flag to false and the flags to the current ones. The overlay is
    not saved and stays as it is.
   */
  function Load(cur: State, slot: Slot): (r: Loaded)
    ensures r.notice != LoadOk ==> r.state == cur
    ensures slot.Empty? ==> r.notice == NoSave
    ensures slot.Unreadable? ==> r.notice == LoadFailed
    ensures r.notice == LoadOk ==> r.state.overlay == cur.overlay && r.state.timer != 0
    ensures slot.Holds? ==>
      var snap := slot.snapshot;
      && (r.notice == LoadOk <==> DecodeStep(if snap.step.Some? then snap.step.value else 0.0).Some?)
      && (r.notice != LoadOk ==> r.notice == LoadFailed)
    ensures slot.Holds? && r.notice == LoadOk ==>
      var snap := slot.snapshot;
      && (snap.mood.None? ==> r.state.mood == 0)
      && (snap.mood.Some? ==> r.state.mood == snap.mood.value)
      && ((snap.timer.None? || snap.timer == Some(0)) ==> r.state.timer == 90)
      && (snap.timer.Some? && snap.timer.value != 0 ==> r.state.timer == snap.timer.value)
      && (snap.step.None? ==> r.state.step == Idle)
      && (snap.step.Some? ==> Code(r.state.step) == snap.step.value)
      && (r.state.running <==> snap.running == Some(true))
      && (snap.found.None? ==> r.state.found == cur.found)
      && (snap.found.Some? ==> r.state.found == snap.found.value)
  {
    match slot
    case Empty => Loaded(cur, NoSave)
    case Unreadable => Loaded(cur, LoadFailed)
    case Holds(snap) =>
      var code := if snap.step.Some? then snap.step.value else 0.0;
      match DecodeStep(code)
      case None => Loaded(cur, LoadFailed)
      case Some(st) =>
        var running := snap.running.Some? && snap.running.value;
        var found := if snap.found.Some? then snap.found.value else cur.found;
        Loaded(State(st, NumberOr(snap.mood, 0), NumberOr(snap.timer, 90), running, found, cur.overlay), LoadOk)
  }

  /**
    Loading what was saved gives back the saved state, except that a
    countdown saved at 0 comes back as 90 and the overlay is the current one.
   */
  lemma LoadAfterSave(cur: State, s: State)
    ensures Load(cur, Holds(Save(s))) == Loaded(s.(timer := if s.timer == 0 then 90 else s.timer, overlay := cur.overlay), LoadOk)
  {
    CodeFollowsRank(s.step, s.step);
  }

  /** The round trip is exact precisely when the countdown was not saved at 0. */
  lemma RoundTripExactUnlessTimerZero(s: State)
    ensures Load(s, Holds(Save(s))).state == s <==> s.timer != 0
  {
    LoadAfterSave(s, s);
  }
}
