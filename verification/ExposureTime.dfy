/**
 * When a frame comes out, told by the actions of a run alone: when the camera was open and
 * on the bus, what was asked for last, when the last answered start was and whether a stop
 * followed it.
 */
module ExposureTime {
  import opened Common
  import opened Exposure

  // --- what the actions say --------------------------------------------------

  function Clock(actions: seq<Action>): nat {
    if actions == [] then 0
    else
      var before, a := actions[..|actions| - 1], actions[|actions| - 1];
      Clock(before) + if a.Tick? then a.dt else 0
  }

  predicate BusUp(actions: seq<Action>) {
    if actions == [] then true
    else
      var before, a := actions[..|actions| - 1], actions[|actions| - 1];
      if a.Environment? then a.onBus else BusUp(before)
  }

  predicate ClosesFail(actions: seq<Action>) {
    if actions == [] then false
    else
      var before, a := actions[..|actions| - 1], actions[|actions| - 1];
      if a.Environment? then a.closeFails else ClosesFail(before)
  }

  /** Opened on the bus and not closed since. */
  predicate IsOpen(actions: seq<Action>) {
    if actions == [] then false
    else
      var before, a := actions[..|actions| - 1], actions[|actions| - 1];
      match a
      case Open(seen) => IsOpen(before) || (!seen && BusUp(before))
      case Close(seen) => IsOpen(before) && (!seen || ClosesFail(before))
      case _ => IsOpen(before)
  }

  /** A call made after these actions gets an answer. */
  predicate Answered(actions: seq<Action>) {
    IsOpen(actions) && BusUp(actions)
  }

  /** The exposure time asked for last; a millisecond if none ever was. */
  function AskedTime(setting: Option<nat>, actions: seq<Action>): nat {
    if actions == [] then
      if setting.Some? then setting.value else 1000
    else
      var before, a := actions[..|actions| - 1], actions[|actions| - 1];
      if a.SetExposure? && Answered(before) then a.us else AskedTime(setting, before)
  }

  function AskedGeometry(geometry: Metadata, actions: seq<Action>): Metadata {
    if actions == [] then geometry
    else
      var before, a := actions[..|actions| - 1], actions[|actions| - 1];
      if a.SetGeometry? && Answered(before) then a.geometry else AskedGeometry(geometry, before)
  }

  /** Action `i` is the last start that was answered. */
  ghost predicate LastStart(actions: seq<Action>, i: nat) {
    && i < |actions| && actions[i].Start? && Answered(actions[..i])
    && forall k :: i < k < |actions| && actions[k].Start? ==> !Answered(actions[..k])
  }

  /** A stop was answered after action `i`. */
  ghost predicate StoppedSince(actions: seq<Action>, i: nat) {
    exists k :: i < k < |actions| && actions[k].Stop? && Answered(actions[..k])
  }

  /** The exposure begun at action `i` is over. */
  ghost predicate Over(setting: Option<nat>, actions: seq<Action>, i: nat)
    requires i <= |actions|
  {
    StoppedSince(actions, i) || Clock(actions[..i]) + AskedTime(setting, actions) <= Clock(actions)
  }

  // --- the run agrees --------------------------------------------------------

  /** The camera's surroundings and settings are what the actions say. */
  ghost predicate Agrees(geometry: Metadata, setting: Option<nat>, actions: seq<Action>, s: State) {
    && s.now == Clock(actions) && s.onBus == BusUp(actions) && s.closeFails == ClosesFail(actions)
    && s.dev.open == IsOpen(actions) && s.dev.geometry == AskedGeometry(geometry, actions)
    && AskedTime(setting, actions) == (if s.dev.setting.Some? then s.dev.setting.value else 1000)
    && (s.dev.setting.None? ==> s.dev.duration == 1000)
    && (s.dev.started.Some? ==> s.dev.duration == AskedTime(setting, actions))
  }

  /** The device holds the frame started at action `i`, running unless it was stopped. */
  ghost predicate HoldsFrom(geometry: Metadata, actions: seq<Action>, d: Device, i: nat) {
    && LastStart(actions, i)
    && d.image == Some(actions[i].pixels) && d.metadata == Some(AskedGeometry(geometry, actions[..i]))
    && d.started == if StoppedSince(actions, i) then None else Some(Clock(actions[..i]))
  }

  ghost predicate HoldsLast(geometry: Metadata, actions: seq<Action>, d: Device) {
    d.image.Some? ==> exists i: nat :: HoldsFrom(geometry, actions, d, i)
  }

  lemma SurroundingsAfter(actions: seq<Action>, a: Action)
    ensures var after := actions + [a];
            && Clock(after) == Clock(actions) + (if a.Tick? then a.dt else 0)
            && BusUp(after) == (if a.Environment? then a.onBus else BusUp(actions))
            && ClosesFail(after) == (if a.Environment? then a.closeFails else ClosesFail(actions))
            && IsOpen(after) == match a
                                case Open(seen) => IsOpen(actions) || (!seen && BusUp(actions))
                                case Close(seen) => IsOpen(actions) && (!seen || ClosesFail(actions))
                                case _ => IsOpen(actions)
  {
    assert (actions + [a])[..|actions|] == actions;
  }

  lemma AskedAfter(geometry: Metadata, setting: Option<nat>, actions: seq<Action>, a: Action)
    ensures var after := actions + [a];
            && AskedTime(setting, after) == (if a.SetExposure? && Answered(actions) then a.us else AskedTime(setting, actions))
            && AskedGeometry(geometry, after) == (if a.SetGeometry? && Answered(actions) then a.geometry else AskedGeometry(geometry, actions))
  {
    assert (actions + [a])[..|actions|] == actions;
  }

  /** What a step does to the surroundings and the settings of the camera. */
  lemma SettingsStep(s: State, a: Action)
    requires Enabled(s, a)
    ensures var t := Next(s, a);
            && t.now == s.now + (if a.Tick? then a.dt else 0)
            && t.onBus == (if a.Environment? then a.onBus else s.onBus)
            && t.closeFails == (if a.Environment? then a.closeFails else s.closeFails)
            && (t.dev.open == match a
                              case Open(seen) => s.dev.open || (!seen && s.onBus)
                              case Close(seen) => s.dev.open && (!seen || s.closeFails)
                              case _ => s.dev.open)
            && t.dev.geometry == (if a.SetGeometry? && Answers(s) then a.geometry else s.dev.geometry)
            && t.dev.setting == (if a.SetExposure? && Answers(s) then Some(a.us) else s.dev.setting)
            && t.dev.duration == (if a.SetExposure? && Answers(s) then a.us
                                  else if a.Start? && Answers(s) && s.dev.setting.Some? then s.dev.setting.value
                                  else s.dev.duration)
            && (t.dev.started.Some? ==> s.dev.started.Some? || (a.Start? && Answers(s)))
  {
  }

  lemma AgreesStep(geometry: Metadata, setting: Option<nat>, actions: seq<Action>, s: State, a: Action)
    requires Agrees(geometry, setting, actions, s) && Enabled(s, a)
    ensures Agrees(geometry, setting, actions + [a], Next(s, a))
  {
    SurroundingsAfter(actions, a);
    AskedAfter(geometry, setting, actions, a);
    SettingsStep(s, a);
  }

  lemma PrefixOf(actions: seq<Action>, a: Action, k: nat)
    requires k <= |actions|
    ensures (actions + [a])[..k] == actions[..k]
  {
  }

  lemma LastStartGrows(actions: seq<Action>, a: Action, i: nat)
    requires LastStart(actions, i) && !(a.Start? && Answered(actions))
    ensures LastStart(actions + [a], i)
  {
    var after := actions + [a];
    PrefixOf(actions, a, i);
    forall k | i < k < |after| && after[k].Start? ensures !Answered(after[..k]) {
      PrefixOf(actions, a, k);
      assert k == |actions| ==> actions[..k] == actions;
    }
  }

  lemma StoppedGrows(actions: seq<Action>, a: Action, i: nat)
    requires i < |actions|
    ensures StoppedSince(actions + [a], i) <==> StoppedSince(actions, i) || (a.Stop? && Answered(actions))
  {
    var after := actions + [a];
    if StoppedSince(actions, i) {
      var k :| i < k < |actions| && actions[k].Stop? && Answered(actions[..k]);
      PrefixOf(actions, a, k);
      assert after[k].Stop? && Answered(after[..k]);
    }
    if a.Stop? && Answered(actions) {
      PrefixOf(actions, a, |actions|);
      assert actions[..|actions|] == actions;
      assert after[|actions|].Stop? && Answered(after[..|actions|]);
    }
    if StoppedSince(after, i) {
      var k :| i < k < |after| && after[k].Stop? && Answered(after[..k]);
      PrefixOf(actions, a, k);
      assert k == |actions| ==> actions[..k] == actions;
      assert k < |actions| ==> actions[k].Stop? && Answered(actions[..k]);
    }
  }

  /** The frame stays as it was, or the stop that is answered ends its exposure. */
  lemma HoldsGrows(geometry: Metadata, actions: seq<Action>, d: Device, after: Device, a: Action)
    requires HoldsLast(geometry, actions, d) && !(a.Start? && Answered(actions))
    requires after.image.Some? ==>
               && after.image == d.image && after.metadata == d.metadata
               && after.started == if a.Stop? && Answered(actions) then None else d.started
    ensures HoldsLast(geometry, actions + [a], after)
  {
    if after.image.Some? {
      var i: nat :| HoldsFrom(geometry, actions, d, i);
      LastStartGrows(actions, a, i);
      StoppedGrows(actions, a, i);
      PrefixOf(actions, a, i);
      assert HoldsFrom(geometry, actions + [a], after, i);
    }
  }

  lemma HoldsNew(geometry: Metadata, actions: seq<Action>, d: Device, a: Action)
    requires a.Start? && Answered(actions)
    requires d.image == Some(a.pixels) && d.metadata == Some(AskedGeometry(geometry, actions)) && d.started == Some(Clock(actions))
    ensures HoldsLast(geometry, actions + [a], d)
  {
    PrefixOf(actions, a, |actions|);
    assert actions[..|actions|] == actions;
    assert HoldsFrom(geometry, actions + [a], d, |actions|);
  }

  /** What a step other than a start does to the frame. */
  lemma FrameStep(s: State, a: Action)
    requires Enabled(s, a) && !(a.Start? && Answers(s))
    ensures var d, after := s.dev, Next(s, a).dev;
            after.image.Some? ==>
              && after.image == d.image && (d.metadata.Some? ==> after.metadata == d.metadata)
              && after.started == if a.Stop? && Answers(s) then None else d.started
  {
  }

  lemma {:induction false} RunAgrees(geometry: Metadata, setting: Option<nat>, actions: seq<Action>)
    requires Run(Initial(geometry, setting), actions).Some?
    ensures var s := Run(Initial(geometry, setting), actions).value;
            Agrees(geometry, setting, actions, s) && HoldsLast(geometry, actions, s.dev)
  {
    if actions != [] {
      var before, a := actions[..|actions| - 1], actions[|actions| - 1];
      RunAgrees(geometry, setting, before);
      RunKept(geometry, setting, before);
      assert before + [a] == actions;
      var s := Run(Initial(geometry, setting), before).value;
      AgreesStep(geometry, setting, before, s, a);
      if a.Start? && Answers(s) {
        HoldsNew(geometry, before, Next(s, a).dev, a);
      } else {
        FrameStep(s, a);
        HoldsGrows(geometry, before, s.dev, Next(s, a).dev, a);
      }
    }
  }

  lemma {:induction false} ClockGrows(actions: seq<Action>, i: nat)
    requires i <= |actions|
    ensures Clock(actions[..i]) <= Clock(actions)
  {
    if i == |actions| {
      assert actions[..i] == actions;
    } else {
      assert actions[..|actions| - 1][..i] == actions[..i];
      ClockGrows(actions[..|actions| - 1], i);
    }
  }

  lemma CompleteIffOver(geometry: Metadata, setting: Option<nat>, actions: seq<Action>, s: State, i: nat)
    requires Agrees(geometry, setting, actions, s) && HoldsFrom(geometry, actions, s.dev, i)
    ensures Complete(s.dev, s.now) <==> Over(setting, actions, i)
  {
    ClockGrows(actions, i);
  }

  // --- when a frame comes out --------------------------------------------------

  /**
   * A frame comes out only of the last answered start, with its pixels and the geometry
   * asked for before it, and only once the exposure time asked for last has passed since,
   * or a stop was answered.
   */
  lemma DeliveredOnlyWhenDone(geometry: Metadata, setting: Option<nat>, actions: seq<Action>, a: Action, f: Picture) returns (i: nat)
    requires Run(Initial(geometry, setting), actions).Some?
    requires var s := Run(Initial(geometry, setting), actions).value;
             Enabled(s, a) && Returns(Next(s, a).readers, f) != Returns(s.readers, f)
    ensures LastStart(actions, i) && f == Picture(AskedGeometry(geometry, actions[..i]), actions[i].pixels)
    ensures Over(setting, actions, i)
  {
    var s := Run(Initial(geometry, setting), actions).value;
    RunAgrees(geometry, setting, actions);
    ReadWhenComplete(s, a, f);
    i :| HoldsFrom(geometry, actions, s.dev, i);
    CompleteIffOver(geometry, setting, actions, s, i);
  }

  lemma ReadWhenComplete(s: State, a: Action, f: Picture)
    requires Enabled(s, a) && Returns(Next(s, a).readers, f) != Returns(s.readers, f)
    ensures Complete(s.dev, s.now) && s.dev.image == Some(f.bytes) && s.dev.metadata == Some(f.info)
  {
    StepGotIsNew(s, a, f);
  }

  /** What one pass of a readout finds, told by the actions. */
  ghost predicate PassIs(geometry: Metadata, setting: Option<nat>, actions: seq<Action>, i: nat, room: nat, reader: Reader)
    requires i < |actions| && actions[i].Start?
  {
    var pixels, due := actions[i].pixels, Clock(actions[..i]) + AskedTime(setting, actions);
    if !Over(setting, actions, i) then
      && reader.Sleeping? && reader.room == room && Clock(actions) < reader.until <= due
      && (due <= Clock(actions) + U32_MAX ==> reader.until == due)
    else if room < |pixels| then reader == Returned(TooSmall(|pixels|, room))
    else reader == Returned(Image(AskedGeometry(geometry, actions[..i]), pixels))
  }

  /**
   * Conversely, as long as a frame is held a readout gets it exactly once its exposure is
   * over and the buffer has room; a short buffer is told the size; before that the reader
   * sleeps, and no longer than until it is due.
   */
  lemma HeldIsDelivered(geometry: Metadata, setting: Option<nat>, actions: seq<Action>, room: nat) returns (i: nat)
    requires Run(Initial(geometry, setting), actions).Some? && EndsHeld(Run(Initial(geometry, setting), actions).value.frames)
    ensures LastStart(actions, i)
    ensures PassIs(geometry, setting, actions, i, room, Pass(Run(Initial(geometry, setting), actions).value, room).1)
  {
    var s := Run(Initial(geometry, setting), actions).value;
    RunAgrees(geometry, setting, actions);
    RunKept(geometry, setting, actions);
    i :| HoldsFrom(geometry, actions, s.dev, i);
    CompleteIffOver(geometry, setting, actions, s, i);
    ClockGrows(actions, i);
  }

  /** With no frame held a readout finds no image, and a camera that is closed or off the bus does not answer. */
  lemma OtherwiseNothing(geometry: Metadata, setting: Option<nat>, actions: seq<Action>, room: nat)
    requires Run(Initial(geometry, setting), actions).Some?
    ensures var s := Run(Initial(geometry, setting), actions).value;
            && (!EndsHeld(s.frames) ==> Pass(s, room).1 == Returned(NoImage))
            && (Answered(actions) <==> Answers(s))
            && (Next(s, Read(room)).readers == s.readers + [if Answered(actions) then Pass(s, room).1 else Returned(NoAnswer)])
  {
    RunAgrees(geometry, setting, actions);
    RunKept(geometry, setting, actions);
  }
}
