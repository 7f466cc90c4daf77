/**
 * The single-frame exposure of a simulated camera: start, stop, abort, close and the
 * readout, which sleeps without the lock while the exposure runs. `Device` specifies the
 * in-place `SimulatedCamera`; a run interleaves any number of readers with everything else.
 */
module Exposure {
  import opened Common
  import opened FrameGeometry

  datatype Metadata = Metadata(width: nat, height: nat, bits: nat, channels: nat)

  /** How many bytes a frame of this geometry has; none for geometry that names no frame. */
  function ImageBytes(m: Metadata): nat {
    match NewFrame(m.width, m.height, m.channels, if m.bits <= 8 then 1 else 2)
    case None => 0
    case Some(f) => f.len
  }

  /** Times are microseconds. `geometry` is what the next exposure will use. */
  datatype Device = Device(
    open: bool, geometry: Metadata, setting: Option<nat>, duration: nat,
    started: Option<nat>, image: Option<Bytes>, metadata: Option<Metadata>)

  function Elapsed(now: nat, start: nat): nat {
    if now >= start then now - start else 0
  }

  predicate Complete(d: Device, now: nat) {
    d.started.None? || Elapsed(now, d.started.value) >= d.duration
  }

  /** The vendor's 32-bit remainder saturates. */
  function RemainingUs(d: Device, now: nat): nat {
    if d.started.None? || Elapsed(now, d.started.value) >= d.duration then 0
    else
      var left := d.duration - Elapsed(now, d.started.value);
      if left <= U32_MAX then left else U32_MAX
  }

  function Started(d: Device, pixels: Bytes, now: nat): Device {
    d.(duration := if d.setting.Some? then d.setting.value else d.duration,
       image := Some(pixels), metadata := Some(d.geometry), started := Some(now))
  }

  function Stopped(d: Device): Device {
    d.(started := None)
  }

  function Discarded(d: Device): Device {
    d.(started := None, image := None, metadata := None)
  }

  datatype Reading =
    | Image(info: Metadata, bytes: Bytes)
    | NoAnswer
    | NoImage
    | TooSmall(needed: nat, got: nat)
    | NoMetadata

  /** What the readout answers once the exposure is complete. */
  function Readout(d: Device, room: nat): Reading {
    if d.image.None? then NoImage
    else if room < |d.image.value| then TooSmall(|d.image.value|, room)
    else if d.metadata.None? then NoMetadata
    else Image(d.metadata.value, d.image.value)
  }

  function AfterReadout(d: Device, room: nat): Device {
    match Readout(d, room)
    case Image(_, _) => Discarded(d)
    case NoMetadata => d.(image := None)
    case _ => d
  }

  // --- in place --------------------------------------------------------------

  class SimulatedCamera {
    var open: bool
    var geometry: Metadata
    var setting: Option<nat>
    var duration: nat
    var started: Option<nat>
    var image: Option<Bytes>
    var metadata: Option<Metadata>

    ghost function Value(): Device
      reads this
    {
      Device(open, geometry, setting, duration, started, image, metadata)
    }

    constructor (geometry: Metadata, setting: Option<nat>)
      ensures Value() == Device(false, geometry, setting, 1000, None, None, None)
    {
      open, duration, started, image, metadata := false, 1000, None, None, None;
      this.geometry, this.setting := geometry, setting;
    }

    method StartExposure(pixels: Bytes, now: nat)
      modifies this
      ensures Value() == Started(old(Value()), pixels, now)
    {
      if setting.Some? {
        duration := setting.value;
      }
      image := Some(pixels);
      metadata := Some(geometry);
      started := Some(now);
    }

    method StopExposure()
      modifies this`started
      ensures Value() == Stopped(old(Value()))
    {
      started := None;
    }

    method AbortExposure()
      modifies this
      ensures Value() == Discarded(old(Value()))
    {
      started := None;
      image := None;
      metadata := None;
    }

    /** Copies the frame into the front of the caller's buffer; a short buffer loses nothing. */
    method Deliver(buf: array<byte>) returns (r: Reading)
      modifies this, buf
      ensures r == Readout(old(Value()), buf.Length) && Value() == AfterReadout(old(Value()), buf.Length)
      ensures r.Image? ==> |r.bytes| <= buf.Length && buf[..|r.bytes|] == r.bytes && buf[|r.bytes|..] == old(buf[|r.bytes|..])
      ensures r.TooSmall? || r.NoImage? ==> buf[..] == old(buf[..]) && Value() == old(Value())
    {
      if image.None? {
        return NoImage;
      }
      var bytes := image.value;
      if buf.Length < |bytes| {
        return TooSmall(|bytes|, buf.Length);
      }
      for i := 0 to |bytes|
        invariant buf[..i] == bytes[..i]
        invariant buf[|bytes|..] == old(buf[|bytes|..])
        invariant Value() == old(Value())
      {
        buf[i] := bytes[i];
      }
      assert buf[..|bytes|] == bytes[..|bytes|] == bytes;
      image := None;
      if metadata.None? {
        return NoMetadata;
      }
      r := Image(metadata.value, bytes);
      metadata := None;
      started := None;
    }
  }

  // --- runs ------------------------------------------------------------------

  /** A `get_single_frame` with room for `room` bytes. */
  datatype Reader = Sleeping(room: nat, until: nat) | Returned(reading: Reading)

  /** Which fate a started frame met. */
  datatype Fate = Held | Delivered | Lost
  datatype Exposed = Exposed(fate: Fate, info: Metadata, bytes: Bytes)

  /** `frames` records every exposure started, in order; a held frame is the last one. */
  datatype State = State(
    dev: Device, now: nat, onBus: bool, closeFails: bool,
    frames: seq<Exposed>, readers: seq<Reader>)

  function Initial(geometry: Metadata, setting: Option<nat>): State {
    State(Device(false, geometry, setting, 1000, None, None, None), 0, true, false, [], [])
  }

  /**
   * Open and close look at the open flag before they take the lock, so what they saw
   * may be stale by the time they act: `seen` is any value.
   */
  datatype Action =
    | Tick(dt: nat)
    | Environment(onBus: bool, closeFails: bool)
    | Open(seen: bool)
    | Close(seen: bool)
    | SetGeometry(geometry: Metadata)
    | SetExposure(us: nat)
    | Start(pixels: Bytes)
    | Stop
    | Abort
    | Read(room: nat)
    | Resume(reader: nat)

  predicate Answers(s: State) {
    s.dev.open && s.onBus
  }

  predicate Enabled(s: State, a: Action) {
    match a
    case Start(pixels) => |pixels| == ImageBytes(s.dev.geometry)
    case Resume(i) => i < |s.readers| && s.readers[i].Sleeping? && s.readers[i].until <= s.now
    case _ => true
  }

  predicate EndsHeld(frames: seq<Exposed>) {
    frames != [] && frames[|frames| - 1].fate == Held
  }

  /** The held frame, if there is one, meets its fate. */
  function Settle(frames: seq<Exposed>, fate: Fate): seq<Exposed> {
    if EndsHeld(frames) then frames[|frames| - 1 := frames[|frames| - 1].(fate := fate)] else frames
  }

  /** One pass of the readout loop under the lock: sleep on, or read out. */
  function Pass(s: State, room: nat): (State, Reader) {
    if !Complete(s.dev, s.now) then (s, Sleeping(room, s.now + RemainingUs(s.dev, s.now)))
    else
      var r := Readout(s.dev, room);
      (s.(dev := AfterReadout(s.dev, room), frames := if r.Image? then Settle(s.frames, Delivered) else s.frames), Returned(r))
  }

  function Next(s: State, a: Action): State
    requires Enabled(s, a)
  {
    match a
    case Tick(dt) => s.(now := s.now + dt)
    case Environment(onBus, closeFails) => s.(onBus := onBus, closeFails := closeFails)
    case Open(seen) => if seen || !s.onBus then s else s.(dev := s.dev.(open := true))
    case Close(seen) =>
      if !seen || s.closeFails then s
      else s.(dev := Discarded(s.dev).(open := false), frames := Settle(s.frames, Lost))
    case SetGeometry(g) => if Answers(s) then s.(dev := s.dev.(geometry := g)) else s
    case SetExposure(us) => if Answers(s) then s.(dev := s.dev.(setting := Some(us), duration := us)) else s
    case Start(pixels) =>
      if Answers(s) then s.(dev := Started(s.dev, pixels, s.now), frames := Settle(s.frames, Lost) + [Exposed(Held, s.dev.geometry, pixels)]) else s
    case Stop => if Answers(s) then s.(dev := Stopped(s.dev)) else s
    case Abort => if Answers(s) then s.(dev := Discarded(s.dev), frames := Settle(s.frames, Lost)) else s
    case Read(room) =>
      if !Answers(s) then s.(readers := s.readers + [Returned(NoAnswer)])
      else
        var (t, reader) := Pass(s, room);
        t.(readers := s.readers + [reader])
    case Resume(i) =>
      var (t, reader) := Pass(s, s.readers[i].room);
      t.(readers := s.readers[i := reader])
  }

  function Run(s: State, actions: seq<Action>): Option<State> {
    if actions == [] then Some(s)
    else
      match Run(s, actions[..|actions| - 1])
      case None => None
      case Some(t) => if Enabled(t, actions[|actions| - 1]) then Some(Next(t, actions[|actions| - 1])) else None
  }

  // --- what every run keeps --------------------------------------------------

  /** Image and metadata come and go together. */
  predicate Together(d: Device) {
    && (d.image.Some? <==> d.metadata.Some?)
    && (d.started.Some? ==> d.image.Some?)
  }

  /** The image has the size of the geometry its metadata names. */
  predicate Sized(d: Device) {
    d.image.Some? && d.metadata.Some? ==> |d.image.value| == ImageBytes(d.metadata.value)
  }

  /** The device holds the last exposure started, or none; no earlier one is still held. */
  ghost predicate LastHeld(frames: seq<Exposed>, d: Device) {
    && (d.image.Some? <==> EndsHeld(frames))
    && (d.image.Some? && d.metadata.Some? ==>
          frames[|frames| - 1] == Exposed(Held, d.metadata.value, d.image.value))
    && (forall i :: 0 <= i < |frames| - 1 ==> frames[i].fate != Held)
  }

  ghost predicate NoneBereft(readers: seq<Reader>) {
    forall i :: 0 <= i < |readers| ==> readers[i] != Returned(NoMetadata)
  }

  ghost predicate DeviceInv(s: State) {
    && Together(s.dev)
    && (s.dev.image.Some? ==> s.dev.open)
    && LastHeld(s.frames, s.dev)
  }

  ghost predicate Inv(s: State) {
    DeviceInv(s) && NoneBereft(s.readers)
  }

  lemma SettleKept(frames: seq<Exposed>, d: Device, fate: Fate)
    requires LastHeld(frames, d) && fate != Held
    ensures forall i :: 0 <= i < |Settle(frames, fate)| ==> Settle(frames, fate)[i].fate != Held
  {
  }

  lemma NextKept(s: State, a: Action)
    requires Inv(s) && Enabled(s, a)
    ensures Inv(Next(s, a))
  {
    match a
    case Read(room) => PassKept(s, room);
    case Resume(i) => PassKept(s, s.readers[i].room);
    case Start(_) => SettleKept(s.frames, s.dev, Lost);
    case Abort => SettleKept(s.frames, s.dev, Lost);
    case Close(_) => SettleKept(s.frames, s.dev, Lost);
    case _ =>
  }

  lemma PassKept(s: State, room: nat)
    requires DeviceInv(s)
    ensures DeviceInv(Pass(s, room).0) && Pass(s, room).1 != Returned(NoMetadata)
    ensures Pass(s, room).0.readers == s.readers
  {
    SettleKept(s.frames, s.dev, Delivered);
  }

  lemma SizeKept(s: State, a: Action)
    requires Together(s.dev) && Sized(s.dev) && Enabled(s, a)
    ensures Sized(Next(s, a).dev)
  {
  }

  lemma {:induction false} RunKept(geometry: Metadata, setting: Option<nat>, actions: seq<Action>)
    requires Run(Initial(geometry, setting), actions).Some?
    ensures Inv(Run(Initial(geometry, setting), actions).value) && Sized(Run(Initial(geometry, setting), actions).value.dev)
  {
    if actions != [] {
      var before, a := actions[..|actions| - 1], actions[|actions| - 1];
      RunKept(geometry, setting, before);
      NextKept(Run(Initial(geometry, setting), before).value, a);
      SizeKept(Run(Initial(geometry, setting), before).value, a);
    }
  }

  /**
   * Over every run: image and metadata are present together, a running exposure has an
   * image of the length its metadata names, and no readout ever finds an image without
   * its metadata.
   */
  lemma ImageAndMetadataTogether(geometry: Metadata, setting: Option<nat>, actions: seq<Action>)
    requires Run(Initial(geometry, setting), actions).Some?
    ensures var s := Run(Initial(geometry, setting), actions).value;
            && Together(s.dev) && Sized(s.dev)
            && (forall i :: 0 <= i < |s.readers| ==> s.readers[i] != Returned(NoMetadata))
  {
    RunKept(geometry, setting, actions);
  }

  // --- frames are neither duplicated nor conjured --------------------------

  datatype Picture = Picture(info: Metadata, bytes: Bytes)

  /** How many of the recorded exposures are the frame `f`, delivered. */
  function Out(frames: seq<Exposed>, f: Picture): nat {
    if frames == [] then 0
    else
      var last := frames[|frames| - 1];
      Out(frames[..|frames| - 1], f) + if last == Exposed(Delivered, f.info, f.bytes) then 1 else 0
  }

  function Got(r: Reader, f: Picture): nat {
    if r == Returned(Image(f.info, f.bytes)) then 1 else 0
  }

  /** How many readouts returned the frame `f`. */
  function Returns(readers: seq<Reader>, f: Picture): nat {
    if readers == [] then 0 else Returns(readers[..|readers| - 1], f) + Got(readers[|readers| - 1], f)
  }

  lemma ReturnsAppend(readers: seq<Reader>, r: Reader, f: Picture)
    ensures Returns(readers + [r], f) == Returns(readers, f) + Got(r, f)
  {
    assert (readers + [r])[..|readers|] == readers;
  }

  lemma {:induction false} ReturnsUpdate(readers: seq<Reader>, i: nat, r: Reader, f: Picture)
    requires i < |readers| && readers[i].Sleeping?
    ensures Returns(readers[i := r], f) == Returns(readers, f) + Got(r, f)
  {
    var front := readers[..|readers| - 1];
    if i == |readers| - 1 {
      assert readers[i := r][..|readers| - 1] == front;
    } else {
      assert readers[i := r][..|readers| - 1] == front[i := r];
      ReturnsUpdate(front, i, r, f);
    }
  }

  lemma OutSettled(frames: seq<Exposed>, fate: Fate, f: Picture)
    requires fate != Held
    ensures Out(Settle(frames, fate), f) == Out(frames, f) +
              if EndsHeld(frames) && fate == Delivered && frames[|frames| - 1] == Exposed(Held, f.info, f.bytes)
              then 1 else 0
  {
    if EndsHeld(frames) {
      assert Settle(frames, fate)[..|frames| - 1] == frames[..|frames| - 1];
    }
  }

  lemma OutAppend(frames: seq<Exposed>, e: Exposed, f: Picture)
    requires e.fate == Held
    ensures Out(frames + [e], f) == Out(frames, f)
  {
    assert (frames + [e])[..|frames|] == frames;
  }

  lemma PassConserves(s: State, room: nat, f: Picture)
    requires DeviceInv(s)
    ensures Out(Pass(s, room).0.frames, f) == Out(s.frames, f) + Got(Pass(s, room).1, f)
  {
    OutSettled(s.frames, Delivered, f);
  }

  /** How often the step `a` gets the frame `f` out: once, or not at all. */
  function StepGot(s: State, a: Action, f: Picture): nat
    requires Enabled(s, a)
  {
    match a
    case Read(room) => if Answers(s) then Got(Pass(s, room).1, f) else 0
    case Resume(i) => Got(Pass(s, s.readers[i].room).1, f)
    case _ => 0
  }

  lemma StepGotIsNew(s: State, a: Action, f: Picture)
    requires Enabled(s, a)
    ensures Returns(Next(s, a).readers, f) == Returns(s.readers, f) + StepGot(s, a, f)
  {
    match a
    case Read(room) => ReturnsAppend(s.readers, if Answers(s) then Pass(s, room).1 else Returned(NoAnswer), f);
    case Resume(i) => ReturnsUpdate(s.readers, i, Pass(s, s.readers[i].room).1, f);
    case _ =>
  }

  /** What one step marks delivered is what it got out. */
  lemma RecordsFollow(s: State, a: Action, f: Picture)
    requires DeviceInv(s) && Enabled(s, a)
    ensures Out(Next(s, a).frames, f) == Out(s.frames, f) + StepGot(s, a, f)
  {
    match a
    case Read(room) => PassConserves(s, room, f);
    case Resume(i) => PassConserves(s, s.readers[i].room, f);
    case Start(pixels) =>
      OutSettled(s.frames, Lost, f);
      OutAppend(Settle(s.frames, Lost), Exposed(Held, s.dev.geometry, pixels), f);
    case _ => OutSettled(s.frames, Lost, f);
  }

  /**
   * Conservation: over every run each frame came out of readouts exactly as often as it
   * is recorded as an exposure delivered, with the pixels that exposure was started with
   * and the geometry of that moment; every other exposure was lost, but for the last one,
   * which the device holds unchanged or not at all.
   */
  lemma {:induction false} FramesAreConserved(geometry: Metadata, setting: Option<nat>, actions: seq<Action>, f: Picture)
    requires Run(Initial(geometry, setting), actions).Some?
    ensures var s := Run(Initial(geometry, setting), actions).value;
            Returns(s.readers, f) == Out(s.frames, f) && LastHeld(s.frames, s.dev)
  {
    RunKept(geometry, setting, actions);
    if actions != [] {
      var before, a := actions[..|actions| - 1], actions[|actions| - 1];
      FramesAreConserved(geometry, setting, before, f);
      RunKept(geometry, setting, before);
      var s := Run(Initial(geometry, setting), before).value;
      StepGotIsNew(s, a, f);
      RecordsFollow(s, a, f);
    }
  }

  /** Exactly the starts that are answered add a record, of the pixels and geometry of that moment. */
  lemma RecordsAreStarts(s: State, a: Action)
    requires Inv(s) && Enabled(s, a)
    ensures |Next(s, a).frames| == |s.frames| + if a.Start? && Answers(s) then 1 else 0
    ensures forall i :: 0 <= i < |s.frames| ==>
              Next(s, a).frames[i] == s.frames[i].(fate := Next(s, a).frames[i].fate)
              && (s.frames[i].fate != Held ==> Next(s, a).frames[i].fate == s.frames[i].fate)
    ensures a.Start? && Answers(s) ==>
              Next(s, a).frames[|s.frames|] == Exposed(Held, s.dev.geometry, a.pixels)
  {
  }

  lemma NothingToRead(s: State, a: Action, f: Picture)
    requires Enabled(s, a) && s.dev.image.None? && !a.Start?
    ensures Next(s, a).dev.image.None? && StepGot(s, a, f) == 0
  {
  }

  /**
   * After an abort, a close or a delivery the image is gone; from there no run without a
   * new start gets a frame out.
   */
  lemma {:induction false} NoFrameWithoutAStart(s: State, more: seq<Action>, f: Picture)
    requires Inv(s) && s.dev.image.None? && Run(s, more).Some?
    requires forall k :: 0 <= k < |more| ==> !more[k].Start?
    ensures var t := Run(s, more).value;
            Inv(t) && t.dev.image.None? && Returns(t.readers, f) == Returns(s.readers, f)
  {
    if more != [] {
      var before, a := more[..|more| - 1], more[|more| - 1];
      NoFrameWithoutAStart(s, before, f);
      var t := Run(s, before).value;
      NextKept(t, a);
      NothingToRead(t, a, f);
      StepGotIsNew(t, a, f);
    }
  }

  /** Abort, a successful close and a delivery do leave no image. */
  lemma ImageIsGone(s: State, a: Action, f: Picture)
    requires Inv(s) && Enabled(s, a)
    requires || (a.Abort? && Answers(s))
             || (a.Close? && (s.dev.open ==> a.seen) && !s.closeFails)
             || Returns(Next(s, a).readers, f) != Returns(s.readers, f)
    ensures Next(s, a).dev.image.None?
  {
    StepGotIsNew(s, a, f);
  }

  /** How a record changes in one step: lost to a start, abort or close, or delivered to a readout. */
  lemma FateStep(s: State, a: Action, n: nat)
    requires Inv(s) && Enabled(s, a) && n < |s.frames|
    ensures n < |Next(s, a).frames|
    ensures var e, now := s.frames[n], Next(s, a).frames[n];
            && now == e.(fate := now.fate)
            && (now.fate == Held ==> e.fate == Held)
            && (now.fate == Lost && e.fate != Lost ==> a.Start? || a.Abort? || a.Close?)
            && (now.fate == Delivered && e.fate != Delivered ==> StepGot(s, a, Picture(e.info, e.bytes)) == 1)
  {
    RecordsAreStarts(s, a);
  }

  predicate Discards(a: Action) {
    a.Start? || a.Abort? || a.Close?
  }

  /** The `n`-th record after a run: where its frame is, and why. */
  lemma {:induction false} FateRun(s: State, more: seq<Action>, n: nat)
    requires Inv(s) && Run(s, more).Some? && n < |s.frames| && s.frames[n].fate == Held
    ensures var u, e := Run(s, more).value, s.frames[n];
            && Inv(u) && n < |u.frames| && u.frames[n] == e.(fate := u.frames[n].fate)
            && (u.frames[n].fate == Lost ==> exists k :: 0 <= k < |more| && Discards(more[k]))
            && Returns(u.readers, Picture(e.info, e.bytes)) >=
                 Returns(s.readers, Picture(e.info, e.bytes)) + if u.frames[n].fate == Delivered then 1 else 0
  {
    if more != [] {
      var before, a := more[..|more| - 1], more[|more| - 1];
      FateRun(s, before, n);
      var t := Run(s, before).value;
      NextKept(t, a);
      FateStep(t, a, n);
      StepGotIsNew(t, a, Picture(s.frames[n].info, s.frames[n].bytes));
      if t.frames[n].fate == Lost {
        var k :| 0 <= k < |before| && Discards(before[k]);
        assert Discards(more[k]);
      } else if Next(t, a).frames[n].fate == Lost {
        assert Discards(more[|more| - 1]);
      }
    }
  }

  /**
   * A buffer that is too short loses nothing. The frame it was too short for is held, of
   * the size the answer names; and after any continuation it was lost to a start, abort
   * or close, or a readout returned it, or it is still held and any readout with that
   * much room returns exactly it once the exposure is done.
   */
  lemma ShortBufferLosesNothing(s: State, a: Action, room: nat, needed: nat, more: seq<Action>)
    requires Inv(s) && Enabled(s, a)
    requires (a == Read(room) && Answers(s)) || (a.Resume? && s.readers[a.reader].room == room)
    requires Pass(s, room).1 == Returned(TooSmall(needed, room)) && Run(Next(s, a), more).Some?
    ensures EndsHeld(s.frames) && |s.frames[|s.frames| - 1].bytes| == needed
    ensures var u, n := Run(Next(s, a), more).value, |s.frames| - 1;
            var f := Picture(s.frames[n].info, s.frames[n].bytes);
            && n < |u.frames|
            && match u.frames[n].fate
               case Lost => exists k :: 0 <= k < |more| && Discards(more[k])
               case Delivered => Returns(u.readers, f) > Returns(s.readers, f)
               case Held => forall enough: nat :: enough >= needed && Complete(u.dev, u.now) ==>
                              Pass(u, enough).1 == Returned(Image(f.info, f.bytes))
  {
    var n, t := |s.frames| - 1, Next(s, a);
    NextKept(s, a);
    ShortPass(s, room);
    assert t.frames == s.frames;
    StepGotIsNew(s, a, Picture(s.frames[n].info, s.frames[n].bytes));
    FateRun(t, more, n);
    HeldIsRead(Run(t, more).value, n, needed);
  }

  lemma ShortPass(s: State, room: nat)
    requires DeviceInv(s) && Pass(s, room).1.Returned? && Pass(s, room).1.reading.TooSmall?
    ensures Pass(s, room).0 == s && EndsHeld(s.frames)
    ensures |s.frames[|s.frames| - 1].bytes| == Pass(s, room).1.reading.needed
  {
  }

  lemma HeldIsRead(u: State, n: nat, needed: nat)
    requires DeviceInv(u) && n < |u.frames| && |u.frames[n].bytes| == needed
    ensures u.frames[n].fate == Held && Complete(u.dev, u.now) ==> forall enough: nat :: enough >= needed ==>
              Pass(u, enough).1 == Returned(Image(u.frames[n].info, u.frames[n].bytes))
  {
  }

  /** A sleeping reader wakes no later than the exposure it saw completes, and a longer one puts it back to sleep. */
  lemma SleepIsShort(d: Device, now: nat)
    requires !Complete(d, now) && d.started.value <= now
    ensures 0 < RemainingUs(d, now) <= U32_MAX
    ensures now + RemainingUs(d, now) <= d.started.value + d.duration
    ensures d.duration <= U32_MAX ==> Complete(d, now + RemainingUs(d, now))
  {
  }
}
