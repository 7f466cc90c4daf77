/**
 * Asking cameras for a filter wheel: open, ask up to three times, close, for each id of a
 * list. Cameras are real, and answer as they please, or simulated; a world says, call by
 * call, what the bus and the vendor's library do. No other thread acts meanwhile.
 */
module FilterWheelProbe {
  import opened Common

  type Id = string

  /** Moments number the calls made; a world may change its mind at every one. */
  datatype World = World(onBus: nat -> bool, closes: nat -> bool, says: nat -> Option<bool>)

  datatype Device = Real | Simulated(slots: u32, misses: u32)

  /** `asks` counts the plug queries a simulated camera answered since it was opened. */
  datatype Camera = Camera(id: Id, device: Device, open: bool, asks: u32)

  datatype ProbeError = UnknownCameraId(id: Id) | OpenFailed | CloseFailed

  type Outcome = Result<bool, ProbeError>

  const PROBE_ATTEMPTS: nat := 3

  function SaturatingSucc(n: u32): u32 {
    if n < U32_MAX then n + 1 else n
  }

  function Opened(c: Camera): Camera {
    c.(open := true, asks := if c.device.Simulated? then 0 else c.asks)
  }

  /** The answer to one plug query; none when the query fails. */
  function Answer(w: World, c: Camera, t: nat): Option<bool> {
    if !c.open || !w.onBus(t) then None
    else if c.device.Real? then w.says(t)
    else Some(c.device.slots > 0 && SaturatingSucc(c.asks) > c.device.misses)
  }

  function Asked(w: World, c: Camera, t: nat): Camera {
    if Answer(w, c, t).Some? && c.device.Simulated? then c.(asks := SaturatingSucc(c.asks)) else c
  }

  datatype Heard = Heard(found: bool, camera: Camera, moment: nat)

  /** At most `left` queries: the first that says yes or fails is the last. */
  function Ask(w: World, c: Camera, t: nat, left: nat): Heard
    decreases left
  {
    if left == 0 then Heard(false, c, t)
    else if Answer(w, c, t) == Some(false) then Ask(w, Asked(w, c, t), t + 1, left - 1)
    else Heard(Answer(w, c, t) == Some(true), Asked(w, c, t), t + 1)
  }

  datatype Probed = Probed(outcome: Outcome, camera: Camera, moment: nat)

  function Probe(w: World, c: Camera, t: nat): Probed {
    if c.open then
      var h := Ask(w, c, t, PROBE_ATTEMPTS);
      Probed(Ok(h.found), h.camera, h.moment)
    else if !w.onBus(t) then Probed(Err(OpenFailed), c, t + 1)
    else
      var h := Ask(w, Opened(c), t + 1, PROBE_ATTEMPTS);
      if w.closes(h.moment) then Probed(Ok(h.found), h.camera.(open := false), h.moment + 1)
      else Probed(Err(CloseFailed), h.camera, h.moment + 1)
  }

  /** The first camera with this id. */
  function Find(cameras: seq<Camera>, id: Id): (r: Option<nat>)
    ensures r.Some? ==> r.value < |cameras| && cameras[r.value].id == id
    ensures r.Some? ==> forall k :: 0 <= k < r.value ==> cameras[k].id != id
    ensures r.None? ==> forall k :: 0 <= k < |cameras| ==> cameras[k].id != id
  {
    if cameras == [] then None
    else
      match Find(cameras[..|cameras| - 1], id)
      case Some(i) => Some(i)
      case None => if cameras[|cameras| - 1].id == id then Some(|cameras| - 1) else None
  }

  datatype Books = Books(cameras: seq<Camera>, wheels: seq<Id>, moment: nat, outcomes: seq<(Id, Outcome)>)

  function Listed(wheels: seq<Id>, id: Id, outcome: Outcome): seq<Id> {
    if outcome == Ok(true) && id !in wheels then wheels + [id] else wheels
  }

  function ProbeId(w: World, b: Books, id: Id): Books {
    match Find(b.cameras, id)
    case None => b.(outcomes := b.outcomes + [(id, Err(UnknownCameraId(id)))])
    case Some(i) =>
      var p := Probe(w, b.cameras[i], b.moment);
      Books(b.cameras[i := p.camera], Listed(b.wheels, id, p.outcome), p.moment, b.outcomes + [(id, p.outcome)])
  }

  function ProbeAll(w: World, b: Books, ids: seq<Id>): Books {
    if ids == [] then b else ProbeId(w, ProbeAll(w, b, ids[..|ids| - 1]), ids[|ids| - 1])
  }

  // --- in place --------------------------------------------------------------

  class Sdk {
    const world: World
    var cameras: seq<Camera>
    var wheels: seq<Id>
    var moment: nat

    constructor (world: World, cameras: seq<Camera>)
      ensures this.world == world && this.cameras == cameras && wheels == [] && moment == 0
    {
      this.world, this.cameras, wheels, moment := world, cameras, [], 0;
    }

    method Open(i: nat) returns (ok: bool)
      requires i < |cameras|
      modifies this`cameras, this`moment
      ensures old(cameras[i].open) ==> ok && cameras == old(cameras) && moment == old(moment)
      ensures old(!cameras[i].open) ==>
                && ok == world.onBus(old(moment)) && moment == old(moment) + 1
                && cameras == if ok then old(cameras)[i := Opened(old(cameras)[i])] else old(cameras)
    {
      if cameras[i].open {
        return true;
      }
      ok := world.onBus(moment);
      moment := moment + 1;
      if ok {
        cameras := cameras[i := Opened(cameras[i])];
      }
    }

    /** A failed close keeps the handle. */
    method Close(i: nat) returns (ok: bool)
      requires i < |cameras|
      modifies this`cameras, this`moment
      ensures old(!cameras[i].open) ==> ok && cameras == old(cameras) && moment == old(moment)
      ensures old(cameras[i].open) ==>
                && ok == world.closes(old(moment)) && moment == old(moment) + 1
                && cameras == if ok then old(cameras)[i := old(cameras)[i].(open := false)] else old(cameras)
    {
      if !cameras[i].open {
        return true;
      }
      ok := world.closes(moment);
      moment := moment + 1;
      if ok {
        cameras := cameras[i := cameras[i].(open := false)];
      }
    }

    /** A query that fails does not count; one that a simulated camera answers does, saturating. */
    method IsCfwPluggedIn(i: nat) returns (answer: Option<bool>)
      requires i < |cameras|
      modifies this`cameras, this`moment
      ensures moment == old(moment) + 1
      ensures !old(cameras)[i].open || !world.onBus(old(moment)) ==> answer.None? && cameras == old(cameras)
      ensures old(cameras)[i].open && world.onBus(old(moment)) ==>
                match old(cameras)[i].device
                case Real => answer == world.says(old(moment)) && cameras == old(cameras)
                case Simulated(slots, misses) =>
                  var count := if old(cameras)[i].asks + 1 <= U32_MAX then old(cameras)[i].asks + 1 else U32_MAX;
                  && answer == Some(slots > 0 && count > misses)
                  && cameras == old(cameras)[i := old(cameras)[i].(asks := count)]
      ensures answer == Answer(world, old(cameras)[i], old(moment))
      ensures cameras == old(cameras)[i := Asked(world, old(cameras)[i], old(moment))]
    {
      var now, c := moment, cameras[i];
      moment := moment + 1;
      if !c.open || !world.onBus(now) {
        return None;
      }
      match c.device
      case Real => answer := world.says(now);
      case Simulated(slots, misses) =>
        var asks := c.asks;
        if asks < U32_MAX {
          asks := asks + 1;
        }
        cameras := cameras[i := c.(asks := asks)];
        answer := Some(slots > 0 && asks > misses);
    }

    /** Asks until the first yes or failure, three times at most. */
    method AskForWheel(i: nat) returns (found: bool)
      requires i < |cameras|
      modifies this`cameras, this`moment
      ensures var h := Ask(world, old(cameras)[i], old(moment), PROBE_ATTEMPTS);
              found == h.found && moment == h.moment && cameras == old(cameras)[i := h.camera]
    {
      found := false;
      var attempt := 1;
      while attempt <= PROBE_ATTEMPTS
        invariant 1 <= attempt <= PROBE_ATTEMPTS + 1 && !found
        invariant |cameras| == |old(cameras)| && cameras == old(cameras)[i := cameras[i]]
        invariant Ask(world, old(cameras)[i], old(moment), PROBE_ATTEMPTS)
               == Ask(world, cameras[i], moment, PROBE_ATTEMPTS + 1 - attempt)
      {
        var answer := IsCfwPluggedIn(i);
        if answer != Some(false) {
          found := answer == Some(true);
          break;
        }
        attempt := attempt + 1;
      }
    }

    method CfwProbe(i: nat) returns (outcome: Outcome)
      requires i < |cameras|
      modifies this`cameras, this`moment
      ensures var p := Probe(world, old(cameras)[i], old(moment));
              outcome == p.outcome && moment == p.moment && cameras == old(cameras)[i := p.camera]
    {
      var alreadyOpen := cameras[i].open;
      if !alreadyOpen {
        var hasOpened := Open(i);
        if !hasOpened {
          return Err(OpenFailed);
        }
      }
      ghost var asking, since := cameras[i], moment;
      var found := AskForWheel(i);
      if !alreadyOpen {
        AskKeepsOpen(world, asking, since, PROBE_ATTEMPTS);
        var closed := Close(i);
        if !closed {
          return Err(CloseFailed);
        }
      }
      outcome := Ok(found);
    }

    method ProbeFilterWheels(ids: seq<Id>) returns (outcomes: seq<(Id, Outcome)>)
      modifies this
      ensures Books(cameras, wheels, moment, outcomes)
           == ProbeAll(world, Books(old(cameras), old(wheels), old(moment), []), ids)
    {
      outcomes := [];
      for n := 0 to |ids|
        invariant Books(cameras, wheels, moment, outcomes)
               == ProbeAll(world, Books(old(cameras), old(wheels), old(moment), []), ids[..n])
      {
        assert ids[..n + 1][..n] == ids[..n];
        var found := Find(cameras, ids[n]);
        if found.None? {
          outcomes := outcomes + [(ids[n], Err(UnknownCameraId(ids[n])))];
        } else {
          var outcome := CfwProbe(found.value);
          if outcome == Ok(true) && ids[n] !in wheels {
            wheels := wheels + [ids[n]];
          }
          outcomes := outcomes + [(ids[n], outcome)];
        }
      }
      assert ids[..|ids|] == ids;
    }
  }

  // --- one probe -------------------------------------------------------------

  lemma {:induction false} AskKeepsOpen(w: World, c: Camera, t: nat, left: nat)
    ensures var h := Ask(w, c, t, left);
            h.camera.open == c.open && h.camera.id == c.id && h.camera.device == c.device
    decreases left
  {
    if left > 0 { AskKeepsOpen(w, Asked(w, c, t), t + 1, left - 1); }
  }

  /**
   * A probe leaves the camera as open as it found it, unless its own close failed, which
   * it reports; an open camera is never closed under its holder.
   */
  lemma ProbeKeepsOpen(w: World, c: Camera, t: nat)
    ensures var p := Probe(w, c, t);
            && p.camera.id == c.id && p.camera.device == c.device
            && (p.outcome == Err(CloseFailed) ==> !c.open)
            && p.camera.open == (c.open || p.outcome == Err(CloseFailed))
            && (p.outcome.Err? ==> p.outcome.error == OpenFailed || p.outcome.error == CloseFailed)
  {
    AskKeepsOpen(w, c, t, PROBE_ATTEMPTS);
    AskKeepsOpen(w, Opened(c), t + 1, PROBE_ATTEMPTS);
  }

  /** The camera after `n` answered queries. */
  function Counted(c: Camera, n: nat): Camera {
    if c.device.Real? then c else c.(asks := if c.asks + n <= U32_MAX then c.asks + n else U32_MAX)
  }

  /** What the query at moment `m` is answered, all since `t` having been answered. */
  function AnswerAt(w: World, c: Camera, t: nat, m: nat): Option<bool>
    requires t <= m
  {
    Answer(w, Counted(c, m - t), m)
  }

  /** Every query from `t` until `m` is answered no. */
  predicate SaysNoUntil(w: World, c: Camera, t: nat, m: nat)
    requires t <= m
  {
    forall n :: t <= n < m ==> AnswerAt(w, c, t, n) == Some(false)
  }

  lemma NextAnswer(w: World, c: Camera, t: nat, m: nat)
    requires t < m && Answer(w, c, t) == Some(false)
    ensures AnswerAt(w, c, t, m) == AnswerAt(w, Asked(w, c, t), t + 1, m)
    ensures AnswerAt(w, c, t, t) == Some(false)
  {
  }

  lemma NextNo(w: World, c: Camera, t: nat, m: nat)
    requires t < m && Answer(w, c, t) == Some(false) && SaysNoUntil(w, Asked(w, c, t), t + 1, m)
    ensures SaysNoUntil(w, c, t, m)
  {
    forall n | t <= n < m ensures AnswerAt(w, c, t, n) == Some(false) {
      if n > t {
        NextAnswer(w, c, t, n);
        assert AnswerAt(w, Asked(w, c, t), t + 1, n) == Some(false);
      }
    }
  }

  /** The asking of `c` from `t` on ends as `h` says: right after the first query not answered no, or after `left`. */
  ghost predicate EndsRight(w: World, c: Camera, t: nat, left: nat, h: Heard) {
    if h.moment <= t then h.moment == t && left == 0 && !h.found
    else
      && h.moment <= t + left && SaysNoUntil(w, c, t, h.moment - 1)
      && (h.moment < t + left ==> AnswerAt(w, c, t, h.moment - 1) != Some(false))
      && (h.found <==> AnswerAt(w, c, t, h.moment - 1) == Some(true))
  }

  lemma EndsRightStep(w: World, c: Camera, t: nat, left: nat, h: Heard)
    requires left > 0 && Answer(w, c, t) == Some(false) && EndsRight(w, Asked(w, c, t), t + 1, left - 1, h)
    ensures EndsRight(w, c, t, left, h)
  {
    NextAnswer(w, c, t, t + 1);
    if h.moment > t + 1 {
      NextAnswer(w, c, t, h.moment - 1);
      NextNo(w, c, t, h.moment - 1);
    }
  }

  /**
   * Any camera, real or simulated, is asked until the first query that is not answered no,
   * or `left` times. The asking ends right after that query, and a wheel is found exactly
   * if it was answered yes.
   */
  lemma {:induction false} AsksUntilNotNo(w: World, c: Camera, t: nat, left: nat)
    ensures EndsRight(w, c, t, left, Ask(w, c, t, left))
    decreases left
  {
    if left > 0 && Answer(w, c, t) == Some(false) {
      AsksUntilNotNo(w, Asked(w, c, t), t + 1, left - 1);
      EndsRightStep(w, c, t, left, Ask(w, c, t, left));
    } else {
      assert AnswerAt(w, c, t, t) == Answer(w, c, t);
    }
  }

  /** Some query among the first `left` is answered yes, and every earlier one no. */
  ghost predicate YesAfterNoes(w: World, c: Camera, t: nat, left: nat) {
    exists m :: t <= m < t + left && AnswerAt(w, c, t, m) == Some(true) && SaysNoUntil(w, c, t, m)
  }

  lemma NotBeforeNoes(w: World, c: Camera, t: nat, m: nat, k: nat)
    requires t <= m && t <= k && SaysNoUntil(w, c, t, k) && AnswerAt(w, c, t, m) != Some(false)
    ensures k <= m
  {
  }

  lemma FoundIffYesAfterNoes(w: World, c: Camera, t: nat, left: nat)
    ensures Ask(w, c, t, left).found <==> YesAfterNoes(w, c, t, left)
  {
    AsksUntilNotNo(w, c, t, left);
    var e := Ask(w, c, t, left).moment;
    if YesAfterNoes(w, c, t, left) {
      var m :| t <= m < t + left && AnswerAt(w, c, t, m) == Some(true) && SaysNoUntil(w, c, t, m);
      NotBeforeNoes(w, c, t, m, e - 1);
      if e < t + left { NotBeforeNoes(w, c, t, e - 1, m); }
      assert m == e - 1;
    }
  }

  /** A real camera: on the bus and saying no until it says yes, in time. */
  ghost predicate RealYes(w: World, t: nat, left: nat) {
    exists m :: t <= m < t + left && w.says(m) == Some(true) && (forall n :: t <= n <= m ==> w.onBus(n)) && RealNo(w, t, m)
  }

  predicate RealNo(w: World, t: nat, m: nat) {
    forall n :: t <= n < m ==> w.says(n) == Some(false)
  }

  lemma RealAnswer(w: World, c: Camera, t: nat, m: nat)
    requires c.open && c.device.Real? && t <= m
    ensures AnswerAt(w, c, t, m) == if w.onBus(m) then w.says(m) else None
  {
  }

  /** The retry is for a real camera: it is found to have a wheel if and only if one of the first answers is yes. */
  lemma RealFoundIff(w: World, c: Camera, t: nat, left: nat)
    requires c.open && c.device.Real?
    ensures Ask(w, c, t, left).found <==> RealYes(w, t, left)
  {
    FoundIffYesAfterNoes(w, c, t, left);
    forall n | t <= n < t + left ensures AnswerAt(w, c, t, n) == if w.onBus(n) then w.says(n) else None {
      RealAnswer(w, c, t, n);
    }
    if YesAfterNoes(w, c, t, left) {
      var m :| t <= m < t + left && AnswerAt(w, c, t, m) == Some(true) && SaysNoUntil(w, c, t, m);
      forall n | t <= n < m ensures w.onBus(n) && w.says(n) == Some(false) {
        assert AnswerAt(w, c, t, n) == Some(false);
      }
      assert RealNo(w, t, m) && w.says(m) == Some(true);
    }
    if RealYes(w, t, left) {
      var m :| t <= m < t + left && w.says(m) == Some(true) && (forall n :: t <= n <= m ==> w.onBus(n)) && RealNo(w, t, m);
      assert AnswerAt(w, c, t, m) == Some(true);
      assert SaysNoUntil(w, c, t, m);
    }
  }

  /**
   * The outcome of a probe of any camera: an open one is asked as it is; a closed one is
   * opened, asked from the next moment on and closed, and the failures of the open and the
   * close are its errors.
   */
  lemma ProbeIs(w: World, c: Camera, t: nat)
    ensures var p := Probe(w, c, t);
            var end := Ask(w, Opened(c), t + 1, 3).moment;
            && (c.open ==> p.outcome == Ok(YesAfterNoes(w, c, t, 3)))
            && (p.outcome == Err(OpenFailed) <==> !c.open && !w.onBus(t))
            && (p.outcome == Err(CloseFailed) <==> !c.open && w.onBus(t) && !w.closes(end))
            && (!c.open && w.onBus(t) && w.closes(end) ==> p.outcome == Ok(YesAfterNoes(w, Opened(c), t + 1, 3)))
  {
    FoundIffYesAfterNoes(w, c, t, PROBE_ATTEMPTS);
    FoundIffYesAfterNoes(w, Opened(c), t + 1, PROBE_ATTEMPTS);
  }

  /** On the bus for the queries from `t` to `m`, by the last of which it has missed as often as it will. */
  predicate SaysYesBy(w: World, c: Camera, t: nat, m: nat)
    requires c.device.Simulated? && t <= m
  {
    && (forall n :: t <= n <= m ==> w.onBus(n))
    && c.device.slots > 0
    && (if c.asks + (m - t) + 1 <= U32_MAX then c.asks + (m - t) + 1 else U32_MAX) > c.device.misses
  }

  /**
   * A simulated camera is found to have a wheel if and only if it stays on the bus up to
   * a query, among those allowed, by which it has missed as often as it will.
   */
  lemma {:induction false} FoundIff(w: World, c: Camera, t: nat, left: nat)
    requires c.device.Simulated? && c.open
    ensures Ask(w, c, t, left).found <==> exists m :: t <= m < t + left && SaysYesBy(w, c, t, m)
    decreases left
  {
    if left > 0 && Answer(w, c, t) == Some(false) {
      var next := Asked(w, c, t);
      FoundIff(w, next, t + 1, left - 1);
      if Ask(w, next, t + 1, left - 1).found {
        var m :| t + 1 <= m < t + 1 + (left - 1) && SaysYesBy(w, next, t + 1, m);
        LaterYes(w, c, t, m);
        assert SaysYesBy(w, c, t, m);
      }
      assert !SaysYesBy(w, c, t, t);
      if m :| t <= m < t + left && SaysYesBy(w, c, t, m) {
        LaterYes(w, c, t, m);
        assert SaysYesBy(w, next, t + 1, m);
      }
    } else if left > 0 && Answer(w, c, t) == Some(true) {
      assert SaysYesBy(w, c, t, t);
    }
  }

  lemma LaterYes(w: World, c: Camera, t: nat, m: nat)
    requires c.device.Simulated? && c.open && Answer(w, c, t) == Some(false) && t < m
    ensures SaysYesBy(w, Asked(w, c, t), t + 1, m) <==> SaysYesBy(w, c, t, m)
  {
  }

  /** Nothing fails from `t` until `upTo`. */
  ghost predicate Clean(w: World, t: nat, upTo: nat) {
    forall m :: t <= m < upTo ==> w.onBus(m) && w.closes(m)
  }

  lemma {:induction false} CleanAsk(w: World, c: Camera, t: nat, left: nat)
    requires c.device.Simulated? && c.open && c.asks + left <= U32_MAX
    requires forall m :: t <= m < Ask(w, c, t, left).moment ==> w.onBus(m)
    ensures Ask(w, c, t, left).found <==> left > 0 && c.device.slots > 0 && c.asks + left > c.device.misses
    decreases left
  {
    AskTakesTime(w, c, t, left);
    if left > 0 && Answer(w, c, t) == Some(false) {
      AskTakesTime(w, Asked(w, c, t), t + 1, left - 1);
      CleanAsk(w, Asked(w, c, t), t + 1, left - 1);
    }
  }

  lemma {:induction false} AskTakesTime(w: World, c: Camera, t: nat, left: nat)
    ensures t + (if left > 0 then 1 else 0) <= Ask(w, c, t, left).moment
    decreases left
  {
    if left > 0 { AskTakesTime(w, Asked(w, c, t), t + 1, left - 1); }
  }

  /**
   * A simulated camera that the probe opens itself, with nothing failing while the probe
   * lasts, yields a wheel if and only if it has slots and misses fewer queries than the
   * probe makes.
   */
  lemma CleanProbe(w: World, c: Camera, t: nat)
    requires c.device.Simulated? && !c.open && Clean(w, t, Probe(w, c, t).moment)
    ensures Probe(w, c, t).outcome == Ok(c.device.slots > 0 && c.device.misses < 3)
  {
    ProbeTakesTime(w, c, t);
    CleanAsk(w, Opened(c), t + 1, PROBE_ATTEMPTS);
  }

  lemma ProbeTakesTime(w: World, c: Camera, t: nat)
    ensures t < Probe(w, c, t).moment
    ensures !c.open && w.onBus(t) ==>
              t + 1 < Ask(w, Opened(c), t + 1, PROBE_ATTEMPTS).moment < Probe(w, c, t).moment
  {
    AskTakesTime(w, c, t, PROBE_ATTEMPTS);
    AskTakesTime(w, Opened(c), t + 1, PROBE_ATTEMPTS);
  }

  // --- a whole list ----------------------------------------------------------

  predicate Distinct(ids: seq<Id>) {
    forall i, j :: 0 <= i < j < |ids| ==> ids[i] != ids[j]
  }

  /** `r` is `b` with one more outcome for each of the ids, in their order. */
  ghost predicate InOrder(b: Books, r: Books, ids: seq<Id>) {
    && |r.outcomes| == |b.outcomes| + |ids|
    && r.outcomes[..|b.outcomes|] == b.outcomes
    && (forall i :: 0 <= i < |ids| ==> r.outcomes[|b.outcomes| + i].0 == ids[i])
  }

  lemma OneMoreOutcome(w: World, b: Books, ids: seq<Id>, m: Books, id: Id)
    requires InOrder(b, m, ids)
    ensures InOrder(b, ProbeId(w, m, id), ids + [id])
    ensures ProbeId(w, m, id).outcomes[..|m.outcomes|] == m.outcomes
  {
    var r := ProbeId(w, m, id);
    assert r.outcomes[..|m.outcomes|] == m.outcomes;
    assert r.outcomes[..|b.outcomes|] == m.outcomes[..|b.outcomes|];
  }

  lemma {:induction false} OneOutcomeEach(w: World, b: Books, ids: seq<Id>)
    ensures InOrder(b, ProbeAll(w, b, ids), ids)
  {
    if ids != [] {
      var before, id := ids[..|ids| - 1], ids[|ids| - 1];
      OneOutcomeEach(w, b, before);
      OneMoreOutcome(w, b, before, ProbeAll(w, b, before), id);
      assert before + [id] == ids;
    }
  }

  /** The next probe leaves earlier outcomes alone. */
  lemma OutcomeStays(w: World, b: Books, ids: seq<Id>, i: nat)
    requires i + 1 < |ids|
    ensures var before := ids[..|ids| - 1];
            && |ProbeAll(w, b, before).outcomes| == |b.outcomes| + |before|
            && |ProbeAll(w, b, ids).outcomes| == |b.outcomes| + |ids|
            && ProbeAll(w, b, ids).outcomes[|b.outcomes| + i] == ProbeAll(w, b, before).outcomes[|b.outcomes| + i]
  {
    var before := ids[..|ids| - 1];
    OneOutcomeEach(w, b, before);
    OneMoreOutcome(w, b, before, ProbeAll(w, b, before), ids[|ids| - 1]);
  }

  /** `o` is the outcome for the `i`-th id. */
  ghost predicate HasOutcome(w: World, b: Books, ids: seq<Id>, i: nat, o: (Id, Outcome)) {
    var r := ProbeAll(w, b, ids).outcomes;
    i < |ids| && |r| == |b.outcomes| + |ids| && r[|b.outcomes| + i] == o
  }

  /** Later probes leave earlier outcomes alone. */
  lemma {:induction false} OutcomeStands(w: World, b: Books, ids: seq<Id>, i: nat, n: nat, o: (Id, Outcome))
    requires n <= |ids| && HasOutcome(w, b, ids[..n], i, o)
    ensures HasOutcome(w, b, ids, i, o)
  {
    if n == |ids| {
      assert ids[..n] == ids;
    } else {
      var before := ids[..|ids| - 1];
      assert before[..n] == ids[..n];
      OutcomeStands(w, b, before, i, n, o);
      OutcomeStays(w, b, ids, i);
    }
  }

  lemma LastOutcomeIs(w: World, b: Books, ids: seq<Id>, m: Books, j: nat)
    requires ids != [] && m == ProbeAll(w, b, ids[..|ids| - 1]) && Find(m.cameras, ids[|ids| - 1]) == Some(j)
    ensures HasOutcome(w, b, ids, |ids| - 1, (ids[|ids| - 1], Probe(w, m.cameras[j], m.moment).outcome))
  {
    OneOutcomeEach(w, b, ids[..|ids| - 1]);
  }

  /** The outcome for the `i`-th id is that of the probe of its camera as the earlier ones left it. */
  lemma OutcomeIs(w: World, b: Books, ids: seq<Id>, i: nat, m: Books, j: nat)
    requires i < |ids| && m == ProbeAll(w, b, ids[..i]) && Find(m.cameras, ids[i]) == Some(j)
    ensures HasOutcome(w, b, ids, i, (ids[i], Probe(w, m.cameras[j], m.moment).outcome))
  {
    var upTo := ids[..i + 1];
    assert upTo[..i] == ids[..i] && upTo[i] == ids[i];
    LastOutcomeIs(w, b, upTo, m, j);
    OutcomeStands(w, b, ids, i, i + 1, (ids[i], Probe(w, m.cameras[j], m.moment).outcome));
  }

  predicate Answered(outcomes: seq<(Id, Outcome)>, id: Id, outcome: Outcome) {
    (id, outcome) in outcomes
  }

  /**
   * The list of wheels only grows, never names a wheel twice, and names exactly those that
   * were there already or that some probe answered yes for.
   */
  lemma {:induction false} WheelsAreTheYeses(w: World, b: Books, ids: seq<Id>)
    requires Distinct(b.wheels) && forall id :: Answered(b.outcomes, id, Ok(true)) ==> id in b.wheels
    ensures var r := ProbeAll(w, b, ids);
            && b.wheels <= r.wheels && Distinct(r.wheels)
            && (forall id :: id in r.wheels <==> id in b.wheels || Answered(r.outcomes, id, Ok(true)))
  {
    if ids != [] {
      var before, id := ids[..|ids| - 1], ids[|ids| - 1];
      WheelsAreTheYeses(w, b, before);
      ProbeIdLists(w, ProbeAll(w, b, before), id);
    }
  }

  lemma ProbeIdLists(w: World, b: Books, id: Id)
    requires Distinct(b.wheels)
    ensures var r := ProbeId(w, b, id);
            && |r.outcomes| == |b.outcomes| + 1 && r.outcomes[..|b.outcomes|] == b.outcomes
            && r.outcomes[|b.outcomes|].0 == id
            && r.wheels == Listed(b.wheels, id, r.outcomes[|b.outcomes|].1) && Distinct(r.wheels)
            && b.wheels <= r.wheels
            && (forall x, o :: Answered(r.outcomes, x, o) <==> Answered(b.outcomes, x, o) || (x, o) == r.outcomes[|b.outcomes|])
  {
  }

  /** Same cameras in the same places, and all but the first of each id not touched. */
  ghost predicate Kept(a: seq<Camera>, b: seq<Camera>) {
    && |a| == |b|
    && (forall j :: 0 <= j < |a| ==> a[j].id == b[j].id && a[j].device == b[j].device)
    && (forall j :: 0 <= j < |a| ==> Find(a, a[j].id) == Some(j) || a[j] == b[j])
  }

  lemma FindKept(a: seq<Camera>, b: seq<Camera>, id: Id)
    requires |a| == |b| && forall k :: 0 <= k < |a| ==> a[k].id == b[k].id
    ensures Find(a, id) == Find(b, id)
  {
  }

  lemma KeptByOne(w: World, b: Books, id: Id)
    ensures Kept(b.cameras, ProbeId(w, b, id).cameras)
  {
    if Find(b.cameras, id).Some? { ProbeKeepsOpen(w, b.cameras[Find(b.cameras, id).value], b.moment); }
  }

  lemma KeptTwice(a: seq<Camera>, b: seq<Camera>, c: seq<Camera>)
    requires Kept(a, b) && Kept(b, c)
    ensures Kept(a, c)
  {
    forall j | 0 <= j < |a| ensures Find(a, a[j].id) == Some(j) || a[j] == c[j] {
      FindKept(a, b, a[j].id);
    }
  }

  lemma {:induction false} CamerasAreKept(w: World, b: Books, ids: seq<Id>)
    ensures Kept(b.cameras, ProbeAll(w, b, ids).cameras)
  {
    if ids != [] {
      var before, id := ids[..|ids| - 1], ids[|ids| - 1];
      CamerasAreKept(w, b, before);
      KeptByOne(w, ProbeAll(w, b, before), id);
      KeptTwice(b.cameras, ProbeAll(w, b, before).cameras, ProbeAll(w, b, ids).cameras);
    }
  }

  /**
   * A camera is open after the list if and only if it was open before or a probe of it
   * failed to close it again.
   */
  lemma {:induction false} OpenUnlessCloseFailed(w: World, b: Books, ids: seq<Id>, j: nat)
    requires j < |b.cameras| && Find(b.cameras, b.cameras[j].id) == Some(j)
    requires !Answered(b.outcomes, b.cameras[j].id, Err(CloseFailed))
    ensures var r := ProbeAll(w, b, ids);
            && |r.cameras| == |b.cameras|
            && r.cameras[j].open == (b.cameras[j].open || Answered(r.outcomes, b.cameras[j].id, Err(CloseFailed)))
  {
    if ids != [] {
      var before, id := ids[..|ids| - 1], ids[|ids| - 1];
      OpenUnlessCloseFailed(w, b, before, j);
      CamerasAreKept(w, b, before);
      FindKept(b.cameras, ProbeAll(w, b, before).cameras, b.cameras[j].id);
      OpenAfterOne(w, ProbeAll(w, b, before), id, j);
    }
  }

  lemma OpenAfterOne(w: World, b: Books, id: Id, j: nat)
    requires j < |b.cameras| && Find(b.cameras, b.cameras[j].id) == Some(j)
    ensures var r := ProbeId(w, b, id);
            && r.cameras[j].open == (b.cameras[j].open || r.outcomes[|b.outcomes|] == (b.cameras[j].id, Err(CloseFailed)))
            && (forall o :: Answered(r.outcomes, b.cameras[j].id, o) <==>
                  Answered(b.outcomes, b.cameras[j].id, o) || r.outcomes[|b.outcomes|] == (b.cameras[j].id, o))
  {
    if Find(b.cameras, id).Some? { ProbeKeepsOpen(w, b.cameras[Find(b.cameras, id).value], b.moment); }
  }

  /** An id is refused as unknown if and only if no camera has it, whatever was probed before. */
  lemma {:induction false} UnknownIff(w: World, b: Books, ids: seq<Id>, i: nat)
    requires i < |ids|
    ensures var r := ProbeAll(w, b, ids);
            && |r.outcomes| == |b.outcomes| + |ids|
            && (r.outcomes[|b.outcomes| + i].1 == Err(UnknownCameraId(ids[i])) <==> Find(b.cameras, ids[i]).None?)
  {
    var before, id := ids[..|ids| - 1], ids[|ids| - 1];
    if i < |ids| - 1 {
      OutcomeStays(w, b, ids, i);
      UnknownIff(w, b, before, i);
    } else {
      OneOutcomeEach(w, b, before);
      CamerasAreKept(w, b, before);
      FindKept(b.cameras, ProbeAll(w, b, before).cameras, id);
      var m := ProbeAll(w, b, before);
      if Find(m.cameras, id).Some? { ProbeKeepsOpen(w, m.cameras[Find(m.cameras, id).value], m.moment); }
    }
  }

  /** When the probe of the `i`-th id begins; it ends when the next one begins. */
  function Begins(w: World, b: Books, ids: seq<Id>, i: nat): nat
    requires i <= |ids|
  {
    ProbeAll(w, b, ids[..i]).moment
  }

  /** Every close made by the probe of the `i`-th id succeeds. */
  ghost predicate Closes(w: World, b: Books, ids: seq<Id>, i: nat)
    requires i < |ids|
  {
    forall m :: Begins(w, b, ids, i) <= m < Begins(w, b, ids, i + 1) ==> w.closes(m)
  }

  lemma ProbeAllNext(w: World, b: Books, ids: seq<Id>, i: nat)
    requires i < |ids|
    ensures ProbeAll(w, b, ids[..i + 1]) == ProbeId(w, ProbeAll(w, b, ids[..i]), ids[i])
  {
    assert ids[..i + 1][..i] == ids[..i];
  }

  /** A closed camera stays closed if the closes of its own probes succeed. */
  lemma {:induction false} StaysClosed(w: World, b: Books, ids: seq<Id>, j: nat, n: nat)
    requires n <= |ids| && j < |b.cameras| && !b.cameras[j].open
    requires forall x :: 0 <= x < n && ids[x] == b.cameras[j].id ==> Closes(w, b, ids, x)
    ensures var r := ProbeAll(w, b, ids[..n]); |r.cameras| == |b.cameras| && !r.cameras[j].open
  {
    if n == 0 {
      assert ids[..n] == [];
    } else {
      StaysClosed(w, b, ids, j, n - 1);
      ProbeAllNext(w, b, ids, n - 1);
      CamerasAreKept(w, b, ids[..n - 1]);
      StaysClosedOnce(w, ProbeAll(w, b, ids[..n - 1]), ids[n - 1], j);
    }
  }

  lemma StaysClosedOnce(w: World, b: Books, id: Id, j: nat)
    requires j < |b.cameras| && !b.cameras[j].open
    requires id == b.cameras[j].id ==> forall m :: b.moment <= m < ProbeId(w, b, id).moment ==> w.closes(m)
    ensures |ProbeId(w, b, id).cameras| == |b.cameras| && !ProbeId(w, b, id).cameras[j].open
  {
    if Find(b.cameras, id) == Some(j) {
      ProbeKeepsOpen(w, b.cameras[j], b.moment);
      ProbeTakesTime(w, b.cameras[j], b.moment);
    }
  }

  /**
   * Each time a closed simulated camera is listed it gets the outcome its configuration
   * deserves, if nothing fails while that probe lasts and no earlier probe of the same
   * camera failed to close it; what the other cameras of the list do does not matter.
   */
  lemma CleanList(w: World, b: Books, ids: seq<Id>, i: nat, j: nat)
    requires i < |ids| && Find(b.cameras, ids[i]) == Some(j)
    requires b.cameras[j].device.Simulated? && !b.cameras[j].open
    requires forall x :: 0 <= x < i && ids[x] == ids[i] ==> Closes(w, b, ids, x)
    requires Clean(w, Begins(w, b, ids, i), Begins(w, b, ids, i + 1))
    ensures var d := b.cameras[j].device;
            HasOutcome(w, b, ids, i, (ids[i], Ok(d.slots > 0 && d.misses < 3)))
  {
    var m := ProbeAll(w, b, ids[..i]);
    StaysClosed(w, b, ids, j, i);
    CamerasAreKept(w, b, ids[..i]);
    FindKept(b.cameras, m.cameras, ids[i]);
    ProbeAllNext(w, b, ids, i);
    CleanProbe(w, m.cameras[j], m.moment);
    OutcomeIs(w, b, ids, i, m, j);
  }

  /** Probing a list in two calls is probing it in one. */
  lemma {:induction false} ProbingInStages(w: World, b: Books, first: seq<Id>, second: seq<Id>)
    ensures ProbeAll(w, b, first + second) == ProbeAll(w, ProbeAll(w, b, first), second)
  {
    if second == [] {
      assert first + second == first;
    } else {
      assert (first + second)[..|first + second| - 1] == first + second[..|second| - 1];
      ProbingInStages(w, b, first, second[..|second| - 1]);
    }
  }
}
