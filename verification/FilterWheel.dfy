/**
 * The filter wheel of a simulated camera, end to end: a slot is encoded as a hexadecimal
 * ASCII code to be commanded or read, decoded at the other end, and a move takes a few
 * reads to settle. Codes and slots are the values of the source's 32-bit integers.
 */
module FilterWheel {
  import opened Common

  // --- codec -----------------------------------------------------------------

  const MOVING_CODE: nat := 0x4E

  /** The code of a slot: one upper-case hexadecimal digit, so sixteen slots and no more. */
  function SlotToAscii(slot: nat): Option<nat> {
    if slot < 10 then Some(0x30 + slot)
    else if slot < 16 then Some(0x41 + (slot - 10))
    else None
  }

  function HexDigit(code: nat): Option<nat> {
    if 0x30 <= code <= 0x39 then Some(code - 0x30)
    else if 0x41 <= code <= 0x46 then Some(code - 0x41 + 10)
    else if 0x61 <= code <= 0x66 then Some(code - 0x61 + 10)
    else None
  }

  /** Any code but a hexadecimal digit falls back to the legacy decimal decoding. */
  function AsciiToSlot(code: nat): nat {
    match HexDigit(code)
    case Some(d) => d
    case None => if code >= 0x30 then code - 0x30 else 0
  }

  datatype Status = Slot(slot: nat) | Moving

  function AsciiToStatus(code: nat): Status {
    if code == MOVING_CODE then Moving else Slot(AsciiToSlot(code))
  }

  /** Exactly the first sixteen slots have a code; it decodes to the slot and never to a move. */
  lemma SlotCodesRoundTrip(slot: nat)
    ensures SlotToAscii(slot).Some? <==> slot < 16
    ensures SlotToAscii(slot).Some? ==>
              && AsciiToSlot(SlotToAscii(slot).value) == slot
              && AsciiToStatus(SlotToAscii(slot).value) == Slot(slot)
  {
  }

  /** Two slots never share a code, and none has the code of a moving wheel. */
  lemma SlotCodesAreDistinct(a: nat, b: nat)
    requires SlotToAscii(a).Some? && SlotToAscii(a) == SlotToAscii(b)
    ensures a == b && SlotToAscii(a) != Some(MOVING_CODE)
  {
  }

  /**
   * Which raw codes command a slot, and which one: the hexadecimal digits of either case,
   * the six codes after '9', which name the slots 10 to 15 too, and everything below '0',
   * which the saturating fallback sends to slot 0. No other code does, the code of a moving
   * wheel included.
   */
  lemma CommandableCodes(code: nat)
    ensures SlotToAscii(AsciiToSlot(code)).Some? <==>
              code <= 0x3F || 0x41 <= code <= 0x46 || 0x61 <= code <= 0x66
    ensures code < 0x30 ==> AsciiToSlot(code) == 0
    ensures 0x30 <= code <= 0x3F ==> AsciiToSlot(code) == code - 0x30
    ensures 0x41 <= code <= 0x46 ==> AsciiToSlot(code) == 10 + (code - 0x41)
    ensures 0x61 <= code <= 0x66 ==> AsciiToSlot(code) == 10 + (code - 0x61)
    ensures SlotToAscii(AsciiToSlot(MOVING_CODE)).None?
  {
  }

  // --- the wheel as a value --------------------------------------------------

  const SETTLE_POLLS: nat := 3

  datatype Wheel = Wheel(position: nat, target: nat, settle: nat)

  const AT_REST: Wheel := Wheel(0, 0, 0)

  datatype WheelError = CameraNotOpen | InvalidFilterSlot(slot: nat)

  function Commanded(w: Wheel, target: nat): Wheel {
    if SlotToAscii(target).None? then w
    else Wheel(w.position, target, if target == w.position then 0 else SETTLE_POLLS)
  }

  function Polled(w: Wheel): Wheel {
    if w.settle == 0 then w
    else if w.settle == 1 then Wheel(w.target, w.target, 0)
    else w.(settle := w.settle - 1)
  }

  function PollStatus(w: Wheel): Status {
    if w.settle > 1 then Moving
    else if w.settle == 1 then Slot(w.target)
    else Slot(w.position)
  }

  /** A read of the wheel by code, and what a typed read makes of it. */
  function ReadCode(w: Wheel): Result<nat, WheelError> {
    match PollStatus(w)
    case Moving => Ok(MOVING_CODE)
    case Slot(slot) =>
      match SlotToAscii(slot)
      case None => Err(InvalidFilterSlot(slot))
      case Some(code) => Ok(code)
  }

  function ReadStatus(w: Wheel): Result<Status, WheelError> {
    match ReadCode(w)
    case Err(e) => Err(e)
    case Ok(code) => Ok(AsciiToStatus(code))
  }

  // --- in place --------------------------------------------------------------

  /** The wheel's part of a simulated camera; `answers` says whether the camera answers a call. */
  class SimulatedWheel {
    var position: nat
    var target: nat
    var settle: nat

    ghost function Value(): Wheel
      reads this
    {
      Wheel(position, target, settle)
    }

    constructor ()
      ensures Value() == AT_REST
    {
      position, target, settle := 0, 0, 0;
    }

    method Command(slot: nat) returns (r: Result<(), WheelError>)
      modifies this`target, this`settle
      ensures Value() == Commanded(old(Value()), slot)
      ensures r == if slot < 16 then Ok(()) else Err(InvalidFilterSlot(slot))
    {
      SlotCodesRoundTrip(slot);
      if SlotToAscii(slot).None? {
        return Err(InvalidFilterSlot(slot));
      }
      target := slot;
      settle := if slot == position then 0 else SETTLE_POLLS;
      r := Ok(());
    }

    method Poll() returns (status: Status)
      modifies this`position, this`settle
      ensures Value() == Polled(old(Value())) && status == PollStatus(old(Value()))
    {
      if settle > 0 {
        settle := settle - 1;
        if settle > 0 {
          return Moving;
        }
        position := target;
      }
      status := Slot(position);
    }

    method GetCode(answers: bool) returns (r: Result<nat, WheelError>)
      modifies this
      ensures r == if answers then ReadCode(old(Value())) else Err(CameraNotOpen)
      ensures Value() == if answers then Polled(old(Value())) else old(Value())
    {
      if !answers {
        return Err(CameraNotOpen);
      }
      var status := Poll();
      if status.Moving? {
        return Ok(MOVING_CODE);
      }
      var code := SlotToAscii(status.slot);
      r := if code.None? then Err(InvalidFilterSlot(status.slot)) else Ok(code.value);
    }

    method SetCode(code: nat, answers: bool) returns (r: Result<(), WheelError>)
      modifies this
      ensures Value() == After(old(Value()), SetCodeOp(code, answers))
      ensures r == Reply(old(Value()), SetCodeOp(code, answers)).done
    {
      if !answers {
        return Err(CameraNotOpen);
      }
      r := Command(AsciiToSlot(code));
    }

    method Position(answers: bool) returns (r: Result<Status, WheelError>)
      modifies this
      ensures Value() == After(old(Value()), ReadOp(answers))
      ensures r == Reply(old(Value()), ReadOp(answers)).status
    {
      var code := GetCode(answers);
      r := if code.Err? then Err(code.error) else Ok(AsciiToStatus(code.value));
    }

    method SetPosition(slot: nat, answers: bool) returns (r: Result<(), WheelError>)
      modifies this
      ensures Value() == After(old(Value()), SetSlotOp(slot, answers))
      ensures r == Reply(old(Value()), SetSlotOp(slot, answers)).done
    {
      SlotCodesRoundTrip(slot);
      var code := SlotToAscii(slot);
      if code.None? {
        return Err(InvalidFilterSlot(slot));
      }
      r := SetCode(code.value, answers);
    }
  }

  // --- runs ------------------------------------------------------------------

  datatype Op =
    | SetSlotOp(slot: nat, answers: bool)
    | SetCodeOp(code: nat, answers: bool)
    | ReadOp(answers: bool)

  datatype Replied = Done(done: Result<(), WheelError>) | Told(status: Result<Status, WheelError>)

  function AfterCode(w: Wheel, code: nat, answers: bool): Wheel {
    if answers then Commanded(w, AsciiToSlot(code)) else w
  }

  function CodeResult(code: nat, answers: bool): Result<(), WheelError> {
    if !answers then Err(CameraNotOpen)
    else if SlotToAscii(AsciiToSlot(code)).None? then Err(InvalidFilterSlot(AsciiToSlot(code)))
    else Ok(())
  }

  function After(w: Wheel, op: Op): Wheel {
    match op
    case SetSlotOp(slot, answers) =>
      if SlotToAscii(slot).None? then w else AfterCode(w, SlotToAscii(slot).value, answers)
    case SetCodeOp(code, answers) => AfterCode(w, code, answers)
    case ReadOp(answers) => if answers then Polled(w) else w
  }

  function Reply(w: Wheel, op: Op): Replied {
    match op
    case SetSlotOp(slot, answers) =>
      Done(if SlotToAscii(slot).None? then Err(InvalidFilterSlot(slot)) else CodeResult(SlotToAscii(slot).value, answers))
    case SetCodeOp(code, answers) => Done(CodeResult(code, answers))
    case ReadOp(answers) => Told(if answers then ReadStatus(w) else Err(CameraNotOpen))
  }

  function Run(ops: seq<Op>): Wheel {
    if ops == [] then AT_REST else After(Run(ops[..|ops| - 1]), ops[|ops| - 1])
  }

  /**
   * What a command answers: a typed one for a slot past the sixteenth is refused whether or
   * not the camera answers; otherwise a camera that does not answer is the error, and a
   * code that names no slot is refused by the wheel.
   */
  lemma CommandReplies(w: Wheel, slot: nat, code: nat, answers: bool)
    ensures Reply(w, SetSlotOp(slot, answers)) ==
              Done(if slot >= 16 then Err(InvalidFilterSlot(slot)) else if answers then Ok(()) else Err(CameraNotOpen))
    ensures Reply(w, SetCodeOp(code, answers)) ==
              Done(if !answers then Err(CameraNotOpen)
                   else if code <= 0x3F || 0x41 <= code <= 0x46 || 0x61 <= code <= 0x66 then Ok(())
                   else Err(InvalidFilterSlot(code - 0x30)))
    ensures !Reply(w, SetCodeOp(code, answers)).done.Ok? ==> After(w, SetCodeOp(code, answers)) == w
    ensures !Reply(w, SetSlotOp(slot, answers)).done.Ok? ==> After(w, SetSlotOp(slot, answers)) == w
  {
    SlotCodesRoundTrip(slot);
    CommandableCodes(code);
  }

  // --- the plain history ---------------------------------------------------

  /** What a wheel felt: it was sent to a slot, or it was read. */
  datatype Event = Sent(slot: nat) | Read

  function Felt(op: Op): seq<Event> {
    match op
    case SetSlotOp(slot, answers) => if answers && slot < 16 then [Sent(slot)] else []
    case SetCodeOp(code, answers) => if answers && AsciiToSlot(code) < 16 then [Sent(AsciiToSlot(code))] else []
    case ReadOp(answers) => if answers then [Read] else []
  }

  function History(ops: seq<Op>): seq<Event> {
    if ops == [] then [] else History(ops[..|ops| - 1]) + Felt(ops[|ops| - 1])
  }

  /** How many reads ended the history, since the wheel was last sent anywhere. */
  function ReadsSince(h: seq<Event>): nat {
    if h == [] || h[|h| - 1].Sent? then 0 else ReadsSince(h[..|h| - 1]) + 1
  }

  /** Where the wheel was last sent; it starts at slot 0. */
  function Destination(h: seq<Event>): nat {
    if h == [] then 0 else if h[|h| - 1].Sent? then h[|h| - 1].slot else Destination(h[..|h| - 1])
  }

  /** The history up to where the wheel was last sent. */
  function BeforeMove(h: seq<Event>): (r: seq<Event>)
    ensures |r| <= |h| && (h != [] ==> |r| < |h|)
  {
    if h == [] then [] else if h[|h| - 1].Sent? then h[..|h| - 1] else BeforeMove(h[..|h| - 1])
  }

  /** The slot the wheel stands on: the latest one it was given three reads to reach. */
  function Standing(h: seq<Event>): nat
    decreases |h|
  {
    if h == [] then 0
    else if ReadsSince(h) >= SETTLE_POLLS then Destination(h)
    else Standing(BeforeMove(h))
  }

  /** What the next read says. */
  function Expected(h: seq<Event>): Status {
    if Destination(h) == Standing(BeforeMove(h)) || ReadsSince(h) + 1 >= SETTLE_POLLS
    then Slot(Destination(h)) else Moving
  }

  /** The wheel a history leaves behind. */
  function Left(h: seq<Event>): Wheel {
    Wheel(Standing(h), Destination(h),
          if Destination(h) == Standing(BeforeMove(h)) || ReadsSince(h) >= SETTLE_POLLS then 0
          else SETTLE_POLLS - ReadsSince(h))
  }

  lemma LeftBySent(h: seq<Event>, slot: nat)
    requires slot < 16
    ensures Left(h + [Sent(slot)]) == Commanded(Left(h), slot)
  {
    assert (h + [Sent(slot)])[..|h|] == h;
  }

  lemma LeftByRead(h: seq<Event>)
    ensures Left(h + [Read]) == Polled(Left(h))
  {
    assert (h + [Read])[..|h|] == h;
    assert BeforeMove(h + [Read]) == BeforeMove(h);
  }

  lemma {:induction false} WheelIsItsHistory(ops: seq<Op>)
    ensures Run(ops) == Left(History(ops))
  {
    if ops != [] {
      var before, op := ops[..|ops| - 1], ops[|ops| - 1];
      WheelIsItsHistory(before);
      var h := History(before);
      assert h + [] == h;
      match op
      case SetSlotOp(slot, answers) =>
        SlotCodesRoundTrip(slot);
        if answers && slot < 16 { LeftBySent(h, slot); }
      case SetCodeOp(code, answers) =>
        if answers && AsciiToSlot(code) < 16 { LeftBySent(h, AsciiToSlot(code)); }
      case ReadOp(answers) =>
        if answers { LeftByRead(h); }
    }
  }

  lemma {:induction false} SlotsStayEncodable(ops: seq<Op>)
    ensures Run(ops).position < 16 && Run(ops).target < 16
  {
    if ops != [] { SlotsStayEncodable(ops[..|ops| - 1]); }
  }

  /**
   * After every run of typed commands, raw codes and reads, answered or not, an answered
   * read goes through encode and decode unharmed and says what the plain history says; in
   * particular it is never refused for naming no slot.
   */
  lemma ReadsRefineHistory(ops: seq<Op>)
    ensures Reply(Run(ops), ReadOp(true)) == Told(Ok(Expected(History(ops))))
    ensures Run(ops).position < 16 && Run(ops).target < 16
  {
    SlotsStayEncodable(ops);
    WheelIsItsHistory(ops);
    SlotCodesRoundTrip(Run(ops).position);
    SlotCodesRoundTrip(Run(ops).target);
  }

  predicate Moves(op: Op) {
    Felt(op) != [] && Felt(op)[0].Sent?
  }

  function Reads(ops: seq<Op>): nat {
    if ops == [] then 0 else Reads(ops[..|ops| - 1]) + if ops[|ops| - 1] == ReadOp(true) then 1 else 0
  }

  /** What `h` remembers of the move that followed the history `was`. */
  ghost predicate MovedFrom(h: seq<Event>, was: seq<Event>, slot: nat, count: nat) {
    ReadsSince(h) == count && Destination(h) == slot && BeforeMove(h) == was
  }

  lemma SentMoves(h: seq<Event>, slot: nat)
    ensures MovedFrom(h + [Sent(slot)], h, slot, 0)
  {
    assert (h + [Sent(slot)])[..|h|] == h;
  }

  lemma ReadKeepsMove(h: seq<Event>, was: seq<Event>, slot: nat, count: nat)
    requires MovedFrom(h, was, slot, count)
    ensures MovedFrom(h + [Read], was, slot, count + 1)
  {
    assert (h + [Read])[..|h|] == h;
  }

  lemma HistoryAppend(ops: seq<Op>, op: Op)
    ensures History(ops + [op]) == History(ops) + Felt(op)
  {
    assert (ops + [op])[..|ops|] == ops;
  }

  /** One more call that sends the wheel nowhere. */
  lemma CallKeepsMove(ops: seq<Op>, op: Op, was: seq<Event>, slot: nat, count: nat)
    requires MovedFrom(History(ops), was, slot, count) && !Moves(op)
    ensures MovedFrom(History(ops + [op]), was, slot, count + if op == ReadOp(true) then 1 else 0)
  {
    HistoryAppend(ops, op);
    if op == ReadOp(true) {
      ReadKeepsMove(History(ops), was, slot, count);
    } else {
      assert History(ops) + Felt(op) == History(ops);
    }
  }

  lemma SplitLast<T>(a: seq<T>, b: seq<T>)
    requires b != []
    ensures a + b == (a + b[..|b| - 1]) + [b[|b| - 1]]
  {
  }

  lemma {:induction false} CallsKeepMove(ops: seq<Op>, more: seq<Op>, was: seq<Event>, slot: nat)
    requires MovedFrom(History(ops), was, slot, 0)
    requires forall k :: 0 <= k < |more| ==> !Moves(more[k])
    ensures MovedFrom(History(ops + more), was, slot, Reads(more))
  {
    if more == [] {
      assert ops + more == ops;
    } else {
      var before, last := more[..|more| - 1], more[|more| - 1];
      CallsKeepMove(ops, before, was, slot);
      SplitLast(ops, more);
      CallKeepsMove(ops + before, last, was, slot, Reads(before));
    }
  }

  /**
   * A typed command to a slot the wheel does not stand on, not superseded since: the first
   * two answered reads say the wheel is moving, every later one names the slot, whatever
   * refused or unanswered calls come in between. To its own slot it does not move at all.
   */
  lemma MoveSettles(ops: seq<Op>, slot: nat, more: seq<Op>)
    requires slot < 16 && forall k :: 0 <= k < |more| ==> !Moves(more[k])
    ensures Reply(Run(ops + [SetSlotOp(slot, true)] + more), ReadOp(true))
         == Told(Ok(if slot == Run(ops).position || Reads(more) >= 2 then Slot(slot) else Moving))
  {
    WheelIsItsHistory(ops);
    HistoryAppend(ops, SetSlotOp(slot, true));
    SentMoves(History(ops), slot);
    CallsKeepMove(ops + [SetSlotOp(slot, true)], more, History(ops), slot);
    ReadsRefineHistory(ops + [SetSlotOp(slot, true)] + more);
  }
}
