/**
 * The handle cell of a real camera: a reader/writer lock around an optional SDK handle,
 * shared by the clones of one camera and closed on the last clone's drop. A run is any
 * interleaving of calls, opens, closes, clones and drops; the foreign SDK may fail any
 * open or close. The lock is task-fair: a writer first claims it, from when on no reader
 * gets in, and then waits for the readers inside to leave.
 */
module HandleCellProtocol {
  import opened Common

  datatype Kind = Calling | Opening | Closing

  datatype Outcome = Succeeded | NotOpen | SdkFailed

  /** Where one `with_handle`, `open` or `close` stands. */
  datatype Pc =
    | Start
    | Inside(handle: nat)
    | WaitsToWrite
    | Queued
    | Locked
    | InOpen
    | Opened(handle: nat)
    | InClose(handle: nat)
    | Closed(handle: nat)
    | Done(outcome: Outcome)

  /** An operation runs on a borrowed clone, which therefore outlives it. */
  datatype Op = Op(clone: nat, kind: Kind, pc: Pc)

  /** The cell itself: `Dropping` runs the last-drop close, which may leave its handle behind. */
  datatype Life = Alive | Dropping(handle: Option<nat>) | Gone(leaked: Option<nat>)

  /**
   * `open` is what the foreign SDK holds open for this cell; handles are numbered as
   * they are issued; `closed` lists the successful closes. `writer` has claimed the lock,
   * and holds it once it is past `Queued`.
   */
  datatype State = State(
    cell: Option<nat>, readers: set<nat>, writer: Option<nat>, clones: set<nat>, life: Life,
    open: set<nat>, issued: nat, closed: seq<nat>, ops: seq<Op>)

  const INITIAL := State(None, {}, None, {0}, Alive, {}, 0, [], [])

  datatype Move =
    | Enter | Return
    | Check | Claim | Lock | Recheck
    | SdkOpens | SdkOpenFails | Install
    | SdkCloses | SdkCloseFails | Take

  datatype Action =
    | Clone(from: nat, copy: nat)
    | Drop(clone: nat)
    | LastDropClose(ok: bool)
    | Begin(clone: nat, kind: Kind)
    | Step(op: nat, move: Move)

  predicate Active(o: Op) {
    !o.pc.Done?
  }

  predicate MoveEnabled(s: State, i: nat, m: Move)
    requires i < |s.ops|
  {
    var o := s.ops[i];
    match m
    case Enter => o.kind.Calling? && o.pc.Start? && s.writer.None?
    case Return => o.pc.Inside?
    case Check => !o.kind.Calling? && o.pc.Start? && s.writer.None?
    case Claim => o.pc.WaitsToWrite? && s.writer.None?
    case Lock => o.pc.Queued? && s.readers == {}
    case Recheck => o.pc.Locked?
    case SdkOpens => o.pc.InOpen?
    case SdkOpenFails => o.pc.InOpen?
    case Install => o.pc.Opened?
    case SdkCloses => o.pc.InClose?
    case SdkCloseFails => o.pc.InClose?
    case Take => o.pc.Closed?
  }

  predicate Enabled(s: State, a: Action) {
    match a
    case Clone(from, copy) => from in s.clones && copy !in s.clones
    case Drop(c) => c in s.clones && forall i :: 0 <= i < |s.ops| && s.ops[i].clone == c ==> !Active(s.ops[i])
    case LastDropClose(_) => s.life.Dropping?
    case Begin(c, _) => c in s.clones
    case Step(i, m) => i < |s.ops| && MoveEnabled(s, i, m)
  }

  function At(s: State, i: nat, pc: Pc): State
    requires i < |s.ops|
  {
    s.(ops := s.ops[i := s.ops[i].(pc := pc)])
  }

  function AfterMove(s: State, i: nat, m: Move): State
    requires i < |s.ops| && MoveEnabled(s, i, m)
  {
    var o := s.ops[i];
    match m
    case Enter =>
      if s.cell.None? then At(s, i, Done(NotOpen)) else At(s, i, Inside(s.cell.value)).(readers := s.readers + {i})
    case Return => At(s, i, Done(Succeeded)).(readers := s.readers - {i})
    case Check =>
      // `is_open` under a read lock of its own: the answer may be stale by the time the write lock is taken.
      if s.cell.Some? == o.kind.Opening? then At(s, i, Done(Succeeded)) else At(s, i, WaitsToWrite)
    case Claim => At(s, i, Queued).(writer := Some(i))
    case Lock => At(s, i, Locked)
    case Recheck =>
      if s.cell.Some? == o.kind.Opening? then At(s, i, Done(Succeeded)).(writer := None)
      else if o.kind.Opening? then At(s, i, InOpen)
      else if s.cell.Some? then At(s, i, InClose(s.cell.value))
      else s
    case SdkOpens => At(s, i, Opened(s.issued)).(open := s.open + {s.issued}, issued := s.issued + 1)
    case SdkOpenFails => At(s, i, Done(SdkFailed)).(writer := None)
    case Install => At(s, i, Done(Succeeded)).(cell := Some(o.pc.handle), writer := None)
    case SdkCloses => At(s, i, Closed(o.pc.handle)).(open := s.open - {o.pc.handle}, closed := s.closed + [o.pc.handle])
    case SdkCloseFails => At(s, i, Done(SdkFailed)).(writer := None)
    case Take => At(s, i, Done(Succeeded)).(cell := None, writer := None)
  }

  function Next(s: State, a: Action): State
    requires Enabled(s, a)
  {
    match a
    case Clone(_, copy) => s.(clones := s.clones + {copy})
    case Drop(c) =>
      var t := s.(clones := s.clones - {c});
      if t.clones == {} then t.(life := Dropping(s.cell), cell := None) else t
    case LastDropClose(ok) =>
      if s.life.handle.Some? && ok then
        s.(life := Gone(None), open := s.open - {s.life.handle.value}, closed := s.closed + [s.life.handle.value])
      else s.(life := Gone(s.life.handle))
    case Begin(c, kind) => s.(ops := s.ops + [Op(c, kind, Start)])
    case Step(i, m) => AfterMove(s, i, m)
  }

  function Run(actions: seq<Action>): Option<State> {
    if actions == [] then Some(INITIAL)
    else
      match Run(actions[..|actions| - 1])
      case None => None
      case Some(s) => if Enabled(s, actions[|actions| - 1]) then Some(Next(s, actions[|actions| - 1])) else None
  }

  // --- the invariant ---------------------------------------------------------

  predicate Writes(pc: Pc) {
    pc.Locked? || pc.InOpen? || pc.Opened? || pc.InClose? || pc.Closed?
  }

  predicate Claims(pc: Pc) {
    pc.Queued? || Writes(pc)
  }

  function Content(c: Option<nat>): set<nat> {
    if c.Some? then {c.value} else {}
  }

  /** What the SDK should hold open: the cell, give or take a writer in the middle of its call. */
  function Owned(s: State): set<nat> {
    match s.life
    case Dropping(h) => Content(h)
    case Gone(h) => Content(h)
    case Alive =>
      if s.writer.Some? && s.writer.value < |s.ops| then
        match s.ops[s.writer.value].pc
        case Opened(h) => {h}
        case Closed(_) => {}
        case _ => Content(s.cell)
      else Content(s.cell)
  }

  ghost predicate OpOk(s: State, i: nat)
    requires i < |s.ops|
  {
    var o := s.ops[i];
    && (Active(o) ==> o.clone in s.clones)
    && (Claims(o.pc) <==> s.writer == Some(i))
    && (o.pc.Inside? <==> i in s.readers)
    && match o.pc
       case Inside(h) => o.kind.Calling? && s.cell == Some(h)
       case InOpen => o.kind.Opening? && s.cell.None?
       case Opened(h) => o.kind.Opening? && s.cell.None? && h < s.issued
       case InClose(h) => o.kind.Closing? && s.cell == Some(h)
       case Closed(h) => o.kind.Closing? && s.cell == Some(h)
       case WaitsToWrite => !o.kind.Calling?
       case Queued => !o.kind.Calling?
       case Locked => !o.kind.Calling?
       case _ => true
  }

  ghost predicate Distinct(q: seq<nat>) {
    forall i, j :: 0 <= i < j < |q| ==> q[i] != q[j]
  }

  /** Every handle the SDK ever issued is open or was closed, never both, never twice. */
  ghost predicate Accounted(s: State) {
    && Distinct(s.closed)
    && (forall h: nat :: h < s.issued ==> (h in s.open <==> h !in s.closed))
    && (forall h :: h in s.open ==> h < s.issued)
    && (forall h :: h in s.closed ==> h < s.issued)
  }

  ghost predicate Inv(s: State) {
    && (s.writer.Some? ==> s.writer.value < |s.ops|)
    && (s.writer.Some? && Writes(s.ops[s.writer.value].pc) ==> s.readers == {})
    && (forall i :: i in s.readers ==> i < |s.ops|)
    && (s.life.Alive? <==> s.clones != {})
    && (!s.life.Alive? ==> s.cell.None?)
    && s.open == Owned(s)
    && Accounted(s)
    && (forall i: nat :: i < |s.ops| ==> OpOk(s, i))
  }

  lemma WriterIsActive(s: State)
    requires Inv(s) && s.writer.Some?
    ensures Active(s.ops[s.writer.value])
  {
    assert OpOk(s, s.writer.value);
  }

  lemma OpsKept(s: State, t: State, i: nat)
    requires Inv(s) && i < |s.ops| && |t.ops| == |s.ops|
    requires forall j: nat :: j < |s.ops| && j != i ==> t.ops[j] == s.ops[j]
    requires t.clones == s.clones && t.issued >= s.issued
    requires forall j: nat :: j < |s.ops| && j != i ==> (t.writer == Some(j) <==> s.writer == Some(j)) && (j in t.readers <==> j in s.readers)
    requires t.cell == s.cell || (s.writer == Some(i) && s.readers == {})
    requires OpOk(t, i)
    ensures forall j: nat :: j < |t.ops| ==> OpOk(t, j)
  {
    forall j: nat | j < |t.ops| ensures OpOk(t, j) {
      assert OpOk(s, j);
    }
  }

  lemma AccountedMoves(s: State, t: State)
    requires Accounted(s)
    requires t.issued == s.issued && t.open == s.open && t.closed == s.closed
    ensures Accounted(t)
  {
  }

  lemma CloseAccounted(s: State, t: State, h: nat)
    requires Accounted(s) && h in s.open
    requires t.issued == s.issued && t.open == s.open - {h} && t.closed == s.closed + [h]
    ensures Accounted(t)
  {
    assert h !in s.closed;
  }

  lemma MoveKept(s: State, i: nat, m: Move)
    requires Inv(s) && i < |s.ops| && MoveEnabled(s, i, m)
    ensures Inv(AfterMove(s, i, m))
  {
    var t := AfterMove(s, i, m);
    assert OpOk(s, i);
    OpsKept(s, t, i);
    if m.SdkCloses? {
      CloseAccounted(s, t, s.ops[i].pc.handle);
    } else if !m.SdkOpens? {
      AccountedMoves(s, t);
    }
  }

  lemma ActionKept(s: State, a: Action)
    requires Inv(s) && Enabled(s, a)
    ensures Inv(Next(s, a))
  {
    var t := Next(s, a);
    match a
    case Step(i, m) => MoveKept(s, i, m);
    case Clone(_, _) => forall i: nat | i < |t.ops| ensures OpOk(t, i) { assert OpOk(s, i); }
    case Begin(c, _) => forall i: nat | i < |t.ops| ensures OpOk(t, i) { if i < |s.ops| { assert OpOk(s, i); } }
    case Drop(c) => DropKept(s, c);
    case LastDropClose(ok) =>
      forall i: nat | i < |t.ops| ensures OpOk(t, i) { assert OpOk(s, i); }
      if s.life.handle.Some? && ok { CloseAccounted(s, t, s.life.handle.value); }
  }

  lemma DropKept(s: State, c: nat)
    requires Inv(s) && Enabled(s, Drop(c))
    ensures Inv(Next(s, Drop(c)))
  {
    var t := Next(s, Drop(c));
    forall i: nat | i < |t.ops| ensures OpOk(t, i) { assert OpOk(s, i); }
    LastDropIsQuiet(s, c);
    if s.writer.Some? { WriterIsActive(s); }
  }

  /** When the last clone drops, no operation is left. */
  lemma LastDropIsQuiet(s: State, c: nat)
    requires Inv(s) && Enabled(s, Drop(c))
    ensures s.clones - {c} == {} ==> forall i: nat :: i < |s.ops| ==> !Active(s.ops[i])
  {
    forall i: nat | i < |s.ops| && s.clones - {c} == {} ensures !Active(s.ops[i]) {
      assert OpOk(s, i);
      assert s.ops[i].clone !in s.clones - {c};
    }
  }

  lemma {:induction false} RunKept(actions: seq<Action>)
    requires Run(actions).Some?
    ensures Inv(Run(actions).value)
  {
    if actions != [] {
      RunKept(actions[..|actions| - 1]);
      ActionKept(Run(actions[..|actions| - 1]).value, actions[|actions| - 1]);
    }
  }

  // --- what it gives ---------------------------------------------------------

  predicate NobodyWrites(s: State) {
    forall i :: 0 <= i < |s.ops| ==> !Writes(s.ops[i].pc)
  }

  /**
   * While the cell lives and nobody is inside a write lock, the SDK holds open exactly
   * the handle the cell holds; at any moment it holds at most one.
   */
  lemma OpenIsTheCell(actions: seq<Action>)
    requires Run(actions).Some?
    ensures var s := Run(actions).value;
            && (s.life.Alive? && NobodyWrites(s) ==> s.open == Content(s.cell))
            && (forall g, h :: g in s.open && h in s.open ==> g == h)
  {
    RunKept(actions);
    var s := Run(actions).value;
    if s.writer.Some? { assert OpOk(s, s.writer.value); }
  }

  predicate Is(s: State, i: nat, pc: Pc) {
    i < |s.ops| && s.ops[i].pc == pc
  }

  predicate NobodyQueues(s: State) {
    forall i :: 0 <= i < |s.ops| ==> !s.ops[i].pc.Queued?
  }

  /**
   * No close overlaps a call: not an explicit one, not the last drop's; and a call's
   * handle is live. Calls may overlap: another one can start exactly while no open or
   * close has queued for the lock.
   */
  lemma NoCloseOverlapsACall(actions: seq<Action>, i: nat)
    requires Run(actions).Some? && i < |Run(actions).value.ops| && Run(actions).value.ops[i].pc.Inside?
    ensures var s := Run(actions).value;
            && s.ops[i].pc.handle in s.open
            && s.life.Alive?
            && NobodyWrites(s)
            && (forall j: nat :: j < |s.ops| && s.ops[j].kind.Calling? && s.ops[j].pc.Start? ==>
                  (MoveEnabled(s, j, Enter) <==> NobodyQueues(s)))
  {
    RunKept(actions);
    var s := Run(actions).value;
    assert OpOk(s, i);
    forall j: nat | j < |s.ops| ensures !Writes(s.ops[j].pc) && (s.ops[j].pc.Queued? ==> s.writer == Some(j)) {
      assert OpOk(s, j);
    }
    if s.writer.Some? { assert OpOk(s, s.writer.value); }
  }

  // --- what an operation answers ---------------------------------------------

  /** The answer of an operation agrees with the cell at the moment it ends. */
  predicate Honest(kind: Kind, outcome: Outcome, cell: Option<nat>) {
    match kind
    case Calling => outcome == if cell.Some? then Succeeded else NotOpen
    case Opening => outcome == if cell.Some? then Succeeded else SdkFailed
    case Closing => outcome == if cell.None? then Succeeded else SdkFailed
  }

  /** The SDK was asked to open or close, and refused. */
  predicate SdkRefuses(a: Action, i: nat) {
    a == Step(i, SdkOpenFails) || a == Step(i, SdkCloseFails)
  }

  predicate IsDone(s: State, i: nat) {
    i < |s.ops| && s.ops[i].pc.Done?
  }

  lemma EndsHonestly(s: State, a: Action, i: nat)
    requires Inv(s) && Enabled(s, a) && i < |s.ops| && !IsDone(s, i) && IsDone(Next(s, a), i)
    ensures var o := Next(s, a).ops[i];
            Honest(o.kind, o.pc.outcome, Next(s, a).cell) && (o.pc.outcome == SdkFailed <==> SdkRefuses(a, i))
  {
    assert OpOk(s, i);
    assert a.Step? && a.op == i;
    MoveEndsHonestly(s, i, a.move);
  }

  lemma MoveEndsHonestly(s: State, i: nat, m: Move)
    requires i < |s.ops| && OpOk(s, i) && MoveEnabled(s, i, m)
    requires IsDone(AfterMove(s, i, m), i)
    ensures var o := AfterMove(s, i, m).ops[i];
            && Honest(o.kind, o.pc.outcome, AfterMove(s, i, m).cell)
            && (o.pc.outcome == SdkFailed <==> m.SdkOpenFails? || m.SdkCloseFails?)
  {
  }

  lemma DoneStays(s: State, a: Action, i: nat)
    requires Enabled(s, a) && IsDone(s, i)
    ensures i < |Next(s, a).ops| && Next(s, a).ops[i] == s.ops[i]
  {
  }

  lemma NotBornDone(s: State, a: Action, i: nat)
    requires Enabled(s, a) && |s.ops| <= i < |Next(s, a).ops|
    ensures !IsDone(Next(s, a), i)
  {
  }

  lemma RunStep(actions: seq<Action>)
    requires actions != [] && Run(actions).Some?
    ensures var before := Run(actions[..|actions| - 1]);
            before.Some? && Enabled(before.value, actions[|actions| - 1]) && Run(actions).value == Next(before.value, actions[|actions| - 1])
  {
  }

  /** Operation `i` ended with action `k`, when the cell was as its answer says. */
  ghost predicate EndedAt(actions: seq<Action>, i: nat, k: nat, kind: Kind, outcome: Outcome) {
    && k < |actions| && Run(actions[..k]).Some? && Run(actions[..k + 1]).Some?
    && var s, t := Run(actions[..k]).value, Run(actions[..k + 1]).value;
    && !IsDone(s, i) && IsDone(t, i) && t.ops[i].kind == kind && t.ops[i].pc == Done(outcome)
    && Honest(kind, outcome, t.cell)
    && (outcome == SdkFailed <==> SdkRefuses(actions[k], i))
  }

  /**
   * In every run an operation that is done ended at one moment, and answered what was so
   * then: an open or a call succeeded if and only if the cell was filled, a close if and
   * only if it was empty; a call found the camera not open if and only if it was empty;
   * and the SDK is blamed exactly when it refused.
   */
  lemma {:induction false} AnswersAreHonest(actions: seq<Action>, i: nat) returns (k: nat)
    requires Run(actions).Some? && IsDone(Run(actions).value, i)
    ensures var o := Run(actions).value.ops[i]; EndedAt(actions, i, k, o.kind, o.pc.outcome)
  {
    var before, a := actions[..|actions| - 1], actions[|actions| - 1];
    RunStep(actions);
    var s := Run(before).value;
    if i >= |s.ops| { NotBornDone(s, a, i); }
    if IsDone(s, i) {
      k := AnswersAreHonest(before, i);
      DoneStays(s, a, i);
      assert actions[..k] == before[..k] && actions[..k + 1] == before[..k + 1];
    } else {
      k := |before|;
      RunKept(before);
      EndsHonestly(s, a, i);
      assert actions[..k + 1] == actions;
    }
  }

  /** A call enters with the handle the cell holds and returns, or ends at once if there is none. */
  lemma CallsEnter(s: State, i: nat)
    requires i < |s.ops| && MoveEnabled(s, i, Enter)
    ensures var t := AfterMove(s, i, Enter);
            && |t.ops| == |s.ops| && t.cell == s.cell
            && (s.cell.None? ==> t.ops[i].pc == Done(NotOpen) && t.readers == s.readers)
            && (s.cell.Some? ==> t.ops[i].pc == Inside(s.cell.value) && i in t.readers)
            && (s.cell.Some? ==> i !in AfterMove(t, i, Return).readers && Is(AfterMove(t, i, Return), i, Done(Succeeded)))
  {
  }

  /** The look before the lock ends an open or a close exactly if there is nothing left to do. */
  lemma LooksFirst(s: State, i: nat)
    requires i < |s.ops| && MoveEnabled(s, i, Check)
    ensures var t := AfterMove(s, i, Check);
            && t.cell == s.cell && |t.ops| == |s.ops|
            && (if s.ops[i].kind.Opening? == s.cell.Some? then t.ops[i].pc == Done(Succeeded) else t.ops[i].pc == WaitsToWrite)
  {
  }

  /**
   * The last drop: with the clones gone the SDK is asked to close what the cell held, and
   * only its refusal leaves a handle behind.
   */
  lemma LastDropCloses(actions: seq<Action>, ok: bool)
    requires Run(actions).Some? && Enabled(Run(actions).value, LastDropClose(ok))
    ensures var s, t := Run(actions).value, Next(Run(actions).value, LastDropClose(ok));
            && |s.clones| == 0 && s.open == Content(s.life.handle)
            && t.life == Gone(if ok then None else s.life.handle)
            && t.open == Content(if ok then None else s.life.handle)
            && t.closed == (if ok && s.life.handle.Some? then s.closed + [s.life.handle.value] else s.closed)
  {
    RunKept(actions);
  }

  // --- a queued writer -------------------------------------------------------

  predicate PastQueue(pc: Pc) {
    Writes(pc) || pc.Done?
  }

  /** Operation `i` has queued in `s`: it still does in `t`, with no new reader, or it is past. */
  predicate StillQueued(s: State, t: State, i: nat) {
    i < |s.ops| && i < |t.ops| && ((t.ops[i].pc.Queued? && t.readers <= s.readers) || PastQueue(t.ops[i].pc))
  }

  lemma QueueStep(s: State, t: State, i: nat, a: Action)
    requires Inv(t) && StillQueued(s, t, i) && Enabled(t, a)
    ensures StillQueued(s, Next(t, a), i)
  {
    assert OpOk(t, i);
  }

  lemma RunSplit(actions: seq<Action>, more: seq<Action>)
    requires more != [] && Run(actions + more).Some?
    ensures var before := Run(actions + more[..|more| - 1]);
            && before.Some? && Enabled(before.value, more[|more| - 1])
            && Run(actions + more).value == Next(before.value, more[|more| - 1])
  {
    assert (actions + more)[..|actions + more| - 1] == actions + more[..|more| - 1];
  }

  lemma {:induction false} QueueKept(actions: seq<Action>, more: seq<Action>, i: nat)
    requires Run(actions + more).Some? && Run(actions).Some?
    requires i < |Run(actions).value.ops| && Run(actions).value.ops[i].pc.Queued?
    ensures StillQueued(Run(actions).value, Run(actions + more).value, i)
  {
    if more == [] {
      assert actions + more == actions;
    } else {
      var shorter := more[..|more| - 1];
      RunSplit(actions, more);
      QueueKept(actions, shorter, i);
      RunKept(actions + shorter);
      QueueStep(Run(actions).value, Run(actions + shorter).value, i, more[|more| - 1]);
    }
  }

  /**
   * A queued open or close is delayed only by the calls already inside: for as long as it
   * queues no reader joins, and once those calls have returned it can take the lock.
   */
  lemma NoReaderJoins(actions: seq<Action>, more: seq<Action>, i: nat)
    requires Run(actions + more).Some? && Run(actions).Some?
    requires i < |Run(actions).value.ops| && Run(actions).value.ops[i].pc.Queued?
    ensures var s, t := Run(actions).value, Run(actions + more).value;
            && StillQueued(s, t, i)
            && (t.ops[i].pc.Queued? && s.readers * t.readers == {} ==> MoveEnabled(t, i, Lock))
  {
    QueueKept(actions, more, i);
    NoneLeft(Run(actions).value.readers, Run(actions + more).value.readers);
  }

  lemma NoneLeft(before: set<nat>, now: set<nat>)
    ensures now <= before && before * now == {} ==> now == {}
  {
    if now <= before { assert before * now == now; }
  }

  function Continue(s: State, actions: seq<Action>): Option<State>
    decreases |actions|
  {
    if actions == [] then Some(s)
    else if Enabled(s, actions[0]) then Continue(Next(s, actions[0]), actions[1..])
    else None
  }

  /** The returns of exactly the calls inside, one each, let a queued open or close have the lock. */
  lemma {:induction false} QueuedDrains(s: State, i: nat) returns (path: seq<Action>)
    requires Inv(s) && i < |s.ops| && s.ops[i].pc.Queued?
    ensures |path| == |s.readers|
    ensures forall k :: 0 <= k < |path| ==> path[k].Step? && path[k].op in s.readers && path[k].move == Return
    ensures Continue(s, path).Some?
    ensures var t := Continue(s, path).value; i < |t.ops| && MoveEnabled(t, i, Lock)
    decreases |s.readers|
  {
    if s.readers == {} {
      path := [];
    } else {
      var j :| j in s.readers;
      assert OpOk(s, j) && OpOk(s, i);
      MoveKept(s, j, Return);
      var t := AfterMove(s, j, Return);
      var rest := QueuedDrains(t, i);
      path := [Step(j, Return)] + rest;
      assert path[1..] == rest;
    }
  }

  /** Every close the SDK is asked for is of a handle it holds open, the last drop's included. */
  lemma OnlyLiveHandlesAreClosed(actions: seq<Action>)
    requires Run(actions).Some?
    ensures var s := Run(actions).value;
            && (forall i: nat :: i < |s.ops| && s.ops[i].pc.InClose? ==> s.ops[i].pc.handle in s.open)
            && (s.life.Dropping? && s.life.handle.Some? ==> s.life.handle.value in s.open)
  {
    RunKept(actions);
    var s := Run(actions).value;
    forall i: nat | i < |s.ops| && s.ops[i].pc.InClose? ensures s.ops[i].pc.handle in s.open {
      assert OpOk(s, i);
      LiveWhileActive(s, i);
    }
  }

  lemma LiveWhileActive(s: State, i: nat)
    requires Inv(s) && i < |s.ops| && Active(s.ops[i])
    ensures s.life.Alive?
  {
    assert OpOk(s, i);
  }

  /**
   * Racing opens strand nothing and no handle is closed twice: every handle ever issued
   * is the one still open or is listed exactly once among the successful closes; after
   * the last drop only a handle whose final close failed is left.
   */
  lemma EveryHandleIsAccountedFor(actions: seq<Action>)
    requires Run(actions).Some?
    ensures var s := Run(actions).value;
            && Distinct(s.closed)
            && (forall h: nat :: h < s.issued ==> (h in s.open <==> h !in s.closed))
            && |s.open| + |s.closed| == s.issued
            && (s.life.Gone? ==> s.open == Content(s.life.leaked))
  {
    RunKept(actions);
    var s := Run(actions).value;
    CountClosed(s.closed, s.issued, s.open);
  }

  lemma {:induction false} DistinctSize(q: seq<nat>, all: set<nat>)
    requires Distinct(q) && forall h :: h in all <==> h in q
    ensures |all| == |q|
  {
    if q == [] {
      assert all == {};
    } else {
      var front, last := q[..|q| - 1], q[|q| - 1];
      assert q == front + [last];
      DistinctSize(front, all - {last});
    }
  }

  lemma {:induction false} RangeSize(n: nat, all: set<nat>)
    requires forall h: nat :: h in all <==> h < n
    ensures |all| == n
  {
    if n == 0 {
      assert all == {};
    } else {
      RangeSize(n - 1, all - {n - 1});
    }
  }

  lemma CountClosed(closed: seq<nat>, issued: nat, open: set<nat>)
    requires Distinct(closed)
    requires forall h: nat :: h < issued ==> (h in open <==> h !in closed)
    requires (forall h :: h in open ==> h < issued) && (forall h :: h in closed ==> h < issued)
    ensures |open| + |closed| == issued
  {
    var gone := set h | h in closed;
    DistinctSize(closed, gone);
    RangeSize(issued, open + gone);
  }

  /** The lock cannot be leaked: whoever claimed it can move, or a call it waits for can return. */
  lemma WriterCanMove(actions: seq<Action>) returns (i: nat, m: Move)
    requires Run(actions).Some? && Run(actions).value.writer.Some?
    ensures var s := Run(actions).value;
            && i < |s.ops| && MoveEnabled(s, i, m) && AfterMove(s, i, m) != s
            && (s.writer == Some(i) || (m == Return && i in s.readers && Is(s, s.writer.value, Queued)))
  {
    RunKept(actions);
    var s := Run(actions).value;
    i := s.writer.value;
    assert OpOk(s, i);
    match s.ops[i].pc
    case Queued =>
      if s.readers == {} {
        m := Lock;
      } else {
        i :| i in s.readers;
        assert OpOk(s, i);
        m := Return;
      }
    case Locked => m := Recheck;
    case InOpen => m := SdkOpenFails;
    case Opened(_) => m := Install;
    case InClose(_) => m := SdkCloseFails;
    case Closed(_) => m := Take;
  }

  // --- the cell updated in place ---------------------------------------------

  /** The moves of `open_with` or `close_with` once the write lock is free, given the SDK's answer. */
  function Locks(s: State, i: nat, sdkOk: bool): State
    requires i < |s.ops| && MoveEnabled(s, i, Lock) && (s.ops[i].kind.Opening? || s.ops[i].kind.Closing?)
  {
    var a := AfterMove(s, i, Lock);
    var b := AfterMove(a, i, Recheck);
    match b.ops[i].pc
    case InOpen => if sdkOk then AfterMove(AfterMove(b, i, SdkOpens), i, Install) else AfterMove(b, i, SdkOpenFails)
    case InClose(_) => if sdkOk then AfterMove(AfterMove(b, i, SdkCloses), i, Take) else AfterMove(b, i, SdkCloseFails)
    case _ => b
  }

  class HandleCell {
    var inner: Option<nat>

    constructor ()
      ensures inner == INITIAL.cell
    {
      inner := None;
    }

    /** The last drop takes the handle out and closes it, whatever the SDK answers. */
    method DropLast(ghost s: State, sdkOk: bool) returns (asked: Option<nat>)
      requires s.life == Dropping(inner)
      modifies this
      ensures inner.None? && asked == old(inner)
      ensures Next(s, LastDropClose(sdkOk)).life == Gone(if sdkOk then None else asked)
    {
      asked := inner;
      inner := None;
    }

    /** `sdk` is what `OpenQHYCCD` would answer; `asked` tells whether it was called. */
    method OpenWith(ghost s: State, ghost i: nat, sdk: Option<nat>) returns (r: Outcome, asked: bool)
      requires s.cell == inner && i < |s.ops| && MoveEnabled(s, i, Lock) && s.ops[i].kind.Opening?
      requires sdk.Some? ==> sdk.value == s.issued
      modifies this
      ensures inner == Locks(s, i, sdk.Some?).cell && Done(r) == Locks(s, i, sdk.Some?).ops[i].pc
      ensures asked <==> old(inner).None?
      ensures inner == if asked then sdk else old(inner)
      ensures r == Succeeded <==> inner.Some?
      ensures r == SdkFailed <==> old(inner).None? && sdk.None?
    {
      if inner.Some? {
        return Succeeded, false;
      }
      if sdk.None? {
        return SdkFailed, true;
      }
      inner := Some(sdk.value);
      return Succeeded, true;
    }

    /** A failed close keeps the handle; closing nothing does not reach the SDK. */
    method CloseWith(ghost s: State, ghost i: nat, sdkOk: bool) returns (r: Outcome, asked: Option<nat>)
      requires s.cell == inner && i < |s.ops| && MoveEnabled(s, i, Lock) && s.ops[i].kind.Closing?
      modifies this
      ensures inner == Locks(s, i, sdkOk).cell && Done(r) == Locks(s, i, sdkOk).ops[i].pc
      ensures asked == old(inner)
      ensures inner == if sdkOk then None else old(inner)
      ensures r == Succeeded <==> inner.None?
      ensures r == SdkFailed <==> old(inner).Some? && !sdkOk
    {
      asked := inner;
      if inner.None? {
        return Succeeded, asked;
      }
      if !sdkOk {
        return SdkFailed, asked;
      }
      inner := None;
      return Succeeded, asked;
    }
  }
}
