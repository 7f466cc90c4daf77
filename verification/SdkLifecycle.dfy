/**
 * One `Sdk` per process: the gate (a flag under a mutex with a condvar), the order of
 * the foreign Init, Scan, Close and Release calls, and camera clones that outlive the
 * `Sdk`. A run is any interleaving of threads making, dropping and waiting for an `Sdk`
 * and of clone holders opening, closing and dropping cameras.
 */
module SdkLifecycle {
  import opened Common

  /** Where a thread stands in `Sdk::new` / `try_new` or in the drop of its `Sdk`. */
  datatype Pc =
    | Wants
    | Parked
    | Woken
    | Tries
    | Refused
    | Claimed
    | Scanning
    | ScanFailed
    | Live(first: nat, count: nat)
    | Tearing(first: nat, count: nat, next: nat)
    | Dropping(first: nat, count: nat, next: nat)
    | Unlocking
    | Notifying
    | Finished

  /** A camera's handle cell: cells `first .. first + count` belong to one `Sdk`. */
  datatype Cell = Cell(open: bool, ofSdk: bool, clones: nat)

  /** Foreign calls, in order; an open is logged when it succeeds. */
  datatype Call =
    | Init(ok: bool)
    | Release
    | Open(cell: nat)
    | Close(cell: nat, ok: bool)

  datatype State = State(held: bool, threads: seq<Pc>, cells: seq<Cell>, log: seq<Call>)

  const INITIAL := State(false, [], [], [])

  datatype Action =
    | Arrive(tries: bool)
    | Acquire(t: nat)
    | TryAcquire(t: nat)
    | CallInit(t: nat, ok: bool)
    | Scan(t: nat, found: Option<nat>)
    | ReleaseAfterScan(t: nat)
    | DropSdk(t: nat)
    | Tear(t: nat, ok: bool)
    | CallRelease(t: nat)
    | Unref(t: nat, ok: bool)
    | Unlock(t: nat)
    | Notify(t: nat, whom: Option<nat>)
    | TakeClone(c: nat)
    | DropClone(c: nat, ok: bool)
    | OpenCamera(c: nat, ok: bool)
    | CloseCamera(c: nat, ok: bool)

  /** The thread holds the gate. */
  predicate Inside(pc: Pc) {
    pc.Claimed? || pc.Scanning? || pc.ScanFailed? || pc.Live? || pc.Tearing? || pc.Dropping? || pc.Unlocking?
  }

  /** The foreign SDK is initialised on the thread's behalf. */
  predicate Up(pc: Pc) {
    pc.Scanning? || pc.ScanFailed? || pc.Live? || pc.Tearing?
  }

  predicate Is(s: State, t: nat, pc: Pc) {
    t < |s.threads| && s.threads[t] == pc
  }

  predicate Reachable(s: State, c: nat) {
    c < |s.cells| && (s.cells[c].ofSdk || s.cells[c].clones > 0)
  }

  predicate Enabled(s: State, a: Action) {
    match a
    case Arrive(_) => true
    case Acquire(t) => Is(s, t, Wants) || Is(s, t, Woken)
    case TryAcquire(t) => Is(s, t, Tries)
    case CallInit(t, _) => Is(s, t, Claimed)
    case Scan(t, _) => Is(s, t, Scanning)
    case ReleaseAfterScan(t) => Is(s, t, ScanFailed)
    case DropSdk(t) => t < |s.threads| && s.threads[t].Live?
    case Tear(t, _) => t < |s.threads| && s.threads[t].Tearing? && s.threads[t].next < s.threads[t].count
    case CallRelease(t) => t < |s.threads| && s.threads[t].Tearing? && s.threads[t].next >= s.threads[t].count
    case Unref(t, _) => t < |s.threads| && s.threads[t].Dropping?
    case Unlock(t) => Is(s, t, Unlocking)
    case Notify(t, whom) =>
      Is(s, t, Notifying) && (if whom.Some? then Is(s, whom.value, Parked) else Parked !in s.threads)
    case TakeClone(c) => Reachable(s, c)
    case DropClone(c, _) => c < |s.cells| && s.cells[c].clones > 0
    case OpenCamera(c, _) => Reachable(s, c)
    case CloseCamera(c, _) => Reachable(s, c)
  }

  function At(s: State, t: nat, pc: Pc): State
    requires t < |s.threads|
  {
    s.(threads := s.threads[t := pc])
  }

  function With(s: State, c: nat, cell: Cell): State
    requires c < |s.cells|
  {
    s.(cells := s.cells[c := cell])
  }

  function Logged(s: State, call: Call): State {
    s.(log := s.log + [call])
  }

  /** The last reference to a cell went: an open handle is taken and closed, whatever the SDK answers. */
  function LastDrop(s: State, c: nat, cell: Cell, ok: bool): State
    requires c < |s.cells|
  {
    if !cell.ofSdk && cell.clones == 0 && cell.open then Logged(With(s, c, cell.(open := false)), Close(c, ok)) else With(s, c, cell)
  }

  /** A close: an open cell is closed, and kept if that fails. */
  function Closed(s: State, c: nat, ok: bool): State
    requires c < |s.cells|
  {
    if s.cells[c].open then Logged(With(s, c, s.cells[c].(open := !ok)), Close(c, ok)) else s
  }

  function Next(s: State, a: Action): State
    requires Enabled(s, a)
  {
    match a
    case Arrive(tries) => s.(threads := s.threads + [if tries then Tries else Wants])
    case Acquire(t) => if s.held then At(s, t, Parked) else At(s, t, Claimed).(held := true)
    case TryAcquire(t) => if s.held then At(s, t, Refused) else At(s, t, Claimed).(held := true)
    case CallInit(t, ok) => Logged(At(s, t, if ok then Scanning else Unlocking), Init(ok))
    case Scan(t, found) =>
      if found.None? then At(s, t, ScanFailed)
      else At(s, t, Live(|s.cells|, found.value)).(cells := s.cells + seq(found.value, i => Cell(false, true, 0)))
    case ReleaseAfterScan(t) => Logged(At(s, t, Unlocking), Release)
    case DropSdk(t) => At(s, t, Tearing(s.threads[t].first, s.threads[t].count, 0))
    case Tear(t, ok) =>
      var pc := s.threads[t];
      var u := At(s, t, Tearing(pc.first, pc.count, pc.next + 1));
      if pc.first + pc.next < |s.cells| then Closed(u, pc.first + pc.next, ok) else u
    case CallRelease(t) =>
      var pc := s.threads[t];
      Logged(At(s, t, Dropping(pc.first, pc.count, 0)), Release)
    case Unref(t, ok) =>
      var pc := s.threads[t];
      if pc.next < pc.count && pc.first + pc.next < |s.cells| then
        var c := pc.first + pc.next;
        LastDrop(At(s, t, Dropping(pc.first, pc.count, pc.next + 1)), c, s.cells[c].(ofSdk := false), ok)
      else At(s, t, Unlocking)
    case Unlock(t) => At(s, t, Notifying).(held := false)
    case Notify(t, whom) =>
      var u := At(s, t, Finished);
      if whom.Some? then At(u, whom.value, Woken) else u
    case TakeClone(c) => With(s, c, s.cells[c].(clones := s.cells[c].clones + 1))
    case DropClone(c, ok) => LastDrop(s, c, s.cells[c].(clones := s.cells[c].clones - 1), ok)
    case OpenCamera(c, ok) =>
      if s.cells[c].open || !ok then s else Logged(With(s, c, s.cells[c].(open := true)), Open(c))
    case CloseCamera(c, ok) => Closed(s, c, ok)
  }

  function Run(actions: seq<Action>): Option<State> {
    if actions == [] then Some(INITIAL)
    else
      match Run(actions[..|actions| - 1])
      case None => None
      case Some(s) => if Enabled(s, actions[|actions| - 1]) then Some(Next(s, actions[|actions| - 1])) else None
  }

  // --- the gate --------------------------------------------------------------

  /** The flag is up exactly while one thread is inside. */
  ghost predicate Exclusive(held: bool, threads: seq<Pc>) {
    && (held <==> exists t: nat :: t < |threads| && Inside(threads[t]))
    && (forall t: nat, u: nat :: t < |threads| && u < |threads| && Inside(threads[t]) && Inside(threads[u]) ==> t == u)
  }

  predicate WillLook(pc: Pc) {
    pc.Woken? || pc.Notifying?
  }

  /** A free gate with a sleeper has a woken waiter yet to look or a releaser yet to notify. */
  ghost predicate NoLostWakeup(held: bool, threads: seq<Pc>) {
    !held && Parked in threads ==> exists t: nat :: t < |threads| && WillLook(threads[t])
  }

  ghost predicate GateOk(held: bool, threads: seq<Pc>) {
    Exclusive(held, threads) && NoLostWakeup(held, threads)
  }

  /** A thread goes from one place outside the gate to another, or from one inside to another. */
  lemma StayExclusive(held: bool, threads: seq<Pc>, t: nat, pc: Pc)
    requires Exclusive(held, threads) && t < |threads| && Inside(threads[t]) == Inside(pc)
    ensures Exclusive(held, threads[t := pc])
  {
    var after := threads[t := pc];
    if held {
      var u: nat :| u < |threads| && Inside(threads[u]);
      assert Inside(after[u]);
    } else {
      forall u: nat | u < |after| ensures !Inside(after[u]) {
        assert !Inside(threads[u]);
      }
    }
  }

  lemma EnterExclusive(threads: seq<Pc>, t: nat)
    requires Exclusive(false, threads) && t < |threads|
    ensures Exclusive(true, threads[t := Claimed])
  {
    assert forall u: nat :: u < |threads| ==> !Inside(threads[u]);
    assert Inside(threads[t := Claimed][t]);
  }

  lemma ArriveGate(held: bool, threads: seq<Pc>, pc: Pc)
    requires GateOk(held, threads) && (pc.Wants? || pc.Tries?)
    ensures GateOk(held, threads + [pc])
  {
    var after := threads + [pc];
    if held {
      var u: nat :| u < |threads| && Inside(threads[u]);
      assert Inside(after[u]);
    } else {
      forall u: nat | u < |after| ensures !Inside(after[u]) {
        if u < |threads| { assert !Inside(threads[u]); }
      }
      if Parked in after {
        assert Parked in threads;
        var t: nat :| t < |threads| && WillLook(threads[t]);
        assert WillLook(after[t]);
      }
    }
  }

  /** A thread inside the gate moves on. */
  lemma InsideGate(held: bool, threads: seq<Pc>, t: nat, pc: Pc)
    requires GateOk(held, threads) && t < |threads| && Inside(threads[t]) && Inside(pc)
    ensures GateOk(held, threads[t := pc])
  {
    StayExclusive(held, threads, t, pc);
  }

  /** `acquire`'s and `try_acquire`'s look at the flag, under the mutex. */
  lemma AcquireGate(held: bool, threads: seq<Pc>, t: nat, refused: Pc)
    requires GateOk(held, threads) && t < |threads| && !Inside(threads[t]) && !Inside(refused)
    ensures GateOk(true, threads[t := if held then refused else Claimed])
  {
    if held {
      StayExclusive(held, threads, t, refused);
    } else {
      EnterExclusive(threads, t);
    }
  }

  lemma UnlockGate(held: bool, threads: seq<Pc>, t: nat)
    requires Exclusive(held, threads) && t < |threads| && threads[t] == Unlocking
    ensures GateOk(false, threads[t := Notifying])
  {
    var after := threads[t := Notifying];
    forall u: nat | u < |after| ensures !Inside(after[u]) {
      if Inside(threads[u]) { assert u == t; }
    }
    assert WillLook(after[t]);
  }

  lemma NotifyGate(held: bool, threads: seq<Pc>, t: nat, whom: Option<nat>)
    requires Exclusive(held, threads) && t < |threads| && threads[t] == Notifying
    requires if whom.Some? then whom.value < |threads| && threads[whom.value] == Parked else Parked !in threads
    ensures var after := threads[t := Finished];
            GateOk(held, if whom.Some? then after[whom.value := Woken] else after)
  {
    var after := threads[t := Finished];
    StayExclusive(held, threads, t, Finished);
    if whom.Some? {
      StayExclusive(held, after, whom.value, Woken);
      assert WillLook(after[whom.value := Woken][whom.value]);
    } else {
      assert Parked !in after;
    }
  }

  lemma GateKept(s: State, a: Action)
    requires GateOk(s.held, s.threads) && Enabled(s, a)
    ensures GateOk(Next(s, a).held, Next(s, a).threads)
  {
    match a
    case Arrive(tries) => ArriveGate(s.held, s.threads, if tries then Tries else Wants);
    case Acquire(t) => AcquireGate(s.held, s.threads, t, Parked);
    case TryAcquire(t) => AcquireGate(s.held, s.threads, t, Refused);
    case Unlock(t) => UnlockGate(s.held, s.threads, t);
    case Notify(t, whom) => NotifyGate(s.held, s.threads, t, whom);
    case TakeClone(_) =>
    case DropClone(_, _) =>
    case OpenCamera(_, _) =>
    case CloseCamera(_, _) =>
    case _ => InsideKept(s, a);
  }

  lemma InsideKept(s: State, a: Action)
    requires GateOk(s.held, s.threads) && Enabled(s, a)
    requires a.CallInit? || a.Scan? || a.ReleaseAfterScan? || a.DropSdk? || a.Tear? || a.CallRelease? || a.Unref?
    ensures GateOk(Next(s, a).held, Next(s, a).threads)
  {
    InsideGate(s.held, s.threads, a.t, Next(s, a).threads[a.t]);
    assert Next(s, a).threads == s.threads[a.t := Next(s, a).threads[a.t]];
  }

  lemma {:induction false} RunGate(actions: seq<Action>)
    requires Run(actions).Some?
    ensures GateOk(Run(actions).value.held, Run(actions).value.threads)
  {
    if actions != [] {
      RunGate(actions[..|actions| - 1]);
      GateKept(Run(actions[..|actions| - 1]).value, actions[|actions| - 1]);
    }
  }

  /** At most one claimed `Sdk` is alive, and a thread inside means the flag is up. */
  lemma AtMostOneSdk(actions: seq<Action>, t: nat, u: nat)
    requires Run(actions).Some? && t < |Run(actions).value.threads| && u < |Run(actions).value.threads|
    requires Inside(Run(actions).value.threads[t])
    ensures Run(actions).value.held
    ensures Inside(Run(actions).value.threads[u]) ==> t == u
  {
    RunGate(actions);
  }

  /**
   * In every run a look at the gate takes it if and only if no thread is inside; a blocking
   * one sleeps otherwise, a trying one is refused.
   */
  lemma TakenIffFree(actions: seq<Action>, a: Action)
    requires Run(actions).Some? && Enabled(Run(actions).value, a) && (a.Acquire? || a.TryAcquire?)
    ensures var s, v := Run(actions).value, Next(Run(actions).value, a);
            var busy := exists u: nat :: u < |s.threads| && Inside(s.threads[u]);
            && v.held && a.t < |v.threads|
            && v.threads[a.t] == if !busy then Claimed else if a.Acquire? then Parked else Refused
  {
    RunGate(actions);
  }

  /** A free gate never leaves a sleeper without someone who can move towards waking it. */
  lemma SleepersAreServed(actions: seq<Action>, t: nat) returns (a: Action)
    requires Run(actions).Some? && Is(Run(actions).value, t, Parked) && !Run(actions).value.held
    ensures var s := Run(actions).value;
            Enabled(s, a) && ((a.Acquire? && Is(s, a.t, Woken)) || (a.Notify? && a.whom == Some(t)))
  {
    RunGate(actions);
    var s := Run(actions).value;
    assert Parked in s.threads;
    var u: nat :| u < |s.threads| && WillLook(s.threads[u]);
    a := if s.threads[u].Woken? then Acquire(u) else Notify(u, Some(t));
  }

  /**
   * The gate in place. Each method is one stretch under the mutex; `s` is the protocol
   * state it meets and `t` the calling thread.
   */
  class SdkGate {
    var held: bool

    constructor ()
      ensures held == INITIAL.held
    {
      held := false;
    }

    /** One look of `acquire`: take a free gate, or go to sleep on the condvar. */
    method Look(ghost s: State, ghost t: nat) returns (taken: bool)
      requires Enabled(s, Action.Acquire(t)) && held == s.held
      modifies this
      ensures held == Next(s, Action.Acquire(t)).held
      ensures Is(Next(s, Action.Acquire(t)), t, if taken then Claimed else Parked)
    {
      taken := !held;
      held := true;
    }

    method TryTake(ghost s: State, ghost t: nat) returns (taken: bool)
      requires Enabled(s, Action.TryAcquire(t)) && held == s.held
      modifies this
      ensures held == Next(s, Action.TryAcquire(t)).held
      ensures Is(Next(s, Action.TryAcquire(t)), t, if taken then Claimed else Refused)
    {
      if held {
        return false;
      }
      held := true;
      taken := true;
    }

    /** A dropped guard clears the flag; the notify comes after, outside the mutex. */
    method Free(ghost s: State, ghost t: nat)
      requires Enabled(s, Unlock(t)) && held == s.held
      modifies this
      ensures held == Next(s, Unlock(t)).held && Is(Next(s, Unlock(t)), t, Notifying)
    {
      held := false;
    }
  }

  // --- Init and Release ------------------------------------------------------

  datatype Standing = Down | Running | Broken

  /** Reads the log: every Init when down, every Release when up. */
  function StandingOf(log: seq<Call>): Standing {
    if log == [] then Down
    else
      var before := StandingOf(log[..|log| - 1]);
      match log[|log| - 1]
      case Init(ok) => if before == Down then (if ok then Running else Down) else Broken
      case Release => if before == Running then Down else Broken
      case _ => before
  }

  ghost predicate SomeoneUp(threads: seq<Pc>) {
    exists t: nat :: t < |threads| && Up(threads[t])
  }

  ghost predicate LogOk(s: State) {
    StandingOf(s.log) == if SomeoneUp(s.threads) then Running else Down
  }

  lemma StandingGrows(log: seq<Call>, call: Call)
    ensures StandingOf(log + [call]) ==
              match call
              case Init(ok) => if StandingOf(log) == Down then (if ok then Running else Down) else Broken
              case Release => if StandingOf(log) == Running then Down else Broken
              case _ => StandingOf(log)
  {
    assert (log + [call])[..|log|] == log;
  }

  /** Where the only thread inside stands decides whether the SDK is up. */
  lemma OnlyInsideIsUp(held: bool, threads: seq<Pc>, t: nat, pc: Pc)
    requires Exclusive(held, threads) && t < |threads| && Inside(threads[t])
    ensures SomeoneUp(threads) <==> Up(threads[t])
    ensures SomeoneUp(threads[t := pc]) <==> Up(pc)
  {
    var after := threads[t := pc];
    forall u: nat | u < |threads| && u != t ensures !Up(threads[u]) && !Up(after[u]) {
      assert !Inside(threads[u]);
    }
    if Up(threads[t]) { assert SomeoneUp(threads); }
    if Up(pc) { assert Up(after[t]); }
  }

  /** Threads outside the gate do not matter to it. */
  lemma OutsideIsNotUp(threads: seq<Pc>, after: seq<Pc>)
    requires |threads| <= |after|
    requires forall u: nat :: u < |threads| ==> after[u] == threads[u] || (!Up(after[u]) && !Up(threads[u]))
    requires forall u: nat :: |threads| <= u < |after| ==> !Up(after[u])
    ensures SomeoneUp(threads) <==> SomeoneUp(after)
  {
    if SomeoneUp(threads) {
      var t: nat :| t < |threads| && Up(threads[t]);
      assert Up(after[t]);
    }
    if SomeoneUp(after) {
      var t: nat :| t < |after| && Up(after[t]);
      assert Up(threads[t]);
    }
  }

  /** The thread inside makes the foreign call that matches its own move. */
  lemma CallingLog(held: bool, threads: seq<Pc>, log: seq<Call>, t: nat, pc: Pc, call: Call)
    requires Exclusive(held, threads) && t < |threads| && Inside(threads[t])
    requires StandingOf(log) == if SomeoneUp(threads) then Running else Down
    requires || (call.Init? && !Up(threads[t]) && Up(pc) == call.ok)
             || (call.Release? && Up(threads[t]) && !Up(pc))
    ensures StandingOf(log + [call]) == if SomeoneUp(threads[t := pc]) then Running else Down
  {
    OnlyInsideIsUp(held, threads, t, pc);
    StandingGrows(log, call);
  }

  lemma InsideLog(s: State, a: Action)
    requires Exclusive(s.held, s.threads) && LogOk(s) && Enabled(s, a)
    requires a.CallInit? || a.Scan? || a.ReleaseAfterScan? || a.DropSdk? || a.CallRelease?
    ensures LogOk(Next(s, a))
  {
    match a
    case CallInit(t, ok) => CallingLog(s.held, s.threads, s.log, t, if ok then Scanning else Unlocking, Init(ok));
    case ReleaseAfterScan(t) => CallingLog(s.held, s.threads, s.log, t, Unlocking, Release);
    case CallRelease(t) =>
      var pc := s.threads[t];
      CallingLog(s.held, s.threads, s.log, t, Dropping(pc.first, pc.count, 0), Release);
    case Scan(t, found) =>
      OnlyInsideIsUp(s.held, s.threads, t, if found.None? then ScanFailed else Live(|s.cells|, found.value));
    case DropSdk(t) => OnlyInsideIsUp(s.held, s.threads, t, Tearing(s.threads[t].first, s.threads[t].count, 0));
    case _ =>
  }

  lemma TearLog(s: State, t: nat, ok: bool)
    requires GateOk(s.held, s.threads) && LogOk(s) && Enabled(s, Tear(t, ok))
    ensures LogOk(Next(s, Tear(t, ok)))
  {
    var pc := s.threads[t];
    OnlyInsideIsUp(s.held, s.threads, t, Tearing(pc.first, pc.count, pc.next + 1));
    CellCalls(s, Tear(t, ok));
    QuietLog(s.log, Next(s, Tear(t, ok)).log);
  }

  lemma OutsideLog(s: State, a: Action)
    requires LogOk(s) && Enabled(s, a)
    requires a.Arrive? || a.Acquire? || a.TryAcquire? || a.Unlock? || a.Notify?
    ensures LogOk(Next(s, a))
  {
    OutsideIsNotUp(s.threads, Next(s, a).threads);
  }

  /** At most one call is added, and it is an open or a close. */
  ghost predicate QuietlyGrows(log: seq<Call>, after: seq<Call>) {
    after == log || exists call :: after == log + [call] && (call.Open? || call.Close?)
  }

  /** Opens and closes do not change whether the SDK is up. */
  lemma QuietLog(log: seq<Call>, after: seq<Call>)
    requires QuietlyGrows(log, after)
    ensures StandingOf(after) == StandingOf(log)
  {
    if after != log {
      var call :| after == log + [call] && (call.Open? || call.Close?);
      StandingGrows(log, call);
    }
  }

  lemma CellCalls(s: State, a: Action)
    requires Enabled(s, a)
    requires a.TakeClone? || a.DropClone? || a.OpenCamera? || a.CloseCamera? || a.Tear? || a.Unref?
    ensures QuietlyGrows(s.log, Next(s, a).log)
    ensures a.Tear? || a.Unref? || Next(s, a).threads == s.threads
  {
  }

  lemma CloneLog(s: State, a: Action)
    requires LogOk(s) && Enabled(s, a)
    requires a.TakeClone? || a.DropClone? || a.OpenCamera? || a.CloseCamera?
    ensures LogOk(Next(s, a))
  {
    CellCalls(s, a);
    QuietLog(s.log, Next(s, a).log);
  }

  lemma UnrefLog(s: State, t: nat, ok: bool)
    requires LogOk(s) && Enabled(s, Unref(t, ok))
    ensures LogOk(Next(s, Unref(t, ok)))
  {
    var v := Next(s, Unref(t, ok));
    OutsideIsNotUp(s.threads, v.threads);
    CellCalls(s, Unref(t, ok));
    QuietLog(s.log, v.log);
  }

  lemma LogKept(s: State, a: Action)
    requires GateOk(s.held, s.threads) && LogOk(s) && Enabled(s, a)
    ensures LogOk(Next(s, a))
  {
    match a
    case Tear(t, ok) => TearLog(s, t, ok);
    case Unref(t, ok) => UnrefLog(s, t, ok);
    case _ =>
      if a.CallInit? || a.Scan? || a.ReleaseAfterScan? || a.DropSdk? || a.CallRelease? {
        InsideLog(s, a);
      } else if a.Arrive? || a.Acquire? || a.TryAcquire? || a.Unlock? || a.Notify? {
        OutsideLog(s, a);
      } else {
        CloneLog(s, a);
      }
  }

  lemma {:induction false} RunLog(actions: seq<Action>)
    requires Run(actions).Some?
    ensures LogOk(Run(actions).value)
  {
    if actions != [] {
      RunLog(actions[..|actions| - 1]);
      RunGate(actions[..|actions| - 1]);
      LogKept(Run(actions[..|actions| - 1]).value, actions[|actions| - 1]);
    }
  }

  function Releases(log: seq<Call>): nat {
    if log == [] then 0 else Releases(log[..|log| - 1]) + if log[|log| - 1].Release? then 1 else 0
  }

  /** A log that reads without breaking has read without breaking so far. */
  lemma {:induction false} PrefixStands(log: seq<Call>, k: nat)
    requires StandingOf(log) != Broken && k <= |log|
    ensures StandingOf(log[..k]) != Broken
  {
    if k == |log| {
      assert log[..k] == log;
    } else {
      PrefixStands(log[..|log| - 1], k);
      assert log[..|log| - 1][..k] == log[..k];
    }
  }

  /** After a successful Init at `i`, with no other Init since, the SDK is up iff nothing was released since. */
  lemma {:induction false} SinceInit(log: seq<Call>, i: nat)
    requires StandingOf(log) != Broken && i < |log| && log[i] == Init(true)
    requires forall k :: i < k < |log| ==> !log[k].Init?
    ensures Releases(log) - Releases(log[..i]) == if StandingOf(log) == Running then 0 else 1
  {
    var front := log[..|log| - 1];
    if i == |log| - 1 {
      assert front == log[..i];
    } else {
      PrefixStands(log, |front|);
      assert front[..i] == log[..i];
      SinceInit(front, i);
    }
  }

  lemma OneReleaseBetween(log: seq<Call>, i: nat, j: nat)
    requires StandingOf(log) != Broken && i < j < |log|
    requires log[i] == Init(true) && log[j].Init? && forall k :: i < k < j ==> !log[k].Init?
    ensures Releases(log[..j]) - Releases(log[..i]) == 1
  {
    var upTo := log[..j];
    PrefixStands(log, j);
    PrefixStands(log, j + 1);
    StandingGrows(upTo, log[j]);
    assert log[..j + 1] == upTo + [log[j]];
    assert upTo[..i] == log[..i];
    SinceInit(upTo, i);
  }

  /**
   * Between a successful Init and the next Init, over all the threads and failed scans of
   * a run, Release is called exactly once.
   */
  lemma OneReleasePerInit(actions: seq<Action>, i: nat, j: nat)
    requires Run(actions).Some? && i < j < |Run(actions).value.log|
    requires var log := Run(actions).value.log;
             log[i] == Init(true) && log[j].Init? && forall k :: i < k < j ==> !log[k].Init?
    ensures var log := Run(actions).value.log;
            Releases(log[..j]) - Releases(log[..i]) == 1
  {
    RunLog(actions);
    OneReleaseBetween(Run(actions).value.log, i, j);
  }

  // --- the cameras of an Sdk -------------------------------------------------

  /** The cells of a thread's `Sdk` exist, and are its own for as long as it lives. */
  ghost predicate Owns(s: State, t: nat)
    requires t < |s.threads|
  {
    match s.threads[t]
    case Live(first, count) => first + count <= |s.cells| && forall c :: first <= c < first + count ==> s.cells[c].ofSdk
    case Tearing(first, count, _) => first + count <= |s.cells| && forall c :: first <= c < first + count ==> s.cells[c].ofSdk
    case Dropping(first, count, next) =>
      first + count <= |s.cells| && forall c :: first + next <= c < first + count ==> s.cells[c].ofSdk
    case _ => true
  }

  ghost predicate AllOwn(s: State) {
    forall t: nat {:trigger Owns(s, t)} :: t < |s.threads| ==> Owns(s, t)
  }

  /** The cell a thread that drops its `Sdk` gives up next. */
  predicate GivesUp(s: State, a: Action, c: nat)
    requires Enabled(s, a)
  {
    a.Unref? && s.threads[a.t].next < s.threads[a.t].count && c == s.threads[a.t].first + s.threads[a.t].next
  }

  /** Cells only come, and only a thread that drops its own `Sdk` gives one up. */
  lemma CellsStay(s: State, a: Action, c: nat)
    requires Enabled(s, a) && c < |s.cells|
    ensures c < |Next(s, a).cells|
    ensures Next(s, a).cells[c].ofSdk == s.cells[c].ofSdk || GivesUp(s, a, c)
  {
  }

  lemma ScanOwns(s: State, t: nat, found: Option<nat>)
    requires Enabled(s, Scan(t, found))
    ensures Owns(Next(s, Scan(t, found)), t)
  {
  }

  /** The one thread inside the gate keeps what it owns. */
  lemma InsideOwns(s: State, a: Action, t: nat)
    requires GateOk(s.held, s.threads) && Enabled(s, a) && t < |s.threads| && Owns(s, t) && Inside(s.threads[t])
    requires t < |Next(s, a).threads| && !a.Scan?
    ensures Owns(Next(s, a), t)
  {
    if a.Unref? { assert Inside(s.threads[a.t]); }
    forall c: nat | c < |s.cells|
      ensures c < |Next(s, a).cells| && (Next(s, a).cells[c].ofSdk == s.cells[c].ofSdk || GivesUp(s, a, c))
    {
      CellsStay(s, a, c);
    }
  }

  lemma OutsideOwnsNothing(s: State, a: Action, t: nat)
    requires Enabled(s, a) && t < |Next(s, a).threads| && (t < |s.threads| ==> !Inside(s.threads[t]))
    ensures var pc := Next(s, a).threads[t]; !pc.Live? && !pc.Tearing? && !pc.Dropping?
  {
  }

  lemma OwnsStep(s: State, a: Action)
    requires GateOk(s.held, s.threads) && AllOwn(s) && Enabled(s, a)
    ensures AllOwn(Next(s, a))
  {
    if a.Scan? { assert Inside(s.threads[a.t]); }
    forall t: nat | t < |Next(s, a).threads| ensures Owns(Next(s, a), t) {
      if a.Scan? && a.t == t {
        ScanOwns(s, t, a.found);
      } else if t < |s.threads| && Inside(s.threads[t]) {
        assert Owns(s, t);
        InsideOwns(s, a, t);
      } else {
        OutsideOwnsNothing(s, a, t);
      }
    }
  }

  lemma {:induction false} RunOwns(actions: seq<Action>)
    requires Run(actions).Some?
    ensures AllOwn(Run(actions).value)
  {
    if actions != [] {
      var before := actions[..|actions| - 1];
      RunOwns(before);
      RunGate(before);
      OwnsStep(Run(before).value, actions[|actions| - 1]);
    }
  }

  lemma RunStep(actions: seq<Action>)
    requires actions != [] && Run(actions).Some?
    ensures var before := Run(actions[..|actions| - 1]);
            before.Some? && Enabled(before.value, actions[|actions| - 1]) && Run(actions).value == Next(before.value, actions[|actions| - 1])
  {
  }

  /** The thread's `Sdk` still refers to cell `c`. */
  predicate Has(pc: Pc, c: nat) {
    match pc
    case Live(first, count) => first <= c < first + count
    case Tearing(first, count, _) => first <= c < first + count
    case Dropping(first, count, next) => first + next <= c < first + count
    case _ => false
  }

  ghost predicate SomeoneHas(s: State, c: nat) {
    exists t: nat :: t < |s.threads| && Has(s.threads[t], c)
  }

  /** A thread keeps a cell that it does not give up. */
  lemma HasStep(s: State, a: Action, t: nat, c: nat)
    requires Enabled(s, a) && t < |s.threads| && Has(s.threads[t], c) && c < |s.cells| && Next(s, a).cells[c].ofSdk
    ensures t < |Next(s, a).threads| && Has(Next(s, a).threads[t], c)
  {
  }

  /** A cell is given to an `Sdk` only when it is made. */
  lemma GivenAtBirth(s: State, a: Action, c: nat)
    requires Enabled(s, a) && c < |Next(s, a).cells| && Next(s, a).cells[c].ofSdk
    ensures if c < |s.cells| then s.cells[c].ofSdk else a.Scan? && a.t < |Next(s, a).threads| && Has(Next(s, a).threads[a.t], c)
  {
  }

  /**
   * In every run a camera belongs to an `Sdk` exactly while some thread's `Sdk` still refers
   * to it: a dropped `Sdk` gives up every one of them.
   */
  lemma {:induction false} BelongsIffReferred(actions: seq<Action>, c: nat)
    requires Run(actions).Some? && c < |Run(actions).value.cells|
    ensures Run(actions).value.cells[c].ofSdk <==> SomeoneHas(Run(actions).value, c)
  {
    RunOwns(actions);
    var v := Run(actions).value;
    if SomeoneHas(v, c) {
      var t: nat :| t < |v.threads| && Has(v.threads[t], c);
      assert Owns(v, t);
    }
    if v.cells[c].ofSdk { ReferredIfBelongs(actions, c); }
  }

  lemma {:induction false} ReferredIfBelongs(actions: seq<Action>, c: nat)
    requires Run(actions).Some? && c < |Run(actions).value.cells| && Run(actions).value.cells[c].ofSdk
    ensures SomeoneHas(Run(actions).value, c)
  {
    var before, a := actions[..|actions| - 1], actions[|actions| - 1];
    RunStep(actions);
    var s := Run(before).value;
    GivenAtBirth(s, a, c);
    if c < |s.cells| {
      ReferredIfBelongs(before, c);
      var t: nat :| t < |s.threads| && Has(s.threads[t], c);
      HasStep(s, a, t, c);
    }
  }

  /**
   * In every run an `Sdk` comes only from a scan that succeeded, with one closed camera of
   * its own for each that was found; a failed Init gives the gate back and a failed scan
   * has the initialisation released before it does.
   */
  lemma OnlyScansMakeSdks(actions: seq<Action>, a: Action, t: nat)
    requires Run(actions).Some? && Enabled(Run(actions).value, a) && t < |Next(Run(actions).value, a).threads|
    ensures var s, v := Run(actions).value, Next(Run(actions).value, a);
            && (v.threads[t].Live? && !(t < |s.threads| && s.threads[t].Live?) <==> a.Scan? && a.t == t && a.found.Some?)
            && (a.Scan? && a.t == t && a.found.Some? ==>
                  && v.threads[t] == Live(|s.cells|, a.found.value) && |v.cells| == |s.cells| + a.found.value
                  && forall c :: |s.cells| <= c < |v.cells| ==> v.cells[c] == Cell(false, true, 0))
            && (a == Scan(t, None) ==> v.threads[t] == ScanFailed && v.log == s.log)
            && (a == ReleaseAfterScan(t) ==> v.threads[t] == Unlocking && v.log == s.log + [Release])
            && (a == CallInit(t, false) ==> v.threads[t] == Unlocking)
  {
  }

  // --- the teardown ----------------------------------------------------------

  /** The cell a thread's teardown comes to next. */
  predicate Visits(s: State, t: nat, c: nat) {
    t < |s.threads| && s.threads[t].Tearing? && s.threads[t].next < s.threads[t].count && c == s.threads[t].first + s.threads[t].next
  }

  /**
   * In every run a step of the teardown closes the camera it comes to: Close is called
   * exactly if it is open, and it is closed afterwards unless the SDK refused.
   */
  lemma TeardownCloses(actions: seq<Action>, t: nat, ok: bool)
    requires Run(actions).Some? && Enabled(Run(actions).value, Tear(t, ok))
    ensures var s, v := Run(actions).value, Next(Run(actions).value, Tear(t, ok));
            var c := s.threads[t].first + s.threads[t].next;
            && Visits(s, t, c) && c < |s.cells| == |v.cells|
            && v.log == s.log + (if s.cells[c].open then [Close(c, ok)] else [])
            && v.cells[c].open == (s.cells[c].open && !ok)
            && forall d :: 0 <= d < |s.cells| && d != c ==> v.cells[d] == s.cells[d]
  {
    RunOwns(actions);
    assert Owns(Run(actions).value, t);
  }

  /** Action `v` is the step at which the teardown of thread `t` came to cell `c`. */
  ghost predicate VisitedAt(actions: seq<Action>, v: nat, t: nat, c: nat) {
    v < |actions| && actions[v].Tear? && actions[v].t == t && Run(actions[..v]).Some? && Visits(Run(actions[..v]).value, t, c)
  }

  /** How a thread comes to be `next` cells into its teardown. */
  lemma TearingCame(s: State, a: Action, t: nat)
    requires Enabled(s, a) && t < |Next(s, a).threads| && Next(s, a).threads[t].Tearing?
    ensures var pc := Next(s, a).threads[t];
            || pc.next == 0
            || Is(s, t, pc)
            || (a.Tear? && a.t == t && Is(s, t, Tearing(pc.first, pc.count, pc.next - 1)) && Visits(s, t, pc.first + (pc.next - 1)))
  {
  }

  lemma CameFrom(actions: seq<Action>, s: State, t: nat, pc: Pc) returns (was: State)
    requires Run(actions) == Some(s) && Is(s, t, pc) && pc.Tearing?
    ensures actions != [] && Run(actions[..|actions| - 1]) == Some(was)
    ensures var a := actions[|actions| - 1];
            || pc.next == 0
            || Is(was, t, pc)
            || (a.Tear? && a.t == t && Is(was, t, Tearing(pc.first, pc.count, pc.next - 1)) && Visits(was, t, pc.first + (pc.next - 1)))
  {
    RunStep(actions);
    was := Run(actions[..|actions| - 1]).value;
    TearingCame(was, actions[|actions| - 1], t);
  }

  lemma VisitedNow(actions: seq<Action>, was: State, t: nat, c: nat)
    requires actions != [] && Run(actions[..|actions| - 1]) == Some(was) && Visits(was, t, c)
    requires actions[|actions| - 1].Tear? && actions[|actions| - 1].t == t
    ensures VisitedAt(actions, |actions| - 1, t, c)
  {
  }

  lemma VisitedStays(actions: seq<Action>, v: nat, t: nat, c: nat)
    requires actions != [] && VisitedAt(actions[..|actions| - 1], v, t, c)
    ensures VisitedAt(actions, v, t, c)
  {
    assert actions[..|actions| - 1][..v] == actions[..v];
  }

  /** A teardown that is `next` cells in has come to each of them. */
  lemma {:induction false} TeardownTours(actions: seq<Action>, s: State, t: nat, pc: Pc, n: nat) returns (v: nat)
    requires Run(actions) == Some(s) && Is(s, t, pc) && pc.Tearing? && n < pc.next
    ensures VisitedAt(actions, v, t, pc.first + n)
    decreases |actions|
  {
    var was := CameFrom(actions, s, t, pc);
    if !Is(was, t, pc) && n + 1 == pc.next {
      v := |actions| - 1;
      VisitedNow(actions, was, t, pc.first + n);
    } else {
      v := TeardownTours(actions[..|actions| - 1], was, t, if Is(was, t, pc) then pc else Tearing(pc.first, pc.count, pc.next - 1), n);
      VisitedStays(actions, v, t, pc.first + n);
    }
  }

  /** A step makes at most one foreign call, and closes only an open cell. */
  lemma LogStep(s: State, a: Action)
    requires Enabled(s, a)
    ensures || Next(s, a).log == s.log
            || exists call :: Next(s, a).log == s.log + [call]
                 && (call.Close? ==> call.cell < |s.cells| && s.cells[call.cell].open)
  {
  }

  ghost predicate NoCloseFrom(log: seq<Call>, c: nat, from: nat) {
    forall k :: from <= k < |log| ==> !(log[k].Close? && log[k].cell == c)
  }

  /** A closed cell that nobody opens stays closed, and no Close of it is called. */
  lemma ClosedStays(s: State, a: Action, c: nat)
    requires Enabled(s, a) && c < |s.cells| && !s.cells[c].open && a != OpenCamera(c, true)
    ensures c < |Next(s, a).cells| && !Next(s, a).cells[c].open
    ensures |s.log| <= |Next(s, a).log| && Next(s, a).log[..|s.log|] == s.log && NoCloseFrom(Next(s, a).log, c, |s.log|)
  {
    LogStep(s, a);
  }

  lemma {:induction false} ClosedThroughout(actions: seq<Action>, v: nat, c: nat)
    requires Run(actions).Some? && v <= |actions| && Run(actions[..v]).Some?
    requires c < |Run(actions[..v]).value.cells| && !Run(actions[..v]).value.cells[c].open
    requires forall y :: v <= y < |actions| ==> actions[y] != OpenCamera(c, true)
    ensures c < |Run(actions).value.cells| && !Run(actions).value.cells[c].open
    ensures |Run(actions[..v]).value.log| <= |Run(actions).value.log|
    ensures NoCloseFrom(Run(actions).value.log, c, |Run(actions[..v]).value.log|)
  {
    if v == |actions| {
      assert actions[..v] == actions;
    } else {
      var before := actions[..|actions| - 1];
      RunStep(actions);
      assert before[..v] == actions[..v];
      ClosedThroughout(before, v, c);
      ClosedStays(Run(before).value, actions[|actions| - 1], c);
      NoCloseJoins(Run(before).value.log, Run(actions).value.log, c, |Run(actions[..v]).value.log|);
    }
  }

  lemma NoCloseJoins(log: seq<Call>, after: seq<Call>, c: nat, from: nat)
    requires |log| <= |after| && after[..|log|] == log
    requires NoCloseFrom(log, c, from) && NoCloseFrom(after, c, |log|)
    ensures NoCloseFrom(after, c, from)
  {
    forall k | from <= k < |after| ensures !(after[k].Close? && after[k].cell == c) {
      if k < |log| { assert after[k] == log[k]; }
    }
  }

  lemma {:induction false} PrefixRuns(actions: seq<Action>, v: nat)
    requires Run(actions).Some? && v <= |actions|
    ensures Run(actions[..v]).Some?
  {
    if v == |actions| {
      assert actions[..v] == actions;
    } else {
      assert actions[..|actions| - 1][..v] == actions[..v];
      PrefixRuns(actions[..|actions| - 1], v);
    }
  }

  /** After a successful step of the teardown its cell is closed. */
  lemma VisitShuts(actions: seq<Action>, v: nat, t: nat, c: nat)
    requires Run(actions).Some? && VisitedAt(actions, v, t, c) && actions[v].ok
    ensures Run(actions[..v + 1]).Some?
    ensures c < |Run(actions[..v + 1]).value.cells| && !Run(actions[..v + 1]).value.cells[c].open
  {
    PrefixRuns(actions, v + 1);
    RunStep(actions[..v + 1]);
    assert actions[..v + 1][..v] == actions[..v];
    TeardownCloses(actions[..v], t, true);
  }

  /**
   * No Close follows the Release. If the SDK refused no close of the teardown, and nobody
   * opened camera `c` again after the teardown came to it, then the camera is closed when
   * Release is called, and no Close of it is called from then on: not by a surviving
   * clone, and not by a last drop.
   */
  lemma NoCloseAfterRelease(actions: seq<Action>, x: nat, t: nat, c: nat)
    requires Run(actions).Some? && x < |actions| && actions[x] == CallRelease(t)
    requires Run(actions[..x]).Some? && Enabled(Run(actions[..x]).value, CallRelease(t))
    requires var pc := Run(actions[..x]).value.threads[t]; pc.first <= c < pc.first + pc.count
    requires forall y :: 0 <= y < x && actions[y].Tear? && actions[y].t == t ==> actions[y].ok
    requires forall v: nat, y: nat :: v < y < |actions| && VisitedAt(actions[..x], v, t, c) ==> actions[y] != OpenCamera(c, true)
    ensures c < |Run(actions[..x]).value.cells| && !Run(actions[..x]).value.cells[c].open
    ensures NoCloseFrom(Run(actions).value.log, c, |Run(actions[..x]).value.log|)
  {
    var early, s := actions[..x], Run(actions[..x]).value;
    var v := TeardownTours(early, s, t, s.threads[t], c - s.threads[t].first);
    ShutByRelease(early, v, t, c);
    ClosedThroughout(actions, x, c);
  }

  lemma ShutByRelease(actions: seq<Action>, v: nat, t: nat, c: nat)
    requires Run(actions).Some? && VisitedAt(actions, v, t, c) && actions[v].ok
    requires forall y :: v < y < |actions| ==> actions[y] != OpenCamera(c, true)
    ensures c < |Run(actions).value.cells| && !Run(actions).value.cells[c].open
  {
    VisitShuts(actions, v, t, c);
    ClosedThroughout(actions, v + 1, c);
  }

  // --- what the SDK holds ----------------------------------------------------

  /** Whether the SDK holds a handle for cell `c`, going by the calls alone. */
  function Holds(log: seq<Call>, c: nat): bool {
    if log == [] then false
    else
      match log[|log| - 1]
      case Open(d) => d == c || Holds(log[..|log| - 1], c)
      case Close(d, ok) => !(d == c && ok) && Holds(log[..|log| - 1], c)
      case _ => Holds(log[..|log| - 1], c)
  }

  /** The last call about cell `c`, if there was one, was a close. */
  predicate LastClosed(log: seq<Call>, c: nat) {
    if log == [] then true
    else
      match log[|log| - 1]
      case Open(d) => d != c && LastClosed(log[..|log| - 1], c)
      case Close(d, _) => d == c || LastClosed(log[..|log| - 1], c)
      case _ => LastClosed(log[..|log| - 1], c)
  }

  /** The cell knows what the SDK holds; one that nobody can reach is empty, its handle closed or its close refused. */
  ghost predicate Tracks(s: State, c: nat) {
    if c >= |s.cells| then !Holds(s.log, c) && LastClosed(s.log, c)
    else if Reachable(s, c) then s.cells[c].open == Holds(s.log, c)
    else !s.cells[c].open && LastClosed(s.log, c)
  }

  lemma CallAdds(log: seq<Call>, call: Call, c: nat)
    ensures var after := log + [call];
            && Holds(after, c) == (match call
                                   case Open(d) => d == c || Holds(log, c)
                                   case Close(d, ok) => !(d == c && ok) && Holds(log, c)
                                   case _ => Holds(log, c))
            && LastClosed(after, c) == (match call
                                        case Open(d) => d != c && LastClosed(log, c)
                                        case Close(d, _) => d == c || LastClosed(log, c)
                                        case _ => LastClosed(log, c))
  {
    assert (log + [call])[..|log|] == log;
  }

  lemma {:induction false} NotHeldIsClosed(log: seq<Call>, c: nat)
    requires !Holds(log, c)
    ensures LastClosed(log, c)
  {
    if log != [] && !(log[|log| - 1].Close? && log[|log| - 1].cell == c) {
      NotHeldIsClosed(log[..|log| - 1], c);
    }
  }

  /** A call, if any, that is not about cell `c`, which stays as it is. */
  lemma TracksOther(s: State, t: State, c: nat)
    requires Tracks(s, c) && (c < |s.cells| ==> c < |t.cells| && t.cells[c] == s.cells[c])
    requires |s.cells| <= c < |t.cells| ==> !t.cells[c].open && t.cells[c].ofSdk
    requires t.log == s.log || exists call :: t.log == s.log + [call] && !((call.Open? || call.Close?) && call.cell == c)
    ensures Tracks(t, c)
  {
    if t.log != s.log {
      var call :| t.log == s.log + [call] && !((call.Open? || call.Close?) && call.cell == c);
      CallAdds(s.log, call, c);
    }
  }

  lemma TracksClosed(s: State, c: nat, ok: bool)
    requires Tracks(s, c) && Reachable(s, c)
    ensures Tracks(Closed(s, c, ok), c)
  {
    CallAdds(s.log, Close(c, ok), c);
  }

  lemma TracksLastDrop(s: State, c: nat, cell: Cell, ok: bool)
    requires Tracks(s, c) && Reachable(s, c) && cell.open == s.cells[c].open
    ensures Tracks(LastDrop(s, c, cell, ok), c)
  {
    CallAdds(s.log, Close(c, ok), c);
    if !cell.open { NotHeldIsClosed(s.log, c); }
  }

  lemma TracksOpen(s: State, c: nat, ok: bool)
    requires Tracks(s, c) && Reachable(s, c)
    ensures Tracks(Next(s, OpenCamera(c, ok)), c)
  {
    CallAdds(s.log, Open(c), c);
  }

  /** The cell an action is about. */
  function About(s: State, a: Action): Option<nat>
    requires Enabled(s, a)
  {
    match a
    case Tear(t, _) => Some(s.threads[t].first + s.threads[t].next)
    case Unref(t, _) => if s.threads[t].next < s.threads[t].count then Some(s.threads[t].first + s.threads[t].next) else None
    case TakeClone(c) => Some(c)
    case DropClone(c, _) => Some(c)
    case OpenCamera(c, _) => Some(c)
    case CloseCamera(c, _) => Some(c)
    case _ => None
  }

  lemma NotAbout(s: State, a: Action, c: nat)
    requires Enabled(s, a) && About(s, a) != Some(c)
    ensures var t := Next(s, a);
            && (c < |s.cells| ==> c < |t.cells| && t.cells[c] == s.cells[c])
            && (|s.cells| <= c < |t.cells| ==> !t.cells[c].open && t.cells[c].ofSdk)
            && (t.log == s.log || exists call :: t.log == s.log + [call] && !((call.Open? || call.Close?) && call.cell == c))
  {
  }

  lemma TracksTear(s: State, t: nat, ok: bool)
    requires Enabled(s, Tear(t, ok)) && Owns(s, t)
    requires Tracks(s, s.threads[t].first + s.threads[t].next)
    ensures Tracks(Next(s, Tear(t, ok)), s.threads[t].first + s.threads[t].next)
  {
    var c := s.threads[t].first + s.threads[t].next;
    TracksClosed(s, c, ok);
    SameTracks(Closed(s, c, ok), Next(s, Tear(t, ok)), c);
  }

  lemma TracksUnref(s: State, t: nat, ok: bool)
    requires Enabled(s, Unref(t, ok)) && Owns(s, t) && s.threads[t].next < s.threads[t].count
    requires Tracks(s, s.threads[t].first + s.threads[t].next)
    ensures Tracks(Next(s, Unref(t, ok)), s.threads[t].first + s.threads[t].next)
  {
    var c := s.threads[t].first + s.threads[t].next;
    TracksLastDrop(s, c, s.cells[c].(ofSdk := false), ok);
    SameTracks(LastDrop(s, c, s.cells[c].(ofSdk := false), ok), Next(s, Unref(t, ok)), c);
  }

  lemma SameTracks(s: State, t: State, c: nat)
    requires Tracks(s, c) && t.cells == s.cells && t.log == s.log
    ensures Tracks(t, c)
  {
  }

  /** One step, seen from cell `c`. */
  lemma TracksStep(s: State, a: Action, c: nat)
    requires Enabled(s, a) && Tracks(s, c) && ((a.Tear? || a.Unref?) ==> Owns(s, a.t))
    ensures Tracks(Next(s, a), c)
  {
    if About(s, a) != Some(c) {
      NotAbout(s, a, c);
      TracksOther(s, Next(s, a), c);
    } else {
      match a
      case Tear(t, ok) => TracksTear(s, t, ok);
      case Unref(t, ok) => TracksUnref(s, t, ok);
      case DropClone(_, ok) => TracksLastDrop(s, c, s.cells[c].(clones := s.cells[c].clones - 1), ok);
      case OpenCamera(_, ok) => TracksOpen(s, c, ok);
      case CloseCamera(_, ok) => TracksClosed(s, c, ok);
      case _ =>
    }
  }

  /**
   * Over every run a camera somebody can reach is open exactly if the SDK holds a handle
   * for it, failed closes included; once nobody can reach it, the last call about it was
   * a close, so no handle is forgotten.
   */
  lemma {:induction false} HandlesAreTracked(actions: seq<Action>, c: nat)
    requires Run(actions).Some?
    ensures Tracks(Run(actions).value, c)
  {
    if actions != [] {
      var before := actions[..|actions| - 1];
      HandlesAreTracked(before, c);
      RunOwns(before);
      RunStep(actions);
      var s, a := Run(before).value, actions[|actions| - 1];
      if a.Tear? || a.Unref? { assert Owns(s, a.t); }
      TracksStep(s, a, c);
    }
  }

  /** Opens and closes of cell `c` come in turn: an open only while nothing is held, a close only while something is. */
  ghost predicate InTurn(log: seq<Call>, c: nat) {
    forall k :: 0 <= k < |log| ==>
      && (log[k] == Open(c) ==> !Holds(log[..k], c))
      && (log[k].Close? && log[k].cell == c ==> Holds(log[..k], c))
  }

  lemma InTurnGrows(log: seq<Call>, call: Call, c: nat)
    requires InTurn(log, c)
    requires call == Open(c) ==> !Holds(log, c)
    requires call.Close? && call.cell == c ==> Holds(log, c)
    ensures InTurn(log + [call], c)
  {
    var after := log + [call];
    forall k | 0 <= k < |after|
      ensures (after[k] == Open(c) ==> !Holds(after[..k], c)) && (after[k].Close? && after[k].cell == c ==> Holds(after[..k], c))
    {
      assert after[..k] == log[..k];
      assert k == |log| ==> log[..k] == log;
    }
  }

  /** The one call a step makes, if it makes one, opens only what is closed and closes only what is open. */
  lemma CallFits(s: State, a: Action, c: nat)
    requires Enabled(s, a) && ((a.Tear? || a.Unref?) ==> Owns(s, a.t))
    ensures || Next(s, a).log == s.log
            || exists call :: Next(s, a).log == s.log + [call]
                 && (call == Open(c) ==> Reachable(s, c) && !s.cells[c].open)
                 && (call.Close? && call.cell == c ==> Reachable(s, c) && s.cells[c].open)
  {
  }

  /**
   * Over every run the SDK is asked to open a camera only while it holds no handle for it,
   * and to close one only while it does: no handle is stranded by a second open and none is
   * closed twice, by whichever thread, clone, teardown or last drop.
   */
  lemma {:induction false} CallsComeInTurn(actions: seq<Action>, c: nat)
    requires Run(actions).Some?
    ensures InTurn(Run(actions).value.log, c)
  {
    if actions != [] {
      var before, a := actions[..|actions| - 1], actions[|actions| - 1];
      CallsComeInTurn(before, c);
      HandlesAreTracked(before, c);
      RunOwns(before);
      RunStep(actions);
      var s := Run(before).value;
      if a.Tear? || a.Unref? { assert Owns(s, a.t); }
      TurnStep(s, a, c);
    }
  }

  lemma TurnStep(s: State, a: Action, c: nat)
    requires Enabled(s, a) && ((a.Tear? || a.Unref?) ==> Owns(s, a.t)) && Tracks(s, c) && InTurn(s.log, c)
    ensures InTurn(Next(s, a).log, c)
  {
    CallFits(s, a, c);
    if Next(s, a).log != s.log {
      var call :| Next(s, a).log == s.log + [call]
        && (call == Open(c) ==> Reachable(s, c) && !s.cells[c].open)
        && (call.Close? && call.cell == c ==> Reachable(s, c) && s.cells[c].open);
      InTurnGrows(s.log, call, c);
    }
  }
}
