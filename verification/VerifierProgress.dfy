/**
 * Every unfinished request can be brought to a verdict in a bounded number of steps that
 * are its own, those of the request holding the slot lock, and those of the flight it
 * waits for. No other request, no timeout, no cancellation and no clock is needed.
 */
module VerifierProgress {
  import opened Common
  import opened VerificationMemo
  import opened VerifierProtocol
  import opened VerifierInvariants
  import opened VerifierTheorems

  // --- how much is left to do ------------------------------------------------

  /** Steps until the flight's task and everything it owned are gone. */
  function FlightWork(f: Flight): nat {
    Remaining(f.phase) + (match f.guard case Held => 2 case Cleared => 1 case Dropped => 0) + if f.sender then 1 else 0
  }

  /** Steps until the gate is free and unlocked. */
  function GateWork(s: State): nat {
    if s.lock.Some? then
      if s.lock.value < |s.reqs| && s.reqs[s.lock.value].pc.Rechecking? then 10 else 9
    else if s.slot.InFlight? && s.slot.id < |s.flights| then FlightWork(s.flights[s.slot.id])
    else 0
  }

  function GateBase(s: State): nat {
    if GateWork(s) == 0 then 13 else 17 + GateWork(s)
  }

  /** A request at the gate that has an announcement to catch up with may park once in vain. */
  function AtGateWork(s: State, seen: nat): nat {
    GateBase(s) + if seen != s.freed && GateWork(s) > 0 then 3 else 0
  }

  function ParkedWork(s: State, seen: nat, saw: nat): nat {
    if seen != s.freed then GateBase(s) + 1
    else if saw < |s.flights| && s.flights[saw].guard.Held? then 15 + GateWork(s)
    else GateBase(s) + 2
  }

  function WaitWork(s: State, id: nat, ready: nat, waiting: nat): nat {
    if id < |s.flights| && s.flights[id].value.None? then FlightWork(s.flights[id]) + waiting else ready
  }

  function JoinWork(s: State, id: nat, more: nat): nat {
    if id < |s.flights| then FlightWork(s.flights[id]) + more else 0
  }

  /** An upper bound on the steps until a request at `pc` has its verdict. */
  function Work(s: State, pc: Pc): nat {
    match pc
    case Arrived => GateBase(s) + 3
    case Missed => GateBase(s) + 2
    case Subscribed(seen) => AtGateWork(s, seen) + 1
    case AtGate(seen, _) => AtGateWork(s, seen)
    case Rechecking(_, _) => 12
    case Installing(_) => 11
    case Holding(id) => JoinWork(s, id, 2)
    case Joining(id) => JoinWork(s, id, 1)
    case Reading(id) => WaitWork(s, id, 1, 4)
    case Watching(id) => WaitWork(s, id, 2, 3)
    case Judging(seen, _, saw) => ParkedWork(s, seen, saw) + 1
    case Parked(seen, _, saw, _) => ParkedWork(s, seen, saw)
    case Done(_, _) => 0
    case Cancelled => 0
  }

  lemma WorkIsBounded(s: State, pc: Pc)
    ensures Work(s, pc) <= 31
  {
  }

  // --- who helps -------------------------------------------------------------

  predicate Finished(pc: Pc) {
    pc.Done? || pc.Cancelled?
  }

  /** The flight a request at `pc` waits for. */
  function WaitsFor(pc: Pc): Option<nat> {
    match pc
    case Joining(id) => Some(id)
    case Watching(id) => Some(id)
    case Parked(_, _, saw, _) => Some(saw)
    case _ => None
  }

  /** The step is the request's own, the lock holder's or that of the flight it waits for. */
  predicate Helps(s: State, r: nat, a: Action)
    requires r < |s.reqs|
  {
    var pc := s.reqs[r].pc;
    || (a.RequestStep? && a.r == r && !a.request.Cancel? && !a.request.Timeout?)
    || (a.RequestStep? && (a.request.Recheck? || a.request.Install?) && pc.AtGate? && s.lock == Some(a.r))
    || (WaitsFor(pc).Some? && WaitsFor(pc).value < |s.flights| && a == Push(s, WaitsFor(pc).value))
  }

  /** The move a request makes on its own, if it can. */
  function OwnMove(s: State, pc: Pc): Option<RequestMove> {
    match pc
    case Arrived => Some(FastLookup)
    case Missed => Some(Subscribe)
    case Subscribed(_) => Some(ReadClock)
    case AtGate(_, _) => if s.lock.None? then Some(Inspect) else None
    case Rechecking(_, _) => Some(Recheck)
    case Installing(_) => Some(Install)
    case Holding(_) => Some(Spawn)
    case Reading(_) => Some(ReadOutcome)
    case Judging(_, _, _) => Some(Judge)
    case Joining(id) => if id < |s.flights| && Joinable(s.flights[id]) then Some(Join) else None
    case Watching(id) =>
      if id < |s.flights| && (s.flights[id].value.Some? || !s.flights[id].sender) then Some(WatchOutcome) else None
    case Parked(seen, _, _, _) => if seen != s.freed then Some(Wake) else None
    case _ => None
  }

  // --- the gate's share ------------------------------------------------------

  /** The gate is as far as it was. */
  ghost predicate SameGate(s: State, t: State) {
    && t.slot == s.slot && t.lock == s.lock && t.flights == s.flights && t.freed == s.freed
    && (s.lock.Some? && s.lock.value < |s.reqs| ==> s.lock.value < |t.reqs| && t.reqs[s.lock.value].pc == s.reqs[s.lock.value].pc)
    && |t.reqs| == |s.reqs|
  }

  lemma SameGateWork(s: State, t: State, pc: Pc)
    requires SameGate(s, t)
    ensures GateWork(t) == GateWork(s) && Work(t, pc) == Work(s, pc)
  {
  }

  /** What the lock and the slot say about each other. */
  lemma GateFacts(cfg: Config, s: State)
    requires Inv(cfg, s)
    ensures s.lock.Some? ==> s.slot.Free? && s.lock.value < |s.reqs| && Locking(s.reqs[s.lock.value].pc)
    ensures s.slot.InFlight? ==> s.slot.id < |s.flights| && s.flights[s.slot.id].guard.Held? && 2 <= GateWork(s) <= 8
    ensures GateWork(s) == 0 <==> s.lock.None? && s.slot.Free?
  {
    if s.lock.Some? { assert RequestOk(cfg, s, s.lock.value); }
    if s.slot.InFlight? { assert FlightOk(cfg, s, s.slot.id); }
  }

  // --- own moves -------------------------------------------------------------

  /** Moves that leave the gate alone. */
  predicate Aside(m: RequestMove) {
    m.FastLookup? || m.Subscribe? || m.ReadClock? || m.Judge? || m.Wake? || m.ReadOutcome? || m.WatchOutcome? || m.Join?
  }

  lemma AsideShape(cfg: Config, s: State, r: nat, m: RequestMove)
    requires r < |s.reqs| && RequestEnabled(s, r, m) && Aside(m) && s.lock != Some(r)
    ensures SameGate(s, AfterRequest(cfg, s, r, m))
  {
  }

  lemma AsideWorks(cfg: Config, s: State, r: nat, m: RequestMove)
    requires Inv(cfg, s) && r < |s.reqs| && OwnMove(s, s.reqs[r].pc) == Some(m) && RequestEnabled(s, r, m) && Aside(m)
    ensures var t := AfterRequest(cfg, s, r, m);
            r < |t.reqs| && !t.reqs[r].pc.Cancelled? && Work(t, t.reqs[r].pc) < Work(s, s.reqs[r].pc)
  {
    var t := AfterRequest(cfg, s, r, m);
    assert s.lock != Some(r);
    AsideShape(cfg, s, r, m);
    AsidePc(cfg, s, r, m);
    SameGateWork(s, t, t.reqs[r].pc);
  }

  /** Where such a move takes the request, measured in the state it leaves. */
  lemma AsidePc(cfg: Config, s: State, r: nat, m: RequestMove)
    requires r < |s.reqs| && OwnMove(s, s.reqs[r].pc) == Some(m) && RequestEnabled(s, r, m) && Aside(m)
    ensures var t := AfterRequest(cfg, s, r, m);
            r < |t.reqs| && !t.reqs[r].pc.Cancelled? && Work(s, t.reqs[r].pc) < Work(s, s.reqs[r].pc)
  {
  }

  lemma InspectWorks(cfg: Config, s: State, r: nat)
    requires Inv(cfg, s) && r < |s.reqs| && RequestEnabled(s, r, Inspect)
    ensures var t := AfterInspect(cfg, s, r);
            r < |t.reqs| && !t.reqs[r].pc.Cancelled? && Work(t, t.reqs[r].pc) < Work(s, s.reqs[r].pc)
  {
    var t := AfterInspect(cfg, s, r);
    GateFacts(cfg, s);
    if s.slot.InFlight? {
      assert SameGate(s, t);
      SameGateWork(s, t, t.reqs[r].pc);
    }
  }

  lemma RecheckWorks(cfg: Config, s: State, r: nat, tag: Tag)
    requires r < |s.reqs| && s.reqs[r].pc.Rechecking?
    ensures var t := AfterRecheck(s, r, tag);
            r < |t.reqs| && !t.reqs[r].pc.Cancelled? && Work(t, t.reqs[r].pc) < 12
  {
  }

  lemma InstallWorks(cfg: Config, s: State, r: nat)
    requires r < |s.reqs| && RequestEnabled(s, r, Install)
    ensures var t := AfterInstall(cfg, s, r);
            r < |t.reqs| && !t.reqs[r].pc.Cancelled? && Work(t, t.reqs[r].pc) < 11
  {
  }

  lemma SpawnWorks(cfg: Config, s: State, r: nat)
    requires r < |s.reqs| && RequestEnabled(s, r, Spawn) && s.flights[s.reqs[r].pc.id].phase.Handed?
    ensures var t := AfterRequest(cfg, s, r, Spawn);
            r < |t.reqs| && !t.reqs[r].pc.Cancelled? && Work(t, t.reqs[r].pc) < Work(s, s.reqs[r].pc)
  {
  }

  lemma OwnMoveEnabled(cfg: Config, s: State, r: nat, m: RequestMove)
    requires Inv(cfg, s) && r < |s.reqs| && OwnMove(s, s.reqs[r].pc) == Some(m)
    ensures RequestEnabled(s, r, m)
  {
    assert RequestOk(cfg, s, r);
  }

  lemma OwnMoveWorks(cfg: Config, s: State, r: nat, m: RequestMove)
    requires Inv(cfg, s) && r < |s.reqs| && OwnMove(s, s.reqs[r].pc) == Some(m) && RequestEnabled(s, r, m)
    ensures var t := AfterRequest(cfg, s, r, m);
            r < |t.reqs| && !t.reqs[r].pc.Cancelled? && Work(t, t.reqs[r].pc) < Work(s, s.reqs[r].pc)
  {
    assert RequestOk(cfg, s, r);
    match m
    case Inspect => InspectWorks(cfg, s, r);
    case Recheck => RecheckWorks(cfg, s, r, TagOf(cfg, s.reqs[r].cred).value);
    case Install => InstallWorks(cfg, s, r);
    case Spawn => SpawnWorks(cfg, s, r);
    case _ => AsideWorks(cfg, s, r, m);
  }

  // --- the lock holder's moves -----------------------------------------------

  lemma HolderRecheck(cfg: Config, s: State, q: nat, tag: Tag)
    requires q < |s.reqs| && s.lock == Some(q) && s.reqs[q].pc.Rechecking? && s.slot.Free?
    ensures var t := AfterRecheck(s, q, tag);
            && |t.reqs| == |s.reqs| && t.freed == s.freed && GateWork(t) < GateWork(s)
            && forall r: nat :: r < |s.reqs| && r != q ==> t.reqs[r] == s.reqs[r]
  {
  }

  lemma HolderInstall(cfg: Config, s: State, q: nat)
    requires q < |s.reqs| && s.lock == Some(q) && s.reqs[q].pc.Installing?
    ensures var t := AfterInstall(cfg, s, q);
            && |t.reqs| == |s.reqs| && t.freed == s.freed && GateWork(t) < GateWork(s)
            && forall r: nat :: r < |s.reqs| && r != q ==> t.reqs[r] == s.reqs[r]
  {
  }

  lemma LessAtGate(s: State, t: State, seen: nat)
    requires t.freed == s.freed && GateWork(t) < GateWork(s)
    ensures AtGateWork(t, seen) < AtGateWork(s, seen)
  {
  }

  /** A request kept from the gate by the lock: its holder moves on. */
  lemma HolderWorks(cfg: Config, s: State, r: nat) returns (a: Action)
    requires Inv(cfg, s) && r < |s.reqs| && s.reqs[r].pc.AtGate? && s.lock.Some?
    ensures Enabled(cfg, s, a) && Helps(s, r, a)
    ensures var t := Next(cfg, s, a);
            r < |t.reqs| && !t.reqs[r].pc.Cancelled? && Work(t, t.reqs[r].pc) < Work(s, s.reqs[r].pc)
  {
    GateFacts(cfg, s);
    var q := s.lock.value;
    assert RequestOk(cfg, s, q);
    if s.reqs[q].pc.Rechecking? {
      a := RequestStep(q, Recheck);
      HolderRecheck(cfg, s, q, TagOf(cfg, s.reqs[q].cred).value);
    } else {
      a := RequestStep(q, Install);
      HolderInstall(cfg, s, q);
    }
    LessAtGate(s, Next(cfg, s, a), s.reqs[r].pc.seen);
  }

  // --- the flight's moves ----------------------------------------------------

  /** What one push of flight `id` does to it and to the gate. */
  ghost predicate Pushed(s: State, t: State, id: nat)
    requires id < |s.flights|
  {
    var f := s.flights[id];
    && |t.flights| == |s.flights| && FlightWork(t.flights[id]) + 1 == FlightWork(f)
    && (f.value.Some? ==> t.flights[id].value.Some?)
    && t.lock == s.lock
    && if f.guard.Held? && f.phase.Ended? then t.slot.Free? && t.flights[id].guard.Cleared? && t.freed == s.freed
       else if f.guard.Cleared? then t.slot == s.slot && t.freed == s.freed + 1
       else t.slot == s.slot && t.freed == s.freed && t.flights[id].guard == f.guard
  }

  lemma SpawnPushes(cfg: Config, s: State, r: nat)
    requires r < |s.reqs| && RequestEnabled(s, r, Spawn)
    requires s.flights[s.reqs[r].pc.id].phase.Handed? && s.flights[s.reqs[r].pc.id].guard.Held?
    ensures Pushed(s, AfterRequest(cfg, s, r, Spawn), s.reqs[r].pc.id)
    ensures var t := AfterRequest(cfg, s, r, Spawn);
            |t.reqs| == |s.reqs| && forall q: nat :: q < |s.reqs| && q != r ==> t.reqs[q] == s.reqs[q]
  {
  }

  lemma MovePushes(cfg: Config, s: State, id: nat, m: FlightMove)
    requires id < |s.flights| && FlightEnabled(s, id, m) && m == NextMove(s.flights[id])
    requires var f := s.flights[id];
             && !f.phase.Handed?
             && (f.guard.Held? ==> s.slot == InFlight(id, f.tag))
             && (!f.phase.Ended? ==> f.guard.Held?)
    ensures Pushed(s, AfterFlight(cfg, s, id, m), id) && AfterFlight(cfg, s, id, m).reqs == s.reqs
  {
  }

  /** A flight that is not done with can be pushed, and only its owner could notice. */
  lemma PushWorks(cfg: Config, s: State, id: nat, r: nat)
    requires Inv(cfg, s) && id < |s.flights| && !Joinable(s.flights[id])
    requires r < |s.reqs| && !s.reqs[r].pc.Holding?
    ensures Enabled(cfg, s, Push(s, id)) && Pushed(s, Next(cfg, s, Push(s, id)), id)
    ensures var t := Next(cfg, s, Push(s, id)); r < |t.reqs| && t.reqs[r] == s.reqs[r]
  {
    PushEnabled(cfg, s, id);
    var f := s.flights[id];
    assert FlightOk(cfg, s, id);
    if f.phase.Handed? {
      assert RequestOk(cfg, s, f.owner);
      SpawnPushes(cfg, s, f.owner);
    } else {
      MovePushes(cfg, s, id, NextMove(f));
    }
  }

  lemma JoinerIsServed(s: State, t: State, id: nat)
    requires id < |s.flights| && Pushed(s, t, id)
    ensures JoinWork(t, id, 1) < JoinWork(s, id, 1)
    ensures s.flights[id].value.None? ==> WaitWork(t, id, 2, 3) < WaitWork(s, id, 2, 3)
  {
  }

  /** A parked request that has seen every announcement: its flight frees the gate, and then announces it. */
  lemma ParkedIsServed(s: State, t: State, seen: nat, saw: nat)
    requires saw < |s.flights| && Pushed(s, t, saw) && seen == s.freed && !s.flights[saw].guard.Dropped?
    requires s.flights[saw].guard.Held? ==> s.lock.None? && s.slot == InFlight(saw, s.flights[saw].tag)
    requires s.flights[saw].guard.Cleared? ==> GateWork(t) == GateWork(s)
    ensures ParkedWork(t, seen, saw) < ParkedWork(s, seen, saw)
  {
  }

  /** Announcing leaves the gate as it is. */
  lemma AnnounceKeepsGate(cfg: Config, s: State, id: nat)
    requires id < |s.flights| && s.flights[id].guard.Cleared? && s.flights[id].phase.Ended?
    requires s.slot.InFlight? ==> s.slot.id != id
    ensures Push(s, id) == FlightStep(id, Announce) && Enabled(cfg, s, Push(s, id))
    ensures GateWork(Next(cfg, s, Push(s, id))) == GateWork(s)
  {
  }

  lemma WaiterWorks(cfg: Config, s: State, r: nat) returns (a: Action)
    requires Inv(cfg, s) && r < |s.reqs| && WaitsFor(s.reqs[r].pc).Some? && OwnMove(s, s.reqs[r].pc).None?
    ensures Enabled(cfg, s, a) && Helps(s, r, a)
    ensures var t := Next(cfg, s, a);
            r < |t.reqs| && t.reqs[r].pc == s.reqs[r].pc && Work(t, t.reqs[r].pc) < Work(s, s.reqs[r].pc)
  {
    var pc := s.reqs[r].pc;
    assert RequestOk(cfg, s, r);
    var id := WaitsFor(pc).value;
    assert FlightOk(cfg, s, id);
    a := Push(s, id);
    PushWorks(cfg, s, id, r);
    var t := Next(cfg, s, a);
    if pc.Parked? {
      GateFacts(cfg, s);
      if s.flights[id].guard.Cleared? { AnnounceKeepsGate(cfg, s, id); }
      ParkedIsServed(s, t, pc.seen, id);
    } else {
      JoinerIsServed(s, t, id);
    }
  }

  // --- to the verdict --------------------------------------------------------

  /** From every state of a run some helpful step brings an unfinished request closer to its verdict. */
  lemma SomeoneHelps(cfg: Config, s: State, r: nat) returns (a: Action)
    requires WellFormed(cfg) && Inv(cfg, s) && r < |s.reqs| && !Finished(s.reqs[r].pc)
    ensures Enabled(cfg, s, a) && Helps(s, r, a)
    ensures var t := Next(cfg, s, a);
            r < |t.reqs| && !t.reqs[r].pc.Cancelled? && Work(t, t.reqs[r].pc) < Work(s, s.reqs[r].pc)
  {
    var m := OwnMove(s, s.reqs[r].pc);
    if m.Some? {
      a := RequestStep(r, m.value);
      OwnMoveEnabled(cfg, s, r, m.value);
      OwnMoveWorks(cfg, s, r, m.value);
    } else if s.reqs[r].pc.AtGate? {
      a := HolderWorks(cfg, s, r);
    } else {
      a := WaiterWorks(cfg, s, r);
    }
  }

  /** Every step of the path helps request `r`. */
  ghost predicate Helpful(cfg: Config, s: State, r: nat, path: seq<Action>)
    decreases |path|
  {
    path != [] ==>
      && r < |s.reqs| && Enabled(cfg, s, path[0]) && Helps(s, r, path[0])
      && Helpful(cfg, Next(cfg, s, path[0]), r, path[1..])
  }

  /** A request that will not be refused any more. */
  predicate Committed(pc: Pc) {
    || pc.Rechecking? || pc.Installing? || pc.Holding? || pc.Joining? || pc.Reading? || pc.Watching? || pc.Cancelled?
    || (pc.Done? && pc.verdict != Busy)
  }

  lemma CommittedMoves(cfg: Config, s: State, r: nat, m: RequestMove)
    requires r < |s.reqs| && RequestEnabled(s, r, m) && Committed(s.reqs[r].pc)
    ensures r < |AfterRequest(cfg, s, r, m).reqs| && Committed(AfterRequest(cfg, s, r, m).reqs[r].pc)
  {
  }

  lemma CommittedStays(cfg: Config, s: State, a: Action, r: nat)
    requires Enabled(cfg, s, a) && r < |s.reqs| && Committed(s.reqs[r].pc)
    ensures r < |Next(cfg, s, a).reqs| && Committed(Next(cfg, s, a).reqs[r].pc)
  {
    match a
    case Tick(_) =>
    case Arrive(_) =>
    case RequestStep(q, m) => if q == r { CommittedMoves(cfg, s, r, m); } else { OthersStay(cfg, s, q, m, r); }
    case FlightStep(_, _) =>
  }

  lemma {:induction false} PathToVerdict(cfg: Config, s: State, r: nat) returns (path: seq<Action>)
    requires WellFormed(cfg) && Inv(cfg, s) && r < |s.reqs| && !s.reqs[r].pc.Cancelled?
    ensures |path| <= Work(s, s.reqs[r].pc) && Helpful(cfg, s, r, path) && Continue(cfg, s, path).Some?
    ensures var t := Continue(cfg, s, path).value;
            && r < |t.reqs| && t.reqs[r].pc.Done?
            && (Committed(s.reqs[r].pc) ==> t.reqs[r].pc.verdict != Busy)
    decreases Work(s, s.reqs[r].pc)
  {
    if s.reqs[r].pc.Done? {
      path := [];
    } else {
      var a := SomeoneHelps(cfg, s, r);
      StepKept(cfg, s, a);
      var t := Next(cfg, s, a);
      if Committed(s.reqs[r].pc) { CommittedStays(cfg, s, a, r); }
      var rest := PathToVerdict(cfg, t, r);
      path := [a] + rest;
      assert path[1..] == rest;
    }
  }

  /**
   * In every state of every run each unfinished request has a path of at most 31 helpful
   * steps to its verdict; one that holds the gate or waits for a flight is not refused.
   */
  lemma EveryRequestCanFinish(cfg: Config, actions: seq<Action>, r: nat) returns (path: seq<Action>)
    requires WellFormed(cfg) && Run(cfg, actions).Some?
    requires r < |Run(cfg, actions).value.reqs| && !Finished(Run(cfg, actions).value.reqs[r].pc)
    ensures var s := Run(cfg, actions).value;
            && 0 < |path| <= 31 && Helpful(cfg, s, r, path) && Continue(cfg, s, path).Some?
            && var t := Continue(cfg, s, path).value;
            && r < |t.reqs| && t.reqs[r].pc.Done?
            && (Committed(s.reqs[r].pc) ==> t.reqs[r].pc.verdict != Busy)
  {
    RunKept(cfg, actions);
    var s := Run(cfg, actions).value;
    WorkIsBounded(s, s.reqs[r].pc);
    path := PathToVerdict(cfg, s, r);
  }
}
