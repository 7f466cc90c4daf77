/** What the verifier promises, over every run: any interleaving, cancellation, KDF death and clock. */
module VerifierTheorems {
  import opened Common
  import opened VerificationMemo
  import opened VerifierProtocol
  import opened VerifierInvariants
  import opened VerifierHistory
  import H = MemoHistory

  // --- verdicts --------------------------------------------------------------

  /**
   * Memo, single-flight and gate together answer what the direct check answers. A
   * request is let through only if the direct check admits its credential, and denied
   * only if it does not, or if the very KDF task it waited on died without a verdict.
   */
  lemma VerdictsRefineDirectCheck(cfg: Config, actions: seq<Action>, r: nat)
    requires WellFormed(cfg) && Run(cfg, actions).Some?
    requires r < |Run(cfg, actions).value.reqs| && Run(cfg, actions).value.reqs[r].pc.Done?
    ensures var s := Run(cfg, actions).value;
            var c, v, why := s.reqs[r].cred, s.reqs[r].pc.verdict, s.reqs[r].pc.cause;
            && (v == Allow ==> Admits(cfg, c))
            && (v == Deny && Admits(cfg, c) ==>
                  why.FromFlight? && why.id < |s.flights| && s.flights[why.id].cred == c && s.flights[why.id].phase == Ended(None))
  {
    RunKept(cfg, actions);
    assert RequestOk(cfg, Run(cfg, actions).value, r);
  }

  /** A request that finds its own tag in flight joins that flight, however long it has queued. */
  lemma OwnTagIsJoined(cfg: Config, actions: seq<Action>, r: nat)
    requires WellFormed(cfg) && cfg.keyed && Run(cfg, actions).Some?
    requires r < |Run(cfg, actions).value.reqs| && RequestEnabled(Run(cfg, actions).value, r, Inspect)
    requires Run(cfg, actions).value.slot.InFlight?
    ensures var s := Run(cfg, actions).value;
            var pc := AfterInspect(cfg, s, r).reqs[r].pc;
            && s.slot.id < |s.flights|
            && if s.flights[s.slot.id].cred == s.reqs[r].cred then pc == Reading(s.slot.id) else pc.Judging?
  {
    RunKept(cfg, actions);
    var s := Run(cfg, actions).value;
    assert RequestOk(cfg, s, r) && FlightOk(cfg, s, s.slot.id);
    if TagMatches(s.slot.tag, TagOf(cfg, s.reqs[r].cred)) {
      SameTagSameCredential(cfg, s.flights[s.slot.id].cred, s.reqs[r].cred);
    }
  }

  predicate Joined(pc: Pc, id: nat) {
    pc == Reading(id) || pc == Watching(id) || pc == Cancelled || (pc.Done? && pc.verdict != Busy && pc.cause == FromFlight(id))
  }

  lemma JoinedStays(cfg: Config, s: State, a: Action, r: nat, id: nat)
    requires Enabled(cfg, s, a) && r < |s.reqs| && Joined(s.reqs[r].pc, id)
    ensures r < |Next(cfg, s, a).reqs| && Joined(Next(cfg, s, a).reqs[r].pc, id)
  {
    match a
    case Tick(_) =>
    case Arrive(_) =>
    case RequestStep(q, m) => if q == r { JoinedMoves(cfg, s, r, m, id); } else { OthersStay(cfg, s, q, m, r); }
    case FlightStep(_, _) =>
  }

  lemma JoinedMoves(cfg: Config, s: State, r: nat, m: RequestMove, id: nat)
    requires r < |s.reqs| && RequestEnabled(s, r, m) && Joined(s.reqs[r].pc, id)
    ensures r < |AfterRequest(cfg, s, r, m).reqs| && Joined(AfterRequest(cfg, s, r, m).reqs[r].pc, id)
  {
  }

  lemma OthersStay(cfg: Config, s: State, q: nat, m: RequestMove, r: nat)
    requires q < |s.reqs| && RequestEnabled(s, q, m) && r < |s.reqs| && q != r
    ensures |AfterRequest(cfg, s, q, m).reqs| == |s.reqs| && AfterRequest(cfg, s, q, m).reqs[r] == s.reqs[r]
  {
  }

  lemma {:induction false} JoinedThroughout(cfg: Config, actions: seq<Action>, more: seq<Action>, r: nat, id: nat)
    requires Run(cfg, actions + more).Some? && Run(cfg, actions).Some?
    requires r < |Run(cfg, actions).value.reqs| && Joined(Run(cfg, actions).value.reqs[r].pc, id)
    ensures r < |Run(cfg, actions + more).value.reqs| && Joined(Run(cfg, actions + more).value.reqs[r].pc, id)
  {
    if more == [] {
      assert actions + more == actions;
    } else {
      var shorter := more[..|more| - 1];
      assert (actions + more)[..|actions + more| - 1] == actions + shorter;
      JoinedThroughout(cfg, actions, shorter, r, id);
      JoinedStays(cfg, Run(cfg, actions + shorter).value, more[|more| - 1], r, id);
    }
  }

  /** The verdict of flight `id`, whose task has ended; a task that died denies. */
  predicate Says(s: State, id: nat, v: Verdict) {
    id < |s.flights| && s.flights[id].phase.Ended? && v == (if s.flights[id].phase.outcome == Some(true) then Allow else Deny)
  }

  predicate SaidByFlight(s: State, pc: Pc) {
    pc.Done? && pc.cause.FromFlight? ==> Says(s, pc.cause.id, pc.verdict)
  }

  lemma EndedKeptByRequest(cfg: Config, s: State, r: nat, m: RequestMove, id: nat)
    requires r < |s.reqs| && RequestEnabled(s, r, m) && id < |s.flights| && s.flights[id].phase.Ended?
    requires m.Spawn? ==> s.flights[s.reqs[r].pc.id].phase.Handed?
    ensures id < |AfterRequest(cfg, s, r, m).flights| && AfterRequest(cfg, s, r, m).flights[id].phase == s.flights[id].phase
  {
  }

  lemma EndedKeptByFlight(cfg: Config, s: State, q: nat, m: FlightMove, id: nat)
    requires q < |s.flights| && FlightEnabled(s, q, m) && id < |s.flights| && s.flights[id].phase.Ended?
    ensures id < |AfterFlight(cfg, s, q, m).flights| && AfterFlight(cfg, s, q, m).flights[id].phase == s.flights[id].phase
  {
  }

  lemma EndedStays(cfg: Config, s: State, a: Action, id: nat)
    requires Inv(cfg, s) && Enabled(cfg, s, a) && id < |s.flights| && s.flights[id].phase.Ended?
    ensures id < |Next(cfg, s, a).flights| && Next(cfg, s, a).flights[id].phase == s.flights[id].phase
  {
    match a
    case Tick(_) =>
    case Arrive(_) =>
    case RequestStep(r, m) =>
      assert RequestOk(cfg, s, r);
      EndedKeptByRequest(cfg, s, r, m, id);
    case FlightStep(q, m) => EndedKeptByFlight(cfg, s, q, m, id);
  }

  lemma SaidMove(cfg: Config, s: State, r: nat, m: RequestMove)
    requires Inv(cfg, s) && r < |s.reqs| && RequestEnabled(s, r, m) && SaidByFlight(s, s.reqs[r].pc)
    ensures r < |AfterRequest(cfg, s, r, m).reqs|
    ensures m.ReadOutcome? || m.WatchOutcome? || m.Join? ==>
              SaidByFlight(s, AfterRequest(cfg, s, r, m).reqs[r].pc) && AfterRequest(cfg, s, r, m).flights == s.flights
    ensures !(m.ReadOutcome? || m.WatchOutcome? || m.Join?) ==>
              var pc := AfterRequest(cfg, s, r, m).reqs[r].pc; pc.Done? ==> !pc.cause.FromFlight?
  {
    assert RequestOk(cfg, s, r);
    var pc := s.reqs[r].pc;
    if m.ReadOutcome? || m.WatchOutcome? || m.Join? { assert FlightOk(cfg, s, pc.id); }
  }

  /** Every verdict taken from a flight is the one that flight ended with. */
  lemma {:induction false} FlightsAreQuoted(cfg: Config, actions: seq<Action>, r: nat)
    requires WellFormed(cfg) && Run(cfg, actions).Some? && r < |Run(cfg, actions).value.reqs|
    ensures SaidByFlight(Run(cfg, actions).value, Run(cfg, actions).value.reqs[r].pc)
  {
    var before, a := actions[..|actions| - 1], actions[|actions| - 1];
    var s := Run(cfg, before).value;
    if r < |s.reqs| {
      FlightsAreQuoted(cfg, before, r);
      RunKept(cfg, before);
      var pc := s.reqs[r].pc;
      if pc.Done? && pc.cause.FromFlight? { EndedStays(cfg, s, a, pc.cause.id); }
      if a.RequestStep? && a.r == r {
        SaidMove(cfg, s, r, a.request);
      } else if a.RequestStep? {
        OthersStay(cfg, s, a.r, a.request, r);
      }
    } else {
      NewRequest(cfg, s, a, r);
    }
  }

  lemma NewRequest(cfg: Config, s: State, a: Action, r: nat)
    requires Enabled(cfg, s, a) && |s.reqs| <= r < |Next(cfg, s, a).reqs|
    ensures Next(cfg, s, a).reqs[r].pc == Arrived
  {
  }

  /**
   * Once joined to a flight no continuation of the run refuses it: it is still joined,
   * was cancelled, or has the verdict that flight ended with.
   */
  lemma JoinedIsNeverRefused(cfg: Config, actions: seq<Action>, more: seq<Action>, r: nat, id: nat)
    requires WellFormed(cfg) && Run(cfg, actions + more).Some? && Run(cfg, actions).Some?
    requires r < |Run(cfg, actions).value.reqs| && Joined(Run(cfg, actions).value.reqs[r].pc, id)
    ensures r < |Run(cfg, actions + more).value.reqs| && Joined(Run(cfg, actions + more).value.reqs[r].pc, id)
    ensures var t := Run(cfg, actions + more).value;
            t.reqs[r].pc.Done? ==> Says(t, id, t.reqs[r].pc.verdict)
  {
    JoinedThroughout(cfg, actions, more, r, id);
    FlightsAreQuoted(cfg, actions + more, r);
  }

  // --- the gate --------------------------------------------------------------

  /** A blocking task that has not ended. */
  predicate Flying(f: Flight) {
    !f.phase.Ended?
  }

  /**
   * The slot is occupied exactly while one guard is live, and that guard carries the
   * slot's id; so at most one verification is ever in flight.
   */
  lemma OneGuardOneSlot(cfg: Config, actions: seq<Action>)
    requires WellFormed(cfg) && Run(cfg, actions).Some?
    ensures var s := Run(cfg, actions).value;
            && (s.slot.InFlight? ==> s.slot.id < |s.flights| && s.flights[s.slot.id].guard.Held?)
            && (forall i: nat :: i < |s.flights| && s.flights[i].guard.Held? ==> s.slot == InFlight(i, s.flights[i].tag))
            && (forall i: nat, j: nat :: i < |s.flights| && j < |s.flights| && Flying(s.flights[i]) && Flying(s.flights[j]) ==> i == j)
  {
    RunKept(cfg, actions);
    var s := Run(cfg, actions).value;
    forall i: nat | i < |s.flights| && (s.flights[i].guard.Held? || Flying(s.flights[i]))
      ensures s.slot == InFlight(i, s.flights[i].tag)
    {
      HeldIsInTheSlot(cfg, s, i);
    }
  }

  lemma HeldIsInTheSlot(cfg: Config, s: State, i: nat)
    requires Inv(cfg, s) && i < |s.flights| && (s.flights[i].guard.Held? || Flying(s.flights[i]))
    ensures s.slot == InFlight(i, s.flights[i].tag)
  {
    assert FlightOk(cfg, s, i);
  }

  lemma RequestsKeepTheSlot(cfg: Config, s: State, r: nat, m: RequestMove)
    requires Inv(cfg, s) && s.slot.InFlight? && r < |s.reqs| && RequestEnabled(s, r, m)
    ensures AfterRequest(cfg, s, r, m).slot == s.slot
  {
    assert RequestOk(cfg, s, r);
  }

  lemma FlightsKeepTheSlot(cfg: Config, s: State, id: nat, m: FlightMove)
    requires Inv(cfg, s) && s.slot.InFlight? && id < |s.flights| && FlightEnabled(s, id, m)
    ensures AfterFlight(cfg, s, id, m).slot != s.slot ==> id == s.slot.id && m == ClearSlot
  {
  }

  /**
   * Only the flight's own guard frees the gate, after its task has returned or died: a
   * dropped request does not free it early. If the task returned, its verdict has been
   * published and, with a key, stored before.
   */
  lemma OnlyTheTaskFreesTheGate(cfg: Config, actions: seq<Action>, a: Action)
    requires WellFormed(cfg) && Run(cfg, actions).Some? && Enabled(cfg, Run(cfg, actions).value, a)
    requires Run(cfg, actions).value.slot.InFlight?
    requires Next(cfg, Run(cfg, actions).value, a).slot != Run(cfg, actions).value.slot
    ensures var s := Run(cfg, actions).value;
            && s.slot.id < |s.flights|
            && a == FlightStep(s.slot.id, ClearSlot)
            && var f := s.flights[s.slot.id];
            && f.phase.Ended? && f.value == f.phase.outcome
            && (f.phase.outcome.Some? && cfg.keyed ==> f.stored.Some?)
  {
    RunPast(cfg, actions);
    var s := Run(cfg, actions).value;
    match a
    case Tick(_) =>
    case Arrive(_) =>
    case RequestStep(r, m) => RequestsKeepTheSlot(cfg, s, r, m);
    case FlightStep(id, m) =>
      FlightsKeepTheSlot(cfg, s, id, m);
      assert FlightOk(cfg, s, id) && FlightPast(cfg, s, id);
  }

  /** A verdict that is sent is never dropped for want of a receiver: the slot still holds one. */
  lemma PublishReachesTheChannel(cfg: Config, actions: seq<Action>, id: nat)
    requires WellFormed(cfg) && Run(cfg, actions).Some?
    requires id < |Run(cfg, actions).value.flights| && FlightEnabled(Run(cfg, actions).value, id, Publish)
    ensures HasReceiver(Run(cfg, actions).value, id)
  {
    RunKept(cfg, actions);
    assert FlightOk(cfg, Run(cfg, actions).value, id);
  }

  function Continue(cfg: Config, s: State, actions: seq<Action>): Option<State>
    decreases |actions|
  {
    if actions == [] then Some(s)
    else if Enabled(cfg, s, actions[0]) then Continue(cfg, Next(cfg, s, actions[0]), actions[1..])
    else None
  }

  function Remaining(p: Phase): nat {
    match p
    case Handed => 5
    case Queued => 4
    case Computing => 3
    case Computed(_) => 2
    case Warm(_) => 1
    case Ended(_) => 0
  }

  /** The next thing a flight does on its own. */
  function NextMove(f: Flight): FlightMove {
    match f.phase
    case Handed => StartKdf
    case Queued => StartKdf
    case Computing => FinishKdf
    case Computed(_) => StoreVerdict
    case Warm(_) => Publish
    case Ended(_) => if f.guard.Held? then ClearSlot else if f.guard.Cleared? then Announce else DropSender
  }

  /** What moves flight `id` on: its task, or the request that is about to spawn it. */
  function Push(s: State, id: nat): Action
    requires id < |s.flights|
  {
    var f := s.flights[id];
    if f.phase.Handed? then RequestStep(f.owner, Spawn) else FlightStep(id, NextMove(f))
  }

  lemma PushEnabled(cfg: Config, s: State, id: nat)
    requires Inv(cfg, s) && id < |s.flights| && !Joinable(s.flights[id])
    ensures Enabled(cfg, s, Push(s, id))
  {
    var f := s.flights[id];
    assert FlightOk(cfg, s, id);
    if s.lock.Some? { assert RequestOk(cfg, s, s.lock.value); }
  }

  lemma PushProgresses(cfg: Config, s: State)
    requires Inv(cfg, s) && s.slot.InFlight? && Enabled(cfg, s, Push(s, s.slot.id))
    ensures var id, t := s.slot.id, Next(cfg, s, Push(s, s.slot.id));
            var f := s.flights[id];
            if f.phase.Ended? then t.slot.Free?
            else t.slot == s.slot && |t.flights| == |s.flights| && t.flights[id].owner == f.owner && Remaining(t.flights[id].phase) + 1 == Remaining(f.phase)
  {
    assert FlightOk(cfg, s, s.slot.id);
    if s.flights[s.slot.id].phase.Handed? { assert RequestOk(cfg, s, s.flights[s.slot.id].owner); }
  }

  /**
   * The gate cannot be wedged: from any state of any run its holder alone, with no help
   * from a request, frees it in at most six steps.
   */
  lemma {:induction false} GateDrains(cfg: Config, s: State) returns (path: seq<Action>)
    requires WellFormed(cfg) && Inv(cfg, s) && s.slot.InFlight?
    ensures Continue(cfg, s, path).Some? && Continue(cfg, s, path).value.slot.Free?
    ensures |path| == Remaining(s.flights[s.slot.id].phase) + 1
    ensures forall k :: 0 <= k < |path| ==> path[k] == RequestStep(s.flights[s.slot.id].owner, Spawn) || (path[k].FlightStep? && path[k].id == s.slot.id)
    decreases Remaining(s.flights[s.slot.id].phase)
  {
    var id := s.slot.id;
    assert FlightOk(cfg, s, id);
    var a := Push(s, id);
    PushEnabled(cfg, s, id);
    var t := Next(cfg, s, a);
    PushProgresses(cfg, s);
    if s.flights[id].phase.Ended? {
      path := [a];
      assert Continue(cfg, t, path[1..]) == Some(t);
    } else {
      StepKept(cfg, s, a);
      var rest := GateDrains(cfg, t);
      path := [a] + rest;
      assert path[1..] == rest;
    }
  }

  // --- wakeups ---------------------------------------------------------------

  /**
   * No lost wakeup: a request parked on the announcement channel with nothing new to
   * see saw a flight that still holds the slot, or has cleared it and is about to announce it.
   */
  lemma NoLostWakeup(cfg: Config, actions: seq<Action>, r: nat)
    requires WellFormed(cfg) && Run(cfg, actions).Some?
    requires r < |Run(cfg, actions).value.reqs| && Run(cfg, actions).value.reqs[r].pc.Parked?
    requires Run(cfg, actions).value.reqs[r].pc.seen == Run(cfg, actions).value.freed
    ensures var s := Run(cfg, actions).value;
            var saw := s.reqs[r].pc.saw;
            && saw < |s.flights|
            && (s.slot == InFlight(saw, s.flights[saw].tag) || s.flights[saw].guard.Cleared?)
  {
    RunKept(cfg, actions);
    var s := Run(cfg, actions).value;
    assert RequestOk(cfg, s, r) && FlightOk(cfg, s, s.reqs[r].pc.saw);
  }

  // --- KDF runs --------------------------------------------------------------

  /**
   * The verdict stored at `k` had left the memo when the lookup at `m` missed it: a
   * positive one was overwritten by another tag's or idle for the TTL; a negative one
   * was as old as its TTL or followed by a full ring of others.
   */
  ghost predicate LeftTheMemo(h: H.History, k: nat, m: nat) {
    && k < m < |h| && h[k].Stored? && h[m].Looked? && h[m].tag == h[k].tag
    && if h[k].ok then
         || (exists x :: k < x < m && H.Positive(h, x) && h[x].tag != h[k].tag)
         || (exists x :: H.IdleGap(h[..m], k, x, h[m].at))
       else
         || Since(h[m].at, h[k].at) >= NEGATIVE_TTL
         || |H.Refutations(h[..m])| - |H.Refutations(h[..k + 1])| >= NEGATIVE_CAP
  }

  lemma {:induction false} LatestExists(h: H.History, k: nat) returns (p: nat)
    requires H.Positive(h, k)
    ensures k <= p && H.LatestPositive(h, p)
    decreases |h| - k
  {
    if H.LatestPositive(h, k) {
      p := k;
    } else {
      var i :| k < i && H.Positive(h, i);
      p := LatestExists(h, i);
    }
  }

  /** Where the refutation stored at `k` stands in the list of all of them. */
  lemma {:induction false} RefutationAt(h: H.History, k: nat)
    requires k < |h| && h[k].Stored? && !h[k].ok
    ensures |H.Refutations(h[..k + 1])| == |H.Refutations(h[..k])| + 1
    ensures |H.Refutations(h)| >= |H.Refutations(h[..k + 1])|
    ensures H.Refutations(h)[|H.Refutations(h[..k])|] == Entry(h[k].tag, h[k].at)
  {
    assert h[..k + 1][..k] == h[..k];
    if k + 1 == |h| {
      assert h[..k + 1] == h;
    } else {
      var front := h[..|h| - 1];
      assert front[..k] == h[..k] && front[..k + 1] == h[..k + 1];
      RefutationAt(front, k);
    }
  }

  lemma MissMeansLeft(h: H.History, k: nat, m: nat, late: nat)
    requires H.Monotone(h, late)
    requires k < m < |h| && h[k].Stored? && MissedAt(h, m, h[k].tag)
    requires forall x :: k < x < m && h[x].Stored? ==> h[x].tag != h[k].tag
    ensures LeftTheMemo(h, k, m)
  {
    var g, tag, now := h[..m], h[k].tag, h[m].at;
    H.MemoRefinesHistory(g, tag, now);
    if h[k].ok {
      assert H.Positive(g, k);
      var p := LatestExists(g, k);
      if p == k {
        assert exists x :: H.IdleGap(g, k, x, now);
      } else {
        assert H.Positive(h, p);
      }
    } else {
      RefutationAt(g, k);
      assert g[..k + 1] == h[..k + 1];
    }
  }

  lemma StorerIsBetween(cfg: Config, s: State, i: nat, j: nat, q: nat)
    requires Past(cfg, s) && i < j < |s.flights| && q < |s.flights|
    requires s.flights[i].tag.Some? && s.flights[j].tag.Some? && s.flights[q].tag.Some?
    requires s.flights[i].stored.Some? && s.flights[q].stored.Some?
    requires s.flights[i].stored.value < s.flights[q].stored.value < s.flights[j].recheck
    ensures i < q < j
  {
    assert FlightPast(cfg, s, q) && FlightPast(cfg, s, i);
    assert q < i ==> InOrder(s, q, i);
    assert j < q ==> InOrder(s, j, q);
  }

  /** Between two flights in a row for one tag nothing else stored a verdict for it. */
  lemma StoresBetween(cfg: Config, s: State, i: nat, j: nat, x: nat)
    requires Inv(cfg, s) && Past(cfg, s) && cfg.keyed && i < j < |s.flights|
    requires s.flights[i].tag == s.flights[j].tag && s.flights[i].stored.Some?
    requires forall q :: i < q < j ==> s.flights[q].tag != s.flights[i].tag
    requires s.flights[i].stored.value < x < s.flights[j].recheck && x < |s.hist| && s.hist[x].Stored?
    ensures Some(s.hist[x].tag) != s.flights[i].tag
  {
    assert StoredBySome(s, x);
    var q: nat :| q < |s.flights| && s.flights[q].stored == Some(x);
    assert FlightOk(cfg, s, q) && FlightOk(cfg, s, i);
    assert FlightPast(cfg, s, q);
    StorerIsBetween(cfg, s, i, j, q);
  }

  /**
   * With a MAC key two KDF runs in a row for one tag are separated by that verdict
   * leaving the memo, unless the first one died.
   */
  lemma KdfRunsAreSeparated(cfg: Config, actions: seq<Action>, i: nat, j: nat)
    requires WellFormed(cfg) && Run(cfg, actions).Some? && cfg.keyed
    requires i < j < |Run(cfg, actions).value.flights|
    requires var fs := Run(cfg, actions).value.flights;
             fs[i].tag == fs[j].tag && forall q :: i < q < j ==> fs[q].tag != fs[i].tag
    ensures var s := Run(cfg, actions).value;
            || s.flights[i].phase == Ended(None)
            || (s.flights[i].stored.Some? && LeftTheMemo(s.hist, s.flights[i].stored.value, s.flights[j].recheck))
  {
    RunPast(cfg, actions);
    var s := Run(cfg, actions).value;
    var f, g := s.flights[i], s.flights[j];
    assert FlightOk(cfg, s, i) && FlightOk(cfg, s, j);
    assert FlightPast(cfg, s, i) && FlightPast(cfg, s, j) && InOrder(s, i, j);
    if f.phase != Ended(None) {
      assert f.stored.Some?;
      forall x | f.stored.value < x < g.recheck && s.hist[x].Stored? ensures s.hist[x].tag != s.hist[f.stored.value].tag {
        StoresBetween(cfg, s, i, j, x);
      }
      MissMeansLeft(s.hist, f.stored.value, g.recheck, s.now);
    }
  }
}
