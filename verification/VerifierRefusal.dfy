/**
 * When a request is refused: exactly when a judgement finds that the gate wait has passed
 * since it began to queue. And how many refusals that makes.
 */
module VerifierRefusal {
  import opened Common
  import opened VerificationMemo
  import opened VerifierProtocol
  import opened VerifierInvariants
  import opened VerifierTheorems
  import opened VerifierQueue

  /** A request reads the clock once: no later pass of its loop begins the wait anew. */
  lemma {:induction false} ReadsClockOnce(cfg: Config, actions: seq<Action>, r: nat, x: nat, y: nat)
    requires Run(cfg, actions).Some? && x < |actions| && y < |actions|
    requires actions[x] == actions[y] == RequestStep(r, ReadClock)
    ensures x == y
  {
    var before := actions[..|actions| - 1];
    if x < |before| && y < |before| {
      ReadsClockOnce(cfg, before, r, x, y);
    } else {
      RunTrail(cfg, before, r);
      assert forall z :: 0 <= z < |before| ==> actions[z] == before[z] != RequestStep(r, ReadClock);
    }
  }

  lemma RunStep(cfg: Config, actions: seq<Action>, j: nat)
    requires Run(cfg, actions).Some? && j < |actions|
    ensures Run(cfg, actions[..j]).Some? && Run(cfg, actions[..j + 1]).Some?
    ensures Enabled(cfg, Run(cfg, actions[..j]).value, actions[j])
    ensures Run(cfg, actions[..j + 1]).value == Next(cfg, Run(cfg, actions[..j]).value, actions[j])
  {
    ClockNeverGoesBack(cfg, actions, j + 1);
    assert actions[..j + 1][..j] == actions[..j];
  }

  /** What a judgement decides, in the state it is made in. */
  lemma Judgement(cfg: Config, s: State, r: nat)
    requires r < |s.reqs| && RequestEnabled(s, r, Judge) && s.reqs[r].pc.started <= s.now
    ensures var pc, t := s.reqs[r].pc, AfterRequest(cfg, s, r, Judge);
            && |t.reqs| == |s.reqs|
            && if pc.started + cfg.gateWait <= s.now
               then t.reqs[r].pc == Done(Busy, Refused(pc.started, s.now, pc.saw)) && t.refusals == s.refusals + 1
               else t.reqs[r].pc == Parked(pc.seen, pc.started, pc.saw, pc.started + cfg.gateWait) && t.refusals == s.refusals
  {
  }

  /** A judged request began to queue, at the time it remembers. */
  lemma BeganBefore(cfg: Config, actions: seq<Action>, r: nat, i: nat, j: nat)
    requires Run(cfg, actions).Some? && Acts(cfg, actions, i, r, ReadClock) && Acts(cfg, actions, j, r, Judge)
    requires var s := Run(cfg, actions[..j]).value; r < |s.reqs| && s.reqs[r].pc.Judging?
    ensures i < j && Run(cfg, actions[..i]).value.now == Run(cfg, actions[..j]).value.reqs[r].pc.started
  {
    var pc := Run(cfg, actions[..j]).value.reqs[r].pc;
    RunTrail(cfg, actions[..j], r);
    var b: nat, k: nat :| Waited(cfg, actions[..j], r, pc.started, pc.saw, b, k, |actions[..j]|);
    assert actions[b] == RequestStep(r, ReadClock);
    ReadsClockOnce(cfg, actions, r, i, b);
    assert actions[..j][..b] == actions[..b];
  }

  /**
   * In every run a judged request is refused if and only if the gate wait has passed since
   * it read the clock; otherwise it parks until then. Exactly the refusals are counted.
   */
  lemma RefusedIffOverdue(cfg: Config, actions: seq<Action>, r: nat, i: nat, j: nat)
    requires WellFormed(cfg) && Run(cfg, actions).Some?
    requires Acts(cfg, actions, i, r, ReadClock) && Acts(cfg, actions, j, r, Judge)
    ensures i < j && Run(cfg, actions[..j + 1]).Some?
    ensures var began, s, t := Run(cfg, actions[..i]).value.now, Run(cfg, actions[..j]).value, Run(cfg, actions[..j + 1]).value;
            && r < |t.reqs|
            && (t.reqs[r].pc.Done? <==> began + cfg.gateWait <= s.now)
            && (if t.reqs[r].pc.Done? then t.reqs[r].pc.verdict == Busy
                else t.reqs[r].pc.Parked? && t.reqs[r].pc.deadline == began + cfg.gateWait)
            && t.refusals == s.refusals + if began + cfg.gateWait <= s.now then 1 else 0
  {
    RunStep(cfg, actions, j);
    var s := Run(cfg, actions[..j]).value;
    BeganBefore(cfg, actions, r, i, j);
    RunKept(cfg, actions[..j]);
    assert RequestOk(cfg, s, r);
    Judgement(cfg, s, r);
  }

  lemma OccupiedIsUnlocked(cfg: Config, s: State)
    requires Inv(cfg, s) && s.slot.InFlight?
    ensures s.lock.None?
  {
    assert s.lock.Some? ==> s.lock.value < |s.reqs| && RequestOk(cfg, s, s.lock.value);
  }

  /** A parked request whose wait is over, with another tag still in the slot, is refused by its own next three moves. */
  lemma OverdueIsRefused(cfg: Config, s: State, r: nat)
    requires Inv(cfg, s) && r < |s.reqs| && s.reqs[r].pc.Parked? && s.reqs[r].pc.deadline <= s.now
    requires s.slot.InFlight? && !TagMatches(s.slot.tag, TagOf(cfg, s.reqs[r].cred))
    ensures var path := [RequestStep(r, Timeout), RequestStep(r, Inspect), RequestStep(r, Judge)];
            && Continue(cfg, s, path).Some?
            && var t := Continue(cfg, s, path).value;
            && r < |t.reqs| && t.reqs[r].pc == Done(Busy, Refused(s.reqs[r].pc.started, s.now, s.slot.id))
  {
    var pc := s.reqs[r].pc;
    assert RequestOk(cfg, s, r);
    OccupiedIsUnlocked(cfg, s);
    var a, b, c := RequestStep(r, Timeout), RequestStep(r, Inspect), RequestStep(r, Judge);
    var s1 := At(s, r, AtGate(pc.seen, pc.started));
    var s2 := At(s, r, Judging(pc.seen, pc.started, s.slot.id));
    assert Next(cfg, s, a) == s1;
    assert Next(cfg, s1, b) == s2;
    Judgement(cfg, s2, r);
    assert [a, b, c][1..] == [b, c] && [b, c][1..] == [c] && [c][1..] == [];
    assert Continue(cfg, s2, [c]) == Continue(cfg, Next(cfg, s2, c), []);
  }

  // --- counting --------------------------------------------------------------

  function Score(q: Request): nat {
    if q.pc.Done? && q.pc.verdict == Busy then 1 else 0
  }

  /** How many requests were answered Busy. */
  function Busies(reqs: seq<Request>): nat {
    if reqs == [] then 0 else Busies(reqs[..|reqs| - 1]) + Score(reqs[|reqs| - 1])
  }

  lemma {:induction false} BusiesUpdate(reqs: seq<Request>, r: nat, q: Request)
    requires r < |reqs|
    ensures Busies(reqs[r := q]) == Busies(reqs) - Score(reqs[r]) + Score(q)
  {
    var front := reqs[..|reqs| - 1];
    if r == |reqs| - 1 {
      assert reqs[r := q][..|reqs| - 1] == front;
    } else {
      assert reqs[r := q][..|reqs| - 1] == front[r := q];
      BusiesUpdate(front, r, q);
    }
  }

  lemma OneMoves(cfg: Config, s: State, r: nat, m: RequestMove)
    requires r < |s.reqs| && RequestEnabled(s, r, m)
    ensures var t := AfterRequest(cfg, s, r, m);
            && |t.reqs| == |s.reqs| && t.reqs == s.reqs[r := t.reqs[r]] && Score(s.reqs[r]) == 0
            && t.refusals == s.refusals + Score(t.reqs[r])
  {
  }

  lemma RefusalStep(cfg: Config, s: State, a: Action)
    requires Enabled(cfg, s, a) && s.refusals == Busies(s.reqs)
    ensures Next(cfg, s, a).refusals == Busies(Next(cfg, s, a).reqs)
  {
    match a
    case Tick(_) =>
    case Arrive(c) => assert (s.reqs + [Request(c, Arrived)])[..|s.reqs|] == s.reqs;
    case RequestStep(r, m) =>
      OneMoves(cfg, s, r, m);
      BusiesUpdate(s.reqs, r, AfterRequest(cfg, s, r, m).reqs[r]);
    case FlightStep(id, m) => FlightsDoNotRefuse(cfg, s, id, m);
  }

  /** Over every run the refusals counted are the requests that were answered Busy. */
  lemma {:induction false} RefusalsAreCounted(cfg: Config, actions: seq<Action>)
    requires Run(cfg, actions).Some?
    ensures Run(cfg, actions).value.refusals == Busies(Run(cfg, actions).value.reqs)
  {
    if actions != [] {
      RefusalsAreCounted(cfg, actions[..|actions| - 1]);
      RefusalStep(cfg, Run(cfg, actions[..|actions| - 1]).value, actions[|actions| - 1]);
    }
  }

  lemma FlightsDoNotRefuse(cfg: Config, s: State, id: nat, m: FlightMove)
    requires id < |s.flights| && FlightEnabled(s, id, m)
    ensures AfterFlight(cfg, s, id, m).reqs == s.reqs && AfterFlight(cfg, s, id, m).refusals == s.refusals
  {
  }
}
