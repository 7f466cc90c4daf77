/** What every step of the verifier protocol keeps. */
module VerifierInvariants {
  import opened Common
  import opened VerificationMemo
  import opened VerifierProtocol
  import Framing
  import H = MemoHistory

  // --- tags and credentials --------------------------------------------------

  lemma SameTagSameCredential(cfg: Config, c: Credential, d: Credential)
    requires WellFormed(cfg) && c in cfg.creds && d in cfg.creds
    requires TagMatches(TagOf(cfg, c), TagOf(cfg, d))
    ensures c == d
  {
    assert MacInput(cfg, c) == MacInput(cfg, d);
    Framing.TagInputInjective(c.username, c.password, cfg.phc, d.username, d.password, cfg.phc);
  }

  /** `tag` is the tag of a presented credential on which the direct check answers `ok`. */
  ghost predicate Settles(cfg: Config, tag: Tag, ok: bool) {
    exists c :: c in cfg.creds && TagOf(cfg, c) == Some(tag) && Admits(cfg, c) == ok
  }

  lemma SettledVerdict(cfg: Config, c: Credential, tag: Tag, ok: bool)
    requires WellFormed(cfg) && c in cfg.creds && TagOf(cfg, c) == Some(tag)
    requires Settles(cfg, tag, ok)
    ensures Admits(cfg, c) == ok
  {
    var d :| d in cfg.creds && TagOf(cfg, d) == Some(tag) && Admits(cfg, d) == ok;
    SameTagSameCredential(cfg, c, d);
  }

  ghost predicate RingSound(cfg: Config, ring: seq<Entry>) {
    forall i :: 0 <= i < |ring| ==> Settles(cfg, ring[i].tag, false)
  }

  ghost predicate MemoSound(cfg: Config, m: MemoState) {
    && (m.positive.Some? ==> Settles(cfg, m.positive.value.tag, true))
    && RingSound(cfg, m.negative)
  }

  lemma {:induction false} RetainSound(cfg: Config, ring: seq<Entry>, now: nat)
    requires RingSound(cfg, ring)
    ensures RingSound(cfg, Retain(ring, now))
  {
    if ring != [] {
      RetainSound(cfg, ring[..|ring| - 1], now);
    }
  }

  lemma LookupSound(cfg: Config, m: MemoState, c: Credential, tag: Tag, now: nat)
    requires WellFormed(cfg) && MemoSound(cfg, m) && c in cfg.creds && TagOf(cfg, c) == Some(tag)
    ensures MemoSound(cfg, AfterLookup(m, tag, now))
    ensures Answer(m, tag, now) == Hit ==> Admits(cfg, c)
    ensures Answer(m, tag, now) == NegativeHit ==> !Admits(cfg, c)
  {
    RetainSound(cfg, m.negative, now);
    match Answer(m, tag, now)
    case Hit => SettledVerdict(cfg, c, tag, true);
    case NegativeHit => SettledVerdict(cfg, c, tag, false);
    case Miss =>
  }

  lemma StoreSound(cfg: Config, m: MemoState, tag: Tag, ok: bool, now: nat)
    requires MemoSound(cfg, m) && Settles(cfg, tag, ok)
    ensures MemoSound(cfg, AfterStore(m, tag, ok, now))
  {
    RetainSound(cfg, m.negative, now);
  }

  // --- the invariant ---------------------------------------------------------

  /** A flight: its guard is live exactly while the slot carries its id. */
  ghost predicate FlightOk(cfg: Config, s: State, i: nat)
    requires i < |s.flights|
  {
    var f := s.flights[i];
    && f.cred in cfg.creds && f.tag == TagOf(cfg, f.cred)
    && (f.guard.Held? <==> s.slot == InFlight(i, f.tag))
    && (!f.phase.Ended? ==> f.guard.Held? && f.sender)
    && f.owner < |s.reqs| && (f.phase.Handed? <==> s.reqs[f.owner].pc == Holding(i))
    && (f.phase.Computed? || f.phase.Warm? ==> f.phase.ok == Admits(cfg, f.cred))
    && (f.phase.Ended? && f.phase.outcome.Some? ==> f.phase.outcome.value == Admits(cfg, f.cred))
    && f.value == (if f.phase.Ended? then f.phase.outcome else None)
  }

  /** A request that looked at flight `saw` and found another tag. */
  ghost predicate SawAnother(cfg: Config, s: State, c: Credential, saw: nat) {
    saw < |s.flights| && !TagMatches(s.flights[saw].tag, TagOf(cfg, c))
  }

  ghost predicate DoneOk(cfg: Config, s: State, c: Credential, v: Verdict, why: Cause) {
    match v
    case Allow => Admits(cfg, c)
    case Deny =>
      || !Admits(cfg, c)
      || (why.FromFlight? && why.id < |s.flights| && s.flights[why.id].cred == c && s.flights[why.id].phase == Ended(None))
    case Busy =>
      why.Refused? && why.started + cfg.gateWait <= why.at <= s.now && SawAnother(cfg, s, c, why.saw)
  }

  /** What a request that stands at `pc` may rely on. */
  ghost predicate PcOk(cfg: Config, s: State, r: nat, c: Credential, pc: Pc) {
    match pc
    case Subscribed(seen) => seen <= s.freed
    case AtGate(seen, started) => seen <= s.freed && started <= s.now
    case Rechecking(seen, started) => cfg.keyed && s.slot.Free?
    case Installing(_) => s.slot.Free?
    case Holding(id) => id < |s.flights| && s.flights[id].cred == c && s.flights[id].owner == r && s.flights[id].phase.Handed?
    case Joining(id) => id < |s.flights| && s.flights[id].cred == c && s.flights[id].owner == r
    case Reading(id) => cfg.keyed && id < |s.flights| && s.flights[id].cred == c
    case Watching(id) => cfg.keyed && id < |s.flights| && s.flights[id].cred == c
    case Judging(seen, started, saw) =>
      started <= s.now && SawAnother(cfg, s, c, saw) && Wakeable(s, seen, saw)
    case Parked(seen, started, saw, deadline) =>
      started <= s.now && SawAnother(cfg, s, c, saw) && Wakeable(s, seen, saw) && deadline == started + cfg.gateWait
    case Done(v, why) => DoneOk(cfg, s, c, v, why)
    case _ => true
  }

  /** No lost wakeup: without an unseen announcement the flight it saw has yet to make one. */
  ghost predicate Wakeable(s: State, seen: nat, saw: nat)
    requires saw < |s.flights|
  {
    seen <= s.freed && (seen == s.freed ==> !s.flights[saw].guard.Dropped?)
  }

  ghost predicate RequestOk(cfg: Config, s: State, r: nat)
    requires r < |s.reqs|
  {
    s.reqs[r].cred in cfg.creds && PcOk(cfg, s, r, s.reqs[r].cred, s.reqs[r].pc)
  }

  predicate Locking(pc: Pc) {
    pc.Rechecking? || pc.Installing?
  }

  ghost predicate LockOk(s: State) {
    && (s.lock.Some? ==> s.lock.value < |s.reqs| && Locking(s.reqs[s.lock.value].pc))
    && (forall r: nat :: r < |s.reqs| && Locking(s.reqs[r].pc) ==> s.lock == Some(r))
  }

  /** The slot carries the newest flight, whose guard is live. */
  ghost predicate SlotOk(s: State) {
    s.slot.InFlight? ==> s.slot.id + 1 == |s.flights| && s.flights[s.slot.id].guard.Held? && s.flights[s.slot.id].tag == s.slot.tag
  }

  ghost predicate Inv(cfg: Config, s: State) {
    && MemoSound(cfg, s.memo)
    && LockOk(s)
    && SlotOk(s)
    && (forall i: nat :: i < |s.flights| ==> FlightOk(cfg, s, i))
    && (forall r: nat :: r < |s.reqs| ==> RequestOk(cfg, s, r))
  }

  // --- frames ----------------------------------------------------------------

  /** A request moves and nothing else of the gate changes. */
  lemma MoveKept(cfg: Config, s: State, r: nat, pc: Pc)
    requires Inv(cfg, s) && r < |s.reqs|
    requires !s.reqs[r].pc.Holding? && !Locking(s.reqs[r].pc)
    requires !pc.Holding? && !Locking(pc)
    requires PcOk(cfg, s, r, s.reqs[r].cred, pc)
    ensures Inv(cfg, At(s, r, pc))
  {
    var t := At(s, r, pc);
    forall i: nat | i < |t.flights| ensures FlightOk(cfg, t, i) {
      assert FlightOk(cfg, s, i);
    }
    forall q: nat | q < |t.reqs| ensures RequestOk(cfg, t, q) {
      assert RequestOk(cfg, s, q);
    }
  }

  /** Time passes, the memo changes soundly, a refusal is counted. */
  lemma SurroundingsKept(cfg: Config, s: State, t: State)
    requires Inv(cfg, s) && MemoSound(cfg, t.memo) && s.now <= t.now
    requires t == s.(now := t.now, memo := t.memo, hist := t.hist, refusals := t.refusals)
    ensures Inv(cfg, t)
  {
    forall i: nat | i < |t.flights| ensures FlightOk(cfg, t, i) {
      assert FlightOk(cfg, s, i);
    }
    forall q: nat | q < |t.reqs| ensures RequestOk(cfg, t, q) {
      assert RequestOk(cfg, s, q);
    }
  }

  lemma ArriveKept(cfg: Config, s: State, c: Credential)
    requires Inv(cfg, s) && c in cfg.creds
    ensures Inv(cfg, s.(reqs := s.reqs + [Request(c, Arrived)]))
  {
    var t := s.(reqs := s.reqs + [Request(c, Arrived)]);
    forall i: nat | i < |t.flights| ensures FlightOk(cfg, t, i) {
      assert FlightOk(cfg, s, i);
    }
    forall q: nat | q < |t.reqs| ensures RequestOk(cfg, t, q) {
      if q < |s.reqs| { assert RequestOk(cfg, s, q); }
    }
  }

  // --- the moves of a request ------------------------------------------------

  lemma FastLookupKept(cfg: Config, s: State, r: nat)
    requires WellFormed(cfg) && Inv(cfg, s) && r < |s.reqs| && RequestEnabled(s, r, FastLookup)
    ensures Inv(cfg, AfterRequest(cfg, s, r, FastLookup))
  {
    var c := s.reqs[r].cred;
    var tag := TagOf(cfg, c);
    assert RequestOk(cfg, s, r);
    if tag.None? {
      MoveKept(cfg, s, r, Missed);
    } else {
      var t := Looked(s, tag.value);
      LookupSound(cfg, s.memo, c, tag.value, s.now);
      SurroundingsKept(cfg, s, t);
      match Answer(s.memo, tag.value, s.now)
      case Hit => MoveKept(cfg, t, r, Done(Allow, FromMemo));
      case NegativeHit => MoveKept(cfg, t, r, Done(Deny, FromMemo));
      case Miss => MoveKept(cfg, t, r, Missed);
    }
  }

  /** Taking or giving back the slot lock along with the request's move. */
  lemma LockMoveKept(cfg: Config, s: State, r: nat, pc: Pc, lock: Option<nat>)
    requires Inv(cfg, s) && r < |s.reqs|
    requires s.lock == Some(r) || (s.lock.None? && !Locking(s.reqs[r].pc))
    requires lock == if Locking(pc) then Some(r) else None
    requires !s.reqs[r].pc.Holding? && !pc.Holding?
    requires PcOk(cfg, s, r, s.reqs[r].cred, pc)
    ensures Inv(cfg, At(s, r, pc).(lock := lock))
  {
    var t := At(s, r, pc).(lock := lock);
    forall i: nat | i < |t.flights| ensures FlightOk(cfg, t, i) {
      assert FlightOk(cfg, s, i);
    }
    forall q: nat | q < |t.reqs| ensures RequestOk(cfg, t, q) {
      assert RequestOk(cfg, s, q);
    }
  }

  lemma InspectKept(cfg: Config, s: State, r: nat)
    requires WellFormed(cfg) && Inv(cfg, s) && r < |s.reqs| && RequestEnabled(s, r, Inspect)
    ensures Inv(cfg, AfterInspect(cfg, s, r))
  {
    var c, pc := s.reqs[r].cred, s.reqs[r].pc;
    assert RequestOk(cfg, s, r);
    match s.slot
    case InFlight(id, tag) =>
      assert FlightOk(cfg, s, id);
      if TagMatches(tag, TagOf(cfg, c)) {
        SameTagSameCredential(cfg, s.flights[id].cred, c);
        MoveKept(cfg, s, r, Reading(id));
      } else {
        MoveKept(cfg, s, r, Judging(pc.seen, pc.started, id));
      }
    case Free =>
      LockMoveKept(cfg, s, r, if cfg.keyed then Rechecking(pc.seen, pc.started) else Installing(|s.hist|), Some(r));
  }

  lemma RecheckKept(cfg: Config, s: State, r: nat)
    requires WellFormed(cfg) && Inv(cfg, s) && r < |s.reqs| && RequestEnabled(s, r, Recheck)
    ensures Inv(cfg, AfterRequest(cfg, s, r, Recheck))
  {
    var c := s.reqs[r].cred;
    assert RequestOk(cfg, s, r);
    var tag := TagOf(cfg, c).value;
    var t := Looked(s, tag);
    LookupSound(cfg, s.memo, c, tag, s.now);
    SurroundingsKept(cfg, s, t);
    match Answer(s.memo, tag, s.now)
    case Hit => LockMoveKept(cfg, t, r, Done(Allow, FromMemo), None);
    case NegativeHit => LockMoveKept(cfg, t, r, Done(Deny, FromMemo), None);
    case Miss => LockMoveKept(cfg, t, r, Installing(|s.hist|), Some(r));
  }

  lemma InstallKept(cfg: Config, s: State, r: nat)
    requires Inv(cfg, s) && r < |s.reqs| && RequestEnabled(s, r, Install)
    ensures Inv(cfg, AfterInstall(cfg, s, r))
  {
    var t := AfterInstall(cfg, s, r);
    assert RequestOk(cfg, s, r);
    forall i: nat | i < |t.flights| ensures FlightOk(cfg, t, i) {
      if i < |s.flights| { assert FlightOk(cfg, s, i); }
    }
    forall q: nat | q < |t.reqs| ensures RequestOk(cfg, t, q) {
      assert RequestOk(cfg, s, q);
    }
  }

  lemma SpawnKept(cfg: Config, s: State, r: nat)
    requires Inv(cfg, s) && r < |s.reqs| && RequestEnabled(s, r, Spawn)
    ensures Inv(cfg, AfterRequest(cfg, s, r, Spawn))
  {
    var t := AfterRequest(cfg, s, r, Spawn);
    assert RequestOk(cfg, s, r);
    assert FlightOk(cfg, s, s.reqs[r].pc.id);
    forall i: nat | i < |t.flights| ensures FlightOk(cfg, t, i) {
      assert FlightOk(cfg, s, i);
    }
    forall q: nat | q < |t.reqs| ensures RequestOk(cfg, t, q) {
      assert RequestOk(cfg, s, q);
    }
  }

  lemma JudgeKept(cfg: Config, s: State, r: nat)
    requires Inv(cfg, s) && r < |s.reqs| && RequestEnabled(s, r, Judge)
    ensures Inv(cfg, AfterRequest(cfg, s, r, Judge))
  {
    var pc := s.reqs[r].pc;
    assert RequestOk(cfg, s, r);
    if Since(s.now, pc.started) >= cfg.gateWait {
      var t := At(s, r, Done(Busy, Refused(pc.started, s.now, pc.saw)));
      MoveKept(cfg, s, r, Done(Busy, Refused(pc.started, s.now, pc.saw)));
      SurroundingsKept(cfg, t, t.(refusals := s.refusals + 1));
    } else {
      MoveKept(cfg, s, r, Parked(pc.seen, pc.started, pc.saw, s.now + (cfg.gateWait - Since(s.now, pc.started))));
    }
  }

  lemma OutcomeKept(cfg: Config, s: State, r: nat, m: RequestMove)
    requires Inv(cfg, s) && r < |s.reqs| && RequestEnabled(s, r, m)
    requires m.ReadOutcome? || m.WatchOutcome? || m.Join?
    ensures Inv(cfg, AfterRequest(cfg, s, r, m))
  {
    var c, pc := s.reqs[r].cred, s.reqs[r].pc;
    assert RequestOk(cfg, s, r);
    assert FlightOk(cfg, s, pc.id);
    var f := s.flights[pc.id];
    if m.ReadOutcome? {
      MoveKept(cfg, s, r, if f.value.Some? then Done(Answered(f.value.value), FromFlight(pc.id)) else Watching(pc.id));
    } else if m.WatchOutcome? {
      MoveKept(cfg, s, r, if f.value.Some? then Reading(pc.id) else Done(Deny, FromFlight(pc.id)));
    } else {
      var o := f.phase.outcome;
      MoveKept(cfg, s, r, Done(if o.Some? then Answered(o.value) else Deny, FromFlight(pc.id)));
    }
  }

  lemma RequestKept(cfg: Config, s: State, r: nat, m: RequestMove)
    requires WellFormed(cfg) && Inv(cfg, s) && r < |s.reqs| && RequestEnabled(s, r, m)
    ensures Inv(cfg, AfterRequest(cfg, s, r, m))
  {
    var pc := s.reqs[r].pc;
    assert RequestOk(cfg, s, r);
    match m
    case FastLookup => FastLookupKept(cfg, s, r);
    case Subscribe => MoveKept(cfg, s, r, Subscribed(s.freed));
    case ReadClock => MoveKept(cfg, s, r, AtGate(pc.seen, s.now));
    case Inspect => InspectKept(cfg, s, r);
    case Recheck => RecheckKept(cfg, s, r);
    case Install => InstallKept(cfg, s, r);
    case Spawn => SpawnKept(cfg, s, r);
    case Judge => JudgeKept(cfg, s, r);
    case Wake => MoveKept(cfg, s, r, AtGate(s.freed, pc.started));
    case Timeout => MoveKept(cfg, s, r, AtGate(pc.seen, pc.started));
    case ReadOutcome => OutcomeKept(cfg, s, r, m);
    case WatchOutcome => OutcomeKept(cfg, s, r, m);
    case Join => OutcomeKept(cfg, s, r, m);
    case Cancel => MoveKept(cfg, s, r, Cancelled);
  }

  // --- the moves of a flight -------------------------------------------------

  /** A flight moves on while its guard and its place in the slot stay. */
  lemma ProgressKept(cfg: Config, s: State, id: nat, f: Flight)
    requires Inv(cfg, s) && id < |s.flights|
    requires f == s.flights[id].(phase := f.phase, value := f.value, stored := f.stored, sender := f.sender)
    requires FlightOk(cfg, With(s, id, f), id)
    requires s.flights[id].phase.Ended? ==> f.phase == s.flights[id].phase
    requires !s.flights[id].phase.Handed?
    ensures Inv(cfg, With(s, id, f))
  {
    var t := With(s, id, f);
    forall i: nat | i < |t.flights| ensures FlightOk(cfg, t, i) {
      assert FlightOk(cfg, s, i);
    }
    forall q: nat | q < |t.reqs| ensures RequestOk(cfg, t, q) {
      assert RequestOk(cfg, s, q);
    }
  }

  lemma ClearSlotKept(cfg: Config, s: State, id: nat)
    requires Inv(cfg, s) && id < |s.flights| && FlightEnabled(s, id, ClearSlot)
    ensures Inv(cfg, AfterFlight(cfg, s, id, ClearSlot))
  {
    var t := AfterFlight(cfg, s, id, ClearSlot);
    assert FlightOk(cfg, s, id);
    forall i: nat | i < |t.flights| ensures FlightOk(cfg, t, i) {
      assert FlightOk(cfg, s, i);
    }
    forall q: nat | q < |t.reqs| ensures RequestOk(cfg, t, q) {
      assert RequestOk(cfg, s, q);
    }
  }

  lemma AnnounceKept(cfg: Config, s: State, id: nat)
    requires Inv(cfg, s) && id < |s.flights| && FlightEnabled(s, id, Announce)
    ensures Inv(cfg, AfterFlight(cfg, s, id, Announce))
  {
    var t := AfterFlight(cfg, s, id, Announce);
    assert FlightOk(cfg, s, id);
    forall i: nat | i < |t.flights| ensures FlightOk(cfg, t, i) {
      assert FlightOk(cfg, s, i);
    }
    forall q: nat | q < |t.reqs| ensures RequestOk(cfg, t, q) {
      assert RequestOk(cfg, s, q);
    }
  }

  lemma StoreVerdictKept(cfg: Config, s: State, id: nat)
    requires WellFormed(cfg) && Inv(cfg, s) && id < |s.flights| && FlightEnabled(s, id, StoreVerdict)
    ensures Inv(cfg, AfterFlight(cfg, s, id, StoreVerdict))
  {
    var f := s.flights[id];
    assert FlightOk(cfg, s, id);
    if f.tag.None? {
      ProgressKept(cfg, s, id, f.(phase := Warm(f.phase.ok)));
    } else {
      var t := With(s, id, f.(phase := Warm(f.phase.ok), stored := Some(|s.hist|)));
      ProgressKept(cfg, s, id, f.(phase := Warm(f.phase.ok), stored := Some(|s.hist|)));
      StoreSound(cfg, s.memo, f.tag.value, f.phase.ok, s.now);
      SurroundingsKept(cfg, t, AfterFlight(cfg, s, id, StoreVerdict));
    }
  }

  lemma FlightKept(cfg: Config, s: State, id: nat, m: FlightMove)
    requires WellFormed(cfg) && Inv(cfg, s) && id < |s.flights| && FlightEnabled(s, id, m)
    ensures Inv(cfg, AfterFlight(cfg, s, id, m))
  {
    var f := s.flights[id];
    assert FlightOk(cfg, s, id);
    match m
    case StartKdf => ProgressKept(cfg, s, id, f.(phase := Computing));
    case FinishKdf => ProgressKept(cfg, s, id, f.(phase := Computed(Computes(cfg, f.cred))));
    case Die => ProgressKept(cfg, s, id, f.(phase := Ended(None)));
    case StoreVerdict => StoreVerdictKept(cfg, s, id);
    case Publish => ProgressKept(cfg, s, id, f.(phase := Ended(Some(f.phase.ok)), value := Some(f.phase.ok)));
    case ClearSlot => ClearSlotKept(cfg, s, id);
    case Announce => AnnounceKept(cfg, s, id);
    case DropSender => ProgressKept(cfg, s, id, f.(sender := false));
  }

  lemma StepKept(cfg: Config, s: State, a: Action)
    requires WellFormed(cfg) && Inv(cfg, s) && Enabled(cfg, s, a)
    ensures Inv(cfg, Next(cfg, s, a))
  {
    match a
    case Tick(dt) => SurroundingsKept(cfg, s, s.(now := s.now + dt));
    case Arrive(c) => ArriveKept(cfg, s, c);
    case RequestStep(r, m) => RequestKept(cfg, s, r, m);
    case FlightStep(id, m) => FlightKept(cfg, s, id, m);
  }

  /** Every state of every run satisfies the invariant. */
  lemma {:induction false} RunKept(cfg: Config, actions: seq<Action>)
    requires WellFormed(cfg) && Run(cfg, actions).Some?
    ensures Inv(cfg, Run(cfg, actions).value)
  {
    if actions != [] {
      var before := actions[..|actions| - 1];
      RunKept(cfg, before);
      StepKept(cfg, Run(cfg, before).value, actions[|actions| - 1]);
    }
  }
}
