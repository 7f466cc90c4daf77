/**
 * What a refusal looks like in the run that led to it: when the request began to queue,
 * the inspection that saw another credential in flight, and the judgement right after it.
 */
module VerifierQueue {
  import opened Common
  import opened VerificationMemo
  import opened VerifierProtocol
  import opened VerifierInvariants

  /** Action `k` of the run is the move `m` of request `r`. */
  ghost predicate Acts(cfg: Config, actions: seq<Action>, k: nat, r: nat, m: RequestMove) {
    k < |actions| && actions[k] == RequestStep(r, m) && Run(cfg, actions[..k]).Some?
  }

  predicate IsOf(a: Action, r: nat) {
    a.RequestStep? && a.r == r
  }

  /** Request `r` does nothing between actions `k` and `j`. */
  predicate Quiet(actions: seq<Action>, r: nat, k: nat, j: nat)
    requires j <= |actions|
  {
    forall x :: k < x < j ==> !IsOf(actions[x], r)
  }

  predicate NeverBegan(actions: seq<Action>, r: nat) {
    forall x :: 0 <= x < |actions| ==> actions[x] != RequestStep(r, ReadClock)
  }

  /** Action `i` is the one and only time request `r` read the clock, and it read `started`. */
  ghost predicate Began(cfg: Config, actions: seq<Action>, r: nat, i: nat, started: nat) {
    && Acts(cfg, actions, i, r, ReadClock) && Run(cfg, actions[..i]).value.now == started
    && forall x :: 0 <= x < |actions| && actions[x] == RequestStep(r, ReadClock) ==> x == i
  }

  /** At action `k` request `r` inspected the gate and found flight `saw` in it, for another tag. */
  ghost predicate SawForeign(cfg: Config, actions: seq<Action>, r: nat, k: nat, saw: nat) {
    && Acts(cfg, actions, k, r, Inspect)
    && var s := Run(cfg, actions[..k]).value;
    && r < |s.reqs| && s.slot.InFlight? && s.slot.id == saw
    && !TagMatches(s.slot.tag, TagOf(cfg, s.reqs[r].cred))
  }

  /** It began to queue at `i` and last acted at `k`, when it saw a foreign flight. */
  ghost predicate Waited(cfg: Config, actions: seq<Action>, r: nat, started: nat, saw: nat, i: nat, k: nat, upTo: nat)
    requires upTo <= |actions|
  {
    && i < k < upTo && Began(cfg, actions, r, i, started)
    && SawForeign(cfg, actions, r, k, saw) && Quiet(actions, r, k, upTo)
  }

  /** It was judged at `j`, when the clock read `at`, with nothing of its own since it had waited. */
  ghost predicate Judged(cfg: Config, actions: seq<Action>, r: nat, started: nat, at: nat, saw: nat, i: nat, k: nat, j: nat) {
    && Acts(cfg, actions, j, r, Judge) && Run(cfg, actions[..j]).value.now == at
    && Waited(cfg, actions, r, started, saw, i, k, j)
  }

  ghost predicate HasBegun(cfg: Config, actions: seq<Action>, r: nat, started: nat) {
    exists i: nat :: Began(cfg, actions, r, i, started)
  }

  /** What the run shows about a request that stands at `pc`. */
  ghost predicate Trail(cfg: Config, actions: seq<Action>, r: nat, pc: Pc) {
    match pc
    case Arrived => NeverBegan(actions, r)
    case Missed => NeverBegan(actions, r)
    case Subscribed(_) => NeverBegan(actions, r)
    case AtGate(_, started) => HasBegun(cfg, actions, r, started)
    case Rechecking(_, started) => HasBegun(cfg, actions, r, started)
    case Parked(_, started, _, _) => HasBegun(cfg, actions, r, started)
    case Judging(_, started, saw) => exists i: nat, k: nat :: Waited(cfg, actions, r, started, saw, i, k, |actions|)
    case Done(v, why) =>
      v == Busy ==> why.Refused? && exists i: nat, k: nat, j: nat :: Judged(cfg, actions, r, why.started, why.at, why.saw, i, k, j)
    case _ => true
  }

  // --- a longer run shows what a shorter one did -------------------------------

  lemma ActsGrows(cfg: Config, actions: seq<Action>, a: Action, k: nat, r: nat, m: RequestMove)
    requires Acts(cfg, actions, k, r, m)
    ensures Acts(cfg, actions + [a], k, r, m) && (actions + [a])[..k] == actions[..k]
  {
    assert (actions + [a])[..k] == actions[..k];
  }

  lemma BeganGrows(cfg: Config, actions: seq<Action>, a: Action, r: nat, i: nat, started: nat)
    requires Began(cfg, actions, r, i, started) && a != RequestStep(r, ReadClock)
    ensures Began(cfg, actions + [a], r, i, started)
  {
    ActsGrows(cfg, actions, a, i, r, ReadClock);
  }

  lemma HasBegunGrows(cfg: Config, actions: seq<Action>, a: Action, r: nat, started: nat)
    requires HasBegun(cfg, actions, r, started) && a != RequestStep(r, ReadClock)
    ensures HasBegun(cfg, actions + [a], r, started)
  {
    var i: nat :| Began(cfg, actions, r, i, started);
    BeganGrows(cfg, actions, a, r, i, started);
  }

  lemma WaitedGrows(cfg: Config, actions: seq<Action>, a: Action, r: nat, started: nat, saw: nat, i: nat, k: nat, upTo: nat)
    requires upTo <= |actions| && Waited(cfg, actions, r, started, saw, i, k, upTo) && a != RequestStep(r, ReadClock)
    ensures Waited(cfg, actions + [a], r, started, saw, i, k, upTo)
  {
    BeganGrows(cfg, actions, a, r, i, started);
    ActsGrows(cfg, actions, a, k, r, Inspect);
  }

  lemma JudgedGrows(cfg: Config, actions: seq<Action>, a: Action, r: nat, started: nat, at: nat, saw: nat, i: nat, k: nat, j: nat)
    requires Judged(cfg, actions, r, started, at, saw, i, k, j) && a != RequestStep(r, ReadClock)
    ensures Judged(cfg, actions + [a], r, started, at, saw, i, k, j)
  {
    ActsGrows(cfg, actions, a, j, r, Judge);
    WaitedGrows(cfg, actions, a, r, started, saw, i, k, j);
  }

  /** Someone else acts. */
  lemma TrailGrows(cfg: Config, actions: seq<Action>, a: Action, r: nat, pc: Pc)
    requires Trail(cfg, actions, r, pc) && !IsOf(a, r)
    ensures Trail(cfg, actions + [a], r, pc)
  {
    match pc
    case AtGate(_, started) => HasBegunGrows(cfg, actions, a, r, started);
    case Rechecking(_, started) => HasBegunGrows(cfg, actions, a, r, started);
    case Parked(_, started, _, _) => HasBegunGrows(cfg, actions, a, r, started);
    case Judging(_, started, saw) =>
      var i: nat, k: nat :| Waited(cfg, actions, r, started, saw, i, k, |actions|);
      WaitedGrows(cfg, actions, a, r, started, saw, i, k, |actions|);
      assert Waited(cfg, actions + [a], r, started, saw, i, k, |actions + [a]|);
    case Done(v, why) =>
      if v == Busy { JudgedStays(cfg, actions, a, r, pc); }
    case _ =>
  }

  lemma JudgedStays(cfg: Config, actions: seq<Action>, a: Action, r: nat, pc: Pc)
    requires Trail(cfg, actions, r, pc) && pc.Done? && pc.verdict == Busy && !IsOf(a, r)
    ensures Trail(cfg, actions + [a], r, pc)
  {
    var why := pc.cause;
    var i: nat, k: nat, j: nat :| Judged(cfg, actions, r, why.started, why.at, why.saw, i, k, j);
    JudgedGrows(cfg, actions, a, r, why.started, why.at, why.saw, i, k, j);
  }

  // --- the request's own moves -----------------------------------------------

  lemma LastAction(cfg: Config, actions: seq<Action>, r: nat, m: RequestMove)
    requires Run(cfg, actions).Some?
    ensures Acts(cfg, actions + [RequestStep(r, m)], |actions|, r, m)
    ensures (actions + [RequestStep(r, m)])[..|actions|] == actions
  {
    assert (actions + [RequestStep(r, m)])[..|actions|] == actions;
  }

  lemma BeginsNow(cfg: Config, actions: seq<Action>, r: nat)
    requires Run(cfg, actions).Some? && NeverBegan(actions, r)
    ensures HasBegun(cfg, actions + [RequestStep(r, ReadClock)], r, Run(cfg, actions).value.now)
  {
    LastAction(cfg, actions, r, ReadClock);
    assert Began(cfg, actions + [RequestStep(r, ReadClock)], r, |actions|, Run(cfg, actions).value.now);
  }

  lemma SeesForeign(cfg: Config, actions: seq<Action>, r: nat, started: nat)
    requires Run(cfg, actions).Some? && HasBegun(cfg, actions, r, started)
    requires var s := Run(cfg, actions).value;
             r < |s.reqs| && s.slot.InFlight? && !TagMatches(s.slot.tag, TagOf(cfg, s.reqs[r].cred))
    ensures var after, saw := actions + [RequestStep(r, Inspect)], Run(cfg, actions).value.slot.id;
            exists i: nat, k: nat :: Waited(cfg, after, r, started, saw, i, k, |after|)
  {
    var a := RequestStep(r, Inspect);
    var i: nat :| Began(cfg, actions, r, i, started);
    BeganGrows(cfg, actions, a, r, i, started);
    LastAction(cfg, actions, r, Inspect);
    assert Waited(cfg, actions + [a], r, started, Run(cfg, actions).value.slot.id, i, |actions|, |actions + [a]|);
  }

  lemma IsJudged(cfg: Config, actions: seq<Action>, r: nat, pc: Pc)
    requires Run(cfg, actions).Some? && pc.Judging? && Trail(cfg, actions, r, pc)
    ensures var after, at := actions + [RequestStep(r, Judge)], Run(cfg, actions).value.now;
            && HasBegun(cfg, after, r, pc.started)
            && exists i: nat, k: nat, j: nat :: Judged(cfg, after, r, pc.started, at, pc.saw, i, k, j)
  {
    var a := RequestStep(r, Judge);
    var i: nat, k: nat :| Waited(cfg, actions, r, pc.started, pc.saw, i, k, |actions|);
    WaitedGrows(cfg, actions, a, r, pc.started, pc.saw, i, k, |actions|);
    LastAction(cfg, actions, r, Judge);
    assert Judged(cfg, actions + [a], r, pc.started, Run(cfg, actions).value.now, pc.saw, i, k, |actions|);
  }

  predicate Settled(pc: Pc) {
    pc.Done? && pc.verdict != Busy
  }

  /** Where each move takes a request, as far as its trail is concerned. */
  lemma WhereTo(cfg: Config, s: State, r: nat, m: RequestMove)
    requires r < |s.reqs| && RequestEnabled(s, r, m) && r < |AfterRequest(cfg, s, r, m).reqs|
    ensures var pc, to := s.reqs[r].pc, AfterRequest(cfg, s, r, m).reqs[r].pc;
            match m
            case FastLookup => to.Missed? || Settled(to)
            case Subscribe => to.Subscribed?
            case ReadClock => to == AtGate(pc.seen, s.now)
            case Inspect =>
              if s.slot.InFlight? && !TagMatches(s.slot.tag, TagOf(cfg, s.reqs[r].cred)) then to == Judging(pc.seen, pc.started, s.slot.id)
              else to.Reading? || to.Installing? || to == Rechecking(pc.seen, pc.started)
            case Recheck => to == pc || to.Installing? || Settled(to)
            case Judge =>
              if Since(s.now, pc.started) >= cfg.gateWait then to == Done(Busy, Refused(pc.started, s.now, pc.saw))
              else to.Parked? && to.started == pc.started
            case Wake => to == AtGate(s.freed, pc.started)
            case Timeout => to == AtGate(pc.seen, pc.started)
            case _ => to.Holding? || to.Joining? || to.Reading? || to.Watching? || to.Cancelled? || Settled(to)
  {
  }

  lemma SameRequests(cfg: Config, s: State, r: nat, m: RequestMove)
    requires r < |s.reqs| && RequestEnabled(s, r, m)
    ensures |AfterRequest(cfg, s, r, m).reqs| == |s.reqs|
  {
  }

  lemma OwnMove(cfg: Config, actions: seq<Action>, s: State, r: nat, m: RequestMove, to: Pc)
    requires Run(cfg, actions) == Some(s)
    requires r < |s.reqs| && RequestEnabled(s, r, m) && Trail(cfg, actions, r, s.reqs[r].pc)
    requires r < |AfterRequest(cfg, s, r, m).reqs| && to == AfterRequest(cfg, s, r, m).reqs[r].pc
    ensures Trail(cfg, actions + [RequestStep(r, m)], r, to)
  {
    var a, pc := RequestStep(r, m), s.reqs[r].pc;
    WhereTo(cfg, s, r, m);
    match m
    case ReadClock => BeginsNow(cfg, actions, r);
    case Inspect =>
      HasBegunGrows(cfg, actions, a, r, pc.started);
      if to.Judging? { SeesForeign(cfg, actions, r, pc.started); }
    case Recheck => HasBegunGrows(cfg, actions, a, r, pc.started);
    case Judge => IsJudged(cfg, actions, r, pc);
    case Wake => HasBegunGrows(cfg, actions, a, r, pc.started);
    case Timeout => HasBegunGrows(cfg, actions, a, r, pc.started);
    case _ =>
  }

  // --- every run -------------------------------------------------------------

  /** Only requests that have arrived act. */
  lemma {:induction false} ActorsHaveArrived(cfg: Config, actions: seq<Action>)
    requires Run(cfg, actions).Some?
    ensures forall x :: 0 <= x < |actions| && actions[x].RequestStep? ==> actions[x].r < |Run(cfg, actions).value.reqs|
  {
    if actions != [] {
      var before, a := actions[..|actions| - 1], actions[|actions| - 1];
      ActorsHaveArrived(cfg, before);
      NobodyLeaves(cfg, Run(cfg, before).value, a);
    }
  }

  lemma NobodyLeaves(cfg: Config, s: State, a: Action)
    requires Enabled(cfg, s, a)
    ensures |s.reqs| <= |Next(cfg, s, a).reqs| && (a.RequestStep? ==> a.r < |s.reqs|)
  {
  }

  lemma OthersStand(cfg: Config, s: State, a: Action, r: nat)
    requires Enabled(cfg, s, a) && !IsOf(a, r) && r < |s.reqs|
    ensures r < |Next(cfg, s, a).reqs| && Next(cfg, s, a).reqs[r] == s.reqs[r]
  {
  }

  lemma NewcomersHaveArrived(cfg: Config, s: State, a: Action, r: nat)
    requires Enabled(cfg, s, a) && |s.reqs| <= r < |Next(cfg, s, a).reqs|
    ensures a.Arrive? && Next(cfg, s, a).reqs[r].pc == Arrived
  {
  }

  lemma {:induction false} RunTrail(cfg: Config, actions: seq<Action>, r: nat)
    requires Run(cfg, actions).Some? && r < |Run(cfg, actions).value.reqs|
    ensures Trail(cfg, actions, r, Run(cfg, actions).value.reqs[r].pc)
  {
    var before, a := actions[..|actions| - 1], actions[|actions| - 1];
    assert before + [a] == actions;
    var s := Run(cfg, before).value;
    if r >= |s.reqs| {
      NewcomersHaveArrived(cfg, s, a, r);
      ActorsHaveArrived(cfg, before);
    } else {
      RunTrail(cfg, before, r);
      if IsOf(a, r) {
        SameRequests(cfg, s, r, a.request);
        OwnMove(cfg, before, s, r, a.request, AfterRequest(cfg, s, r, a.request).reqs[r].pc);
      } else {
        OthersStand(cfg, s, a, r);
        TrailGrows(cfg, before, a, r, s.reqs[r].pc);
      }
    }
  }

  lemma {:induction false} ClockNeverGoesBack(cfg: Config, actions: seq<Action>, k: nat)
    requires Run(cfg, actions).Some? && k <= |actions|
    ensures Run(cfg, actions[..k]).Some? && Run(cfg, actions[..k]).value.now <= Run(cfg, actions).value.now
  {
    if k == |actions| {
      assert actions[..k] == actions;
    } else {
      var before := actions[..|actions| - 1];
      ClockNeverGoesBack(cfg, before, k);
      assert before[..k] == actions[..k];
    }
  }

  /**
   * A refusal is honest, on the run itself. A request answered Busy read the clock once,
   * when it began to queue, and was judged at least the gate wait later; its last move
   * before the judgement was an inspection that found a flight in the slot for another
   * tag (with a key, for another credential).
   */
  lemma BusyIsHonest(cfg: Config, actions: seq<Action>, r: nat) returns (i: nat, k: nat, j: nat)
    requires WellFormed(cfg) && Run(cfg, actions).Some?
    requires r < |Run(cfg, actions).value.reqs| && Run(cfg, actions).value.reqs[r].pc.Done?
    requires Run(cfg, actions).value.reqs[r].pc.verdict == Busy
    ensures i < k < j < |actions|
    ensures Acts(cfg, actions, i, r, ReadClock) && Acts(cfg, actions, k, r, Inspect) && Acts(cfg, actions, j, r, Judge)
    ensures forall x :: 0 <= x < |actions| && actions[x] == RequestStep(r, ReadClock) ==> x == i
    ensures Quiet(actions, r, k, j)
    ensures var began, inspected, judged := Run(cfg, actions[..i]).value, Run(cfg, actions[..k]).value, Run(cfg, actions[..j]).value;
            && began.now + cfg.gateWait <= judged.now && inspected.now <= judged.now
            && r < |inspected.reqs| && inspected.slot.InFlight? && inspected.slot.id < |inspected.flights|
            && !TagMatches(inspected.slot.tag, TagOf(cfg, inspected.reqs[r].cred))
            && (cfg.keyed ==> inspected.flights[inspected.slot.id].cred != inspected.reqs[r].cred)
  {
    RunTrail(cfg, actions, r);
    RunKept(cfg, actions);
    var s := Run(cfg, actions).value;
    assert RequestOk(cfg, s, r);
    var why := s.reqs[r].pc.cause;
    i, k, j :| Judged(cfg, actions, r, why.started, why.at, why.saw, i, k, j);
    assert actions[..j][..k] == actions[..k];
    ClockNeverGoesBack(cfg, actions[..j], k);
    RunKept(cfg, actions[..k]);
    SlotIsAFlight(cfg, Run(cfg, actions[..k]).value);
  }

  lemma SlotIsAFlight(cfg: Config, s: State)
    requires Inv(cfg, s) && s.slot.InFlight?
    ensures s.slot.id < |s.flights| && s.slot.tag == TagOf(cfg, s.flights[s.slot.id].cred)
  {
    assert FlightOk(cfg, s, s.slot.id);
  }
}
