/**
 * The credential verifier as a concurrent protocol: requests that look up, queue,
 * claim, join or wait; flights (one per claimed gate) whose KDF task outlives the
 * request that spawned it; a lock around the gate slot; two watch channels; a clock.
 * A run is any sequence of enabled actions, so every interleaving is a run.
 */
module VerifierProtocol {
  import opened Common
  import opened VerificationMemo
  import Framing
  import H = MemoHistory

  datatype Credential = Credential(username: Bytes, password: Bytes)

  /**
   * One verifier. `kdf` is a pure function (the task running it may also die), `mac`
   * is the keyed MAC and `digest` the username digest. `creds` are the credentials
   * that requests may present.
   */
  datatype Config = Config(
    username: Bytes, phc: Bytes, hashUsable: bool, keyed: bool, gateWait: nat,
    creds: set<Credential>, mac: Bytes -> Tag, digest: Bytes -> Bytes, kdf: (Bytes, Bytes) -> bool)

  /** The direct check the protocol speeds up. */
  predicate Admits(cfg: Config, c: Credential) {
    c.username == cfg.username && cfg.kdf(c.password, cfg.phc) && cfg.hashUsable
  }

  function MacInput(cfg: Config, c: Credential): Bytes {
    Framing.TagInput(c.username, c.password, cfg.phc)
  }

  function TagOf(cfg: Config, c: Credential): Option<Tag> {
    if cfg.keyed then Some(cfg.mac(MacInput(cfg, c))) else None
  }

  /** Fields are addressable, and MAC and digest do not collide on what is presented. */
  ghost predicate WellFormed(cfg: Config) {
    && |cfg.phc| < U64_BOUND
    && (forall c :: c in cfg.creds ==> |c.username| < U64_BOUND && |c.password| < U64_BOUND)
    && (forall c, d :: c in cfg.creds && d in cfg.creds && cfg.mac(MacInput(cfg, c)) == cfg.mac(MacInput(cfg, d)) ==>
          MacInput(cfg, c) == MacInput(cfg, d))
    && (forall c :: c in cfg.creds && cfg.digest(c.username) == cfg.digest(cfg.username) ==> c.username == cfg.username)
  }

  /** What the KDF task computes: the username is compared by digest, after the KDF. */
  predicate Computes(cfg: Config, c: Credential) {
    cfg.digest(c.username) == cfg.digest(cfg.username) && cfg.kdf(c.password, cfg.phc) && cfg.hashUsable
  }

  // --- state -----------------------------------------------------------------

  datatype Verdict = Allow | Deny | Busy

  datatype Cause =
    | FromMemo
    | FromFlight(id: nat)
    | Refused(started: nat, at: nat, saw: nat)

  /** Where a request stands in `check`. */
  datatype Pc =
    | Arrived
    | Missed
    | Subscribed(seen: nat)
    | AtGate(seen: nat, started: nat)
    | Rechecking(seen: nat, started: nat)
    | Installing(recheck: nat)
    | Holding(id: nat)
    | Joining(id: nat)
    | Reading(id: nat)
    | Watching(id: nat)
    | Judging(seen: nat, started: nat, saw: nat)
    | Parked(seen: nat, started: nat, saw: nat, deadline: nat)
    | Done(verdict: Verdict, cause: Cause)
    | Cancelled

  datatype Request = Request(cred: Credential, pc: Pc)

  /** Where a flight's blocking task stands; `Ended(None)` is a task that died. */
  datatype Phase =
    | Handed
    | Queued
    | Computing
    | Computed(ok: bool)
    | Warm(ok: bool)
    | Ended(outcome: Option<bool>)

  /** The drop guard: `Cleared` is between clearing the slot and announcing it. */
  datatype Guard = Held | Cleared | Dropped

  /**
   * One claim of the gate. `recheck` is the history index of the memo lookup made
   * under the slot lock, `stored` that of the verdict it stored. `sender` and `value`
   * are the two ends of its watch channel.
   */
  datatype Flight = Flight(
    owner: nat, cred: Credential, tag: Option<Tag>, recheck: nat,
    phase: Phase, guard: Guard, sender: bool, value: Option<bool>, stored: Option<nat>)

  datatype Slot = Free | InFlight(id: nat, tag: Option<Tag>)

  datatype State = State(
    now: nat, lock: Option<nat>, slot: Slot, memo: MemoState, hist: H.History,
    freed: nat, refusals: nat, flights: seq<Flight>, reqs: seq<Request>)

  const INITIAL := State(0, None, Free, EMPTY, [], 0, 0, [], [])

  predicate TagMatches(a: Option<Tag>, b: Option<Tag>) {
    a.Some? && b.Some? && a.value == b.value
  }

  // --- moves -----------------------------------------------------------------

  datatype RequestMove =
    | FastLookup | Subscribe | ReadClock
    | Inspect | Recheck | Install | Spawn
    | Judge | Wake | Timeout
    | ReadOutcome | WatchOutcome | Join | Cancel

  datatype FlightMove =
    | StartKdf | FinishKdf | Die | StoreVerdict | Publish
    | ClearSlot | Announce | DropSender

  datatype Action =
    | Tick(dt: nat)
    | Arrive(cred: Credential)
    | RequestStep(r: nat, request: RequestMove)
    | FlightStep(id: nat, flight: FlightMove)

  predicate RequestEnabled(s: State, r: nat, m: RequestMove)
    requires r < |s.reqs|
  {
    var pc := s.reqs[r].pc;
    match m
    case FastLookup => pc.Arrived?
    case Subscribe => pc.Missed?
    case ReadClock => pc.Subscribed?
    case Inspect => pc.AtGate? && s.lock.None?
    case Recheck => pc.Rechecking?
    case Install => pc.Installing?
    case Spawn => pc.Holding? && pc.id < |s.flights|
    case Judge => pc.Judging?
    case Wake => pc.Parked? && pc.seen != s.freed
    case Timeout => pc.Parked? && pc.deadline <= s.now
    case ReadOutcome => pc.Reading? && pc.id < |s.flights|
    case WatchOutcome => pc.Watching? && pc.id < |s.flights| && (s.flights[pc.id].value.Some? || !s.flights[pc.id].sender)
    case Join => pc.Joining? && pc.id < |s.flights| && Joinable(s.flights[pc.id])
    case Cancel => pc.Arrived? || pc.Joining? || pc.Watching? || pc.Parked?
  }

  /** The blocking task and everything its closure owned are gone. */
  predicate Joinable(f: Flight) {
    f.phase.Ended? && f.guard.Dropped? && !f.sender
  }

  predicate FlightEnabled(s: State, id: nat, m: FlightMove)
    requires id < |s.flights|
  {
    var f := s.flights[id];
    match m
    case StartKdf => f.phase.Queued?
    case FinishKdf => f.phase.Computing?
    case Die => f.phase.Queued? || f.phase.Computing?
    case StoreVerdict => f.phase.Computed?
    case Publish => f.phase.Warm?
    case ClearSlot => f.phase.Ended? && f.guard.Held? && s.lock.None?
    case Announce => f.guard.Cleared?
    case DropSender => f.phase.Ended? && f.sender
  }

  predicate Enabled(cfg: Config, s: State, a: Action) {
    match a
    case Tick(_) => true
    case Arrive(c) => c in cfg.creds
    case RequestStep(r, m) => r < |s.reqs| && RequestEnabled(s, r, m)
    case FlightStep(id, m) => id < |s.flights| && FlightEnabled(s, id, m)
  }

  function At(s: State, r: nat, pc: Pc): State
    requires r < |s.reqs|
  {
    s.(reqs := s.reqs[r := s.reqs[r].(pc := pc)])
  }

  function Looked(s: State, tag: Tag): State {
    s.(memo := AfterLookup(s.memo, tag, s.now), hist := s.hist + [H.Looked(tag, s.now)])
  }

  function Answered(ok: bool): Verdict {
    if ok then Allow else Deny
  }

  /** The slot lock is taken and the slot read; a free gate keeps the lock for the recheck. */
  function AfterInspect(cfg: Config, s: State, r: nat): State
    requires r < |s.reqs| && s.reqs[r].pc.AtGate?
  {
    var pc := s.reqs[r].pc;
    match s.slot
    case InFlight(id, tag) =>
      if TagMatches(tag, TagOf(cfg, s.reqs[r].cred)) then At(s, r, Reading(id))
      else At(s, r, Judging(pc.seen, pc.started, id))
    case Free =>
      At(s, r, if cfg.keyed then Rechecking(pc.seen, pc.started) else Installing(|s.hist|)).(lock := Some(r))
  }

  function AfterRecheck(s: State, r: nat, tag: Tag): State
    requires r < |s.reqs|
  {
    var t := Looked(s, tag);
    match Answer(s.memo, tag, s.now)
    case Hit => At(t, r, Done(Allow, FromMemo)).(lock := None)
    case NegativeHit => At(t, r, Done(Deny, FromMemo)).(lock := None)
    case Miss => At(t, r, Installing(|s.hist|))
  }

  /** Claiming the gate and publishing the tag are one act under the lock. */
  function AfterInstall(cfg: Config, s: State, r: nat): State
    requires r < |s.reqs| && s.reqs[r].pc.Installing?
  {
    var id, c := |s.flights|, s.reqs[r].cred;
    At(s, r, Holding(id)).(
      slot := InFlight(id, TagOf(cfg, c)),
      lock := None,
      flights := s.flights + [Flight(r, c, TagOf(cfg, c), s.reqs[r].pc.recheck, Handed, Held, true, None, None)])
  }

  function AfterRequest(cfg: Config, s: State, r: nat, m: RequestMove): State
    requires r < |s.reqs| && RequestEnabled(s, r, m)
  {
    var pc, tag := s.reqs[r].pc, TagOf(cfg, s.reqs[r].cred);
    match m
    case FastLookup =>
      if tag.None? then At(s, r, Missed)
      else
        At(Looked(s, tag.value), r,
           match Answer(s.memo, tag.value, s.now)
           case Hit => Done(Allow, FromMemo)
           case NegativeHit => Done(Deny, FromMemo)
           case Miss => Missed)
    case Subscribe => At(s, r, Subscribed(s.freed))
    case ReadClock => At(s, r, AtGate(pc.seen, s.now))
    case Inspect => AfterInspect(cfg, s, r)
    case Recheck => if tag.None? then s else AfterRecheck(s, r, tag.value)
    case Install => AfterInstall(cfg, s, r)
    case Spawn => At(s, r, Joining(pc.id)).(flights := s.flights[pc.id := s.flights[pc.id].(phase := Queued)])
    case Judge =>
      if Since(s.now, pc.started) >= cfg.gateWait then
        At(s, r, Done(Busy, Refused(pc.started, s.now, pc.saw))).(refusals := s.refusals + 1)
      else
        At(s, r, Parked(pc.seen, pc.started, pc.saw, s.now + (cfg.gateWait - Since(s.now, pc.started))))
    case Wake => At(s, r, AtGate(s.freed, pc.started))
    case Timeout => At(s, r, AtGate(pc.seen, pc.started))
    case ReadOutcome =>
      var v := s.flights[pc.id].value;
      At(s, r, if v.Some? then Done(Answered(v.value), FromFlight(pc.id)) else Watching(pc.id))
    case WatchOutcome =>
      At(s, r, if s.flights[pc.id].value.Some? then Reading(pc.id) else Done(Deny, FromFlight(pc.id)))
    case Join =>
      var o := s.flights[pc.id].phase.outcome;
      At(s, r, Done(if o.Some? then Answered(o.value) else Deny, FromFlight(pc.id)))
    case Cancel => At(s, r, Cancelled)
  }

  /** Someone still holds a receiver of the flight's verdict channel. */
  predicate HasReceiver(s: State, id: nat) {
    || (s.slot.InFlight? && s.slot.id == id)
    || exists r :: 0 <= r < |s.reqs| && (s.reqs[r].pc == Reading(id) || s.reqs[r].pc == Watching(id))
  }

  function With(s: State, id: nat, f: Flight): State
    requires id < |s.flights|
  {
    s.(flights := s.flights[id := f])
  }

  function AfterFlight(cfg: Config, s: State, id: nat, m: FlightMove): State
    requires id < |s.flights| && FlightEnabled(s, id, m)
  {
    var f := s.flights[id];
    match m
    case StartKdf => With(s, id, f.(phase := Computing))
    case FinishKdf => With(s, id, f.(phase := Computed(Computes(cfg, f.cred))))
    case Die => With(s, id, f.(phase := Ended(None)))
    case StoreVerdict =>
      if f.tag.None? then With(s, id, f.(phase := Warm(f.phase.ok)))
      else
        With(s, id, f.(phase := Warm(f.phase.ok), stored := Some(|s.hist|))).(
          memo := AfterStore(s.memo, f.tag.value, f.phase.ok, s.now),
          hist := s.hist + [H.Stored(f.tag.value, f.phase.ok, s.now)])
    case Publish =>
      // A watch send without any receiver leaves the value as it was.
      With(s, id, f.(phase := Ended(Some(f.phase.ok)), value := if HasReceiver(s, id) then Some(f.phase.ok) else f.value))
    case ClearSlot =>
      if s.slot.InFlight? && s.slot.id == id then With(s, id, f.(guard := Cleared)).(slot := Free)
      else With(s, id, f.(guard := Dropped))
    case Announce => With(s, id, f.(guard := Dropped)).(freed := s.freed + 1)
    case DropSender => With(s, id, f.(sender := false))
  }

  function Next(cfg: Config, s: State, a: Action): State
    requires Enabled(cfg, s, a)
  {
    match a
    case Tick(dt) => s.(now := s.now + dt)
    case Arrive(c) => s.(reqs := s.reqs + [Request(c, Arrived)])
    case RequestStep(r, m) => AfterRequest(cfg, s, r, m)
    case FlightStep(id, m) => AfterFlight(cfg, s, id, m)
  }

  /** The state a run ends in, or `None` if some action was not enabled. */
  function Run(cfg: Config, actions: seq<Action>): Option<State> {
    if actions == [] then Some(INITIAL)
    else
      match Run(cfg, actions[..|actions| - 1])
      case None => None
      case Some(s) => if Enabled(cfg, s, actions[|actions| - 1]) then Some(Next(cfg, s, actions[|actions| - 1])) else None
  }
}
