/**
 * What the verifier protocol keeps about its past: which memo lookup let each flight
 * claim the gate, which store ended it, and so what separates two KDF runs for one tag.
 */
module VerifierHistory {
  import opened Common
  import opened VerificationMemo
  import opened VerifierProtocol
  import opened VerifierInvariants
  import H = MemoHistory

  // --- the invariant ---------------------------------------------------------

  /** At index `k` the memo, asked for `tag`, had no answer. */
  ghost predicate MissedAt(h: H.History, k: nat, tag: Tag) {
    k < |h| && h[k].Looked? && h[k].tag == tag && Answer(H.Replay(h[..k]), tag, h[k].at) == Miss
  }

  predicate Unstored(f: Flight) {
    !f.phase.Warm? && !f.phase.Ended?
  }

  ghost predicate StoreOk(cfg: Config, s: State, f: Flight) {
    match f.stored
    case None => Unstored(f) || f.phase == Ended(None)
    case Some(k) =>
      && !Unstored(f) && f.phase != Ended(None)
      && f.recheck < k < |s.hist|
      && s.hist[k].Stored? && Some(s.hist[k].tag) == f.tag && s.hist[k].ok == Admits(cfg, f.cred)
  }

  ghost predicate FlightPast(cfg: Config, s: State, i: nat)
    requires i < |s.flights|
  {
    var f := s.flights[i];
    f.tag.Some? ==> MissedAt(s.hist, f.recheck, f.tag.value) && StoreOk(cfg, s, f)
  }

  /** A later flight was let in after an earlier one, and after that one's store. */
  ghost predicate InOrder(s: State, i: nat, j: nat)
    requires i < j < |s.flights|
  {
    s.flights[i].tag.Some? && s.flights[j].tag.Some? ==>
      && s.flights[i].recheck < s.flights[j].recheck
      && (s.flights[i].stored.Some? ==> s.flights[i].stored.value < s.flights[j].recheck)
  }

  /** Nothing was stored since the lookup that lets request `r` install itself. */
  ghost predicate InstallPast(cfg: Config, s: State, r: nat)
    requires r < |s.reqs|
  {
    s.reqs[r].pc.Installing? && cfg.keyed ==>
      && MissedAt(s.hist, s.reqs[r].pc.recheck, TagOf(cfg, s.reqs[r].cred).value)
      && (forall k :: s.reqs[r].pc.recheck < k < |s.hist| ==> !s.hist[k].Stored?)
      && (forall i: nat :: i < |s.flights| && s.flights[i].tag.Some? ==> s.flights[i].recheck < s.reqs[r].pc.recheck)
  }

  ghost predicate Past(cfg: Config, s: State) {
    && s.memo == H.Replay(s.hist)
    && H.Monotone(s.hist, s.now)
    && (forall k: nat {:trigger StoredBySome(s, k)} :: k < |s.hist| && s.hist[k].Stored? ==> StoredBySome(s, k))
    && (forall i: nat {:trigger FlightPast(cfg, s, i)} :: i < |s.flights| ==> FlightPast(cfg, s, i))
    && (forall i: nat, j: nat {:trigger InOrder(s, i, j)} :: i < j < |s.flights| ==> InOrder(s, i, j))
    && (forall r: nat {:trigger InstallPast(cfg, s, r)} :: r < |s.reqs| ==> InstallPast(cfg, s, r))
  }

  ghost predicate StoredBySome(s: State, k: nat) {
    exists i: nat :: i < |s.flights| && s.flights[i].stored == Some(k)
  }

  // --- how the history grows -------------------------------------------------

  lemma MissStays(h: H.History, e: H.Event, k: nat, tag: Tag)
    requires MissedAt(h, k, tag)
    ensures MissedAt(h + [e], k, tag)
  {
    assert (h + [e])[..k] == h[..k];
  }

  lemma MonotoneGrows(h: H.History, e: H.Event, now: nat)
    requires H.Monotone(h, now) && e.at == now
    ensures H.Monotone(h + [e], now)
  {
  }

  lemma ReplayGrows(h: H.History, e: H.Event)
    ensures H.Replay(h + [e]) == H.Apply(H.Replay(h), e)
  {
    assert (h + [e])[..|h|] == h;
  }

  /** A lookup is appended and nothing else of the past changes. */
  lemma LookedKept(cfg: Config, s: State, tag: Tag)
    requires Past(cfg, s)
    ensures Past(cfg, Looked(s, tag))
  {
    var t, e := Looked(s, tag), H.Looked(tag, s.now);
    ReplayGrows(s.hist, e);
    MonotoneGrows(s.hist, e, s.now);
    forall k: nat | k < |t.hist| && t.hist[k].Stored? ensures StoredBySome(t, k) {
      assert StoredBySome(s, k);
      var i: nat :| i < |s.flights| && s.flights[i].stored == Some(k);
      assert t.flights[i].stored == Some(k);
    }
    forall i: nat | i < |t.flights| ensures FlightPast(cfg, t, i) {
      assert FlightPast(cfg, s, i);
      var f := s.flights[i];
      if f.tag.Some? { MissStays(s.hist, e, f.recheck, f.tag.value); }
    }
    forall i: nat, j: nat | i < j < |t.flights| ensures InOrder(t, i, j) {
      assert InOrder(s, i, j);
    }
    forall r: nat | r < |t.reqs| ensures InstallPast(cfg, t, r) {
      assert InstallPast(cfg, s, r);
      if s.reqs[r].pc.Installing? && cfg.keyed {
        MissStays(s.hist, e, s.reqs[r].pc.recheck, TagOf(cfg, s.reqs[r].cred).value);
      }
    }
  }

  /** Only request `r`, the lock, the slot, the refusals and announcements differ. */
  ghost predicate SameButRequest(s: State, t: State, r: nat) {
    && r < |s.reqs| == |t.reqs|
    && (forall q: nat :: q < |s.reqs| && q != r ==> t.reqs[q] == s.reqs[q])
    && t.memo == s.memo && t.hist == s.hist && t.now == s.now && t.flights == s.flights
  }

  /** A request moves: only a move to `Installing` has anything to show. */
  lemma PastMove(cfg: Config, s: State, t: State, r: nat)
    requires Past(cfg, s) && SameButRequest(s, t, r) && InstallPast(cfg, t, r)
    ensures Past(cfg, t)
  {
    forall k: nat | k < |t.hist| && t.hist[k].Stored? ensures StoredBySome(t, k) {
      assert StoredBySome(s, k);
      var i: nat :| i < |s.flights| && s.flights[i].stored == Some(k);
      assert t.flights[i].stored == Some(k);
    }
    forall i: nat | i < |t.flights| ensures FlightPast(cfg, t, i) {
      assert FlightPast(cfg, s, i);
    }
    forall i: nat, j: nat | i < j < |t.flights| ensures InOrder(t, i, j) {
      assert InOrder(s, i, j);
    }
    forall q: nat | q < |t.reqs| ensures InstallPast(cfg, t, q) {
      assert InstallPast(cfg, s, q);
    }
  }

  /** A flight moves on without a store. */
  lemma PastProgress(cfg: Config, s: State, t: State, id: nat)
    requires Past(cfg, s) && id < |s.flights| && |t.flights| == |s.flights|
    requires forall i: nat :: i < |s.flights| && i != id ==> t.flights[i] == s.flights[i]
    requires t.flights[id] == s.flights[id].(phase := t.flights[id].phase, guard := t.flights[id].guard, sender := t.flights[id].sender, value := t.flights[id].value)
    requires s.flights[id].tag.Some? ==> StoreOk(cfg, s, t.flights[id])
    requires t.memo == s.memo && t.hist == s.hist && t.now == s.now
    requires |t.reqs| == |s.reqs| && forall q: nat {:trigger InstallPast(cfg, t, q)} :: q < |s.reqs| ==> InstallPast(cfg, t, q)
    ensures Past(cfg, t)
  {
    forall k: nat | k < |t.hist| && t.hist[k].Stored? ensures StoredBySome(t, k) {
      assert StoredBySome(s, k);
      var i: nat :| i < |s.flights| && s.flights[i].stored == Some(k);
      assert t.flights[i].stored == Some(k);
    }
    forall i: nat | i < |t.flights| ensures FlightPast(cfg, t, i) {
      assert FlightPast(cfg, s, i);
    }
    forall i: nat, j: nat | i < j < |t.flights| ensures InOrder(t, i, j) {
      assert InOrder(s, i, j);
    }
  }

  // --- the moves -------------------------------------------------------------

  lemma TickPast(cfg: Config, s: State, dt: nat)
    requires Past(cfg, s)
    ensures Past(cfg, s.(now := s.now + dt))
  {
    var t := s.(now := s.now + dt);
    forall k: nat | k < |t.hist| && t.hist[k].Stored? ensures StoredBySome(t, k) {
      assert StoredBySome(s, k);
      var i: nat :| i < |s.flights| && s.flights[i].stored == Some(k);
      assert t.flights[i].stored == Some(k);
    }
    forall i: nat | i < |t.flights| ensures FlightPast(cfg, t, i) { assert FlightPast(cfg, s, i); }
    forall i: nat, j: nat | i < j < |t.flights| ensures InOrder(t, i, j) { assert InOrder(s, i, j); }
    forall q: nat | q < |t.reqs| ensures InstallPast(cfg, t, q) { assert InstallPast(cfg, s, q); }
  }

  lemma ArrivePast(cfg: Config, s: State, c: Credential)
    requires Past(cfg, s)
    ensures Past(cfg, s.(reqs := s.reqs + [Request(c, Arrived)]))
  {
    var t := s.(reqs := s.reqs + [Request(c, Arrived)]);
    forall k: nat | k < |t.hist| && t.hist[k].Stored? ensures StoredBySome(t, k) {
      assert StoredBySome(s, k);
      var i: nat :| i < |s.flights| && s.flights[i].stored == Some(k);
      assert t.flights[i].stored == Some(k);
    }
    forall i: nat | i < |t.flights| ensures FlightPast(cfg, t, i) { assert FlightPast(cfg, s, i); }
    forall i: nat, j: nat | i < j < |t.flights| ensures InOrder(t, i, j) { assert InOrder(s, i, j); }
    forall q: nat | q < |t.reqs| ensures InstallPast(cfg, t, q) {
      if q < |s.reqs| { assert InstallPast(cfg, s, q); }
    }
  }

  /** A request moves after a memo lookup. */
  lemma LookThenMove(cfg: Config, s: State, tag: Tag, t: State, r: nat)
    requires Past(cfg, s) && SameButRequest(Looked(s, tag), t, r) && InstallPast(cfg, t, r)
    ensures Past(cfg, t)
  {
    LookedKept(cfg, s, tag);
    PastMove(cfg, Looked(s, tag), t, r);
  }

  lemma FastLookupShape(cfg: Config, s: State, r: nat)
    requires r < |s.reqs| && RequestEnabled(s, r, FastLookup)
    ensures var t, tag := AfterRequest(cfg, s, r, FastLookup), TagOf(cfg, s.reqs[r].cred);
            && SameButRequest(if tag.Some? then Looked(s, tag.value) else s, t, r)
            && InstallPast(cfg, t, r)
  {
  }

  lemma FastLookupPast(cfg: Config, s: State, r: nat)
    requires Past(cfg, s) && r < |s.reqs| && RequestEnabled(s, r, FastLookup)
    ensures Past(cfg, AfterRequest(cfg, s, r, FastLookup))
  {
    var tag, t := TagOf(cfg, s.reqs[r].cred), AfterRequest(cfg, s, r, FastLookup);
    FastLookupShape(cfg, s, r);
    if tag.None? {
      PastMove(cfg, s, t, r);
    } else {
      LookThenMove(cfg, s, tag.value, t, r);
    }
  }

  lemma InspectPast(cfg: Config, s: State, r: nat)
    requires Past(cfg, s) && r < |s.reqs| && RequestEnabled(s, r, Inspect)
    ensures Past(cfg, AfterInspect(cfg, s, r))
  {
    PastMove(cfg, s, AfterInspect(cfg, s, r), r);
  }

  lemma AllRechecksArePast(cfg: Config, s: State)
    requires forall i: nat {:trigger FlightPast(cfg, s, i)} :: i < |s.flights| ==> FlightPast(cfg, s, i)
    ensures forall i: nat :: i < |s.flights| && s.flights[i].tag.Some? ==> s.flights[i].recheck < |s.hist|
  {
    forall i: nat | i < |s.flights| && s.flights[i].tag.Some? ensures s.flights[i].recheck < |s.hist| {
      assert FlightPast(cfg, s, i);
    }
  }

  lemma RecheckInstalls(cfg: Config, s: State, r: nat, tag: Tag)
    requires r < |s.reqs| && s.reqs[r].pc.Rechecking? && TagOf(cfg, s.reqs[r].cred) == Some(tag)
    requires s.memo == H.Replay(s.hist)
    requires forall i: nat :: i < |s.flights| && s.flights[i].tag.Some? ==> s.flights[i].recheck < |s.hist|
    ensures InstallPast(cfg, AfterRecheck(s, r, tag), r)
  {
    var t := AfterRecheck(s, r, tag);
    assert t.hist[..|s.hist|] == s.hist;
    assert t.hist[|s.hist|] == H.Looked(tag, s.now);
  }

  lemma RecheckShape(s: State, r: nat, tag: Tag)
    requires r < |s.reqs|
    ensures SameButRequest(Looked(s, tag), AfterRecheck(s, r, tag), r)
  {
  }

  lemma RecheckPast(cfg: Config, s: State, r: nat, tag: Tag)
    requires Past(cfg, s) && r < |s.reqs| && s.reqs[r].pc.Rechecking? && TagOf(cfg, s.reqs[r].cred) == Some(tag)
    ensures Past(cfg, AfterRecheck(s, r, tag))
  {
    AllRechecksArePast(cfg, s);
    RecheckInstalls(cfg, s, r, tag);
    RecheckShape(s, r, tag);
    LookThenMove(cfg, s, tag, AfterRecheck(s, r, tag), r);
  }

  lemma StoredBefore(h: H.History, m: nat, k: nat)
    requires m < |h| && h[m].Looked? && forall x :: m < x < |h| ==> !h[x].Stored?
    requires k < |h| && h[k].Stored?
    ensures k < m
  {
  }

  /** The new flight comes after every earlier one. */
  lemma InstallInOrder(cfg: Config, s: State, r: nat, i: nat)
    requires r < |s.reqs| && RequestEnabled(s, r, Install) && i < |s.flights|
    requires InstallPast(cfg, s, r) && FlightPast(cfg, s, i) && s.flights[i].tag == TagOf(cfg, s.flights[i].cred)
    ensures InOrder(AfterInstall(cfg, s, r), i, |s.flights|)
  {
    var f, m := s.flights[i], s.reqs[r].pc.recheck;
    if f.tag.Some? && cfg.keyed && f.stored.Some? { StoredBefore(s.hist, m, f.stored.value); }
    var fs := AfterInstall(cfg, s, r).flights;
    assert fs[i] == f && fs[|s.flights|].recheck == m;
  }

  lemma InstallNobodyElse(cfg: Config, s: State, r: nat, q: nat)
    requires Inv(cfg, s) && r < |s.reqs| && RequestEnabled(s, r, Install) && q < |s.reqs|
    ensures !AfterInstall(cfg, s, r).reqs[q].pc.Installing?
  {
    if q != r { assert RequestOk(cfg, s, q); }
  }

  lemma InstallPastKept(cfg: Config, s: State, r: nat)
    requires Inv(cfg, s) && Past(cfg, s) && r < |s.reqs| && RequestEnabled(s, r, Install)
    ensures Past(cfg, AfterInstall(cfg, s, r))
  {
    var t := AfterInstall(cfg, s, r);
    forall k: nat | k < |t.hist| && t.hist[k].Stored? ensures StoredBySome(t, k) {
      assert StoredBySome(s, k);
      var i: nat :| i < |s.flights| && s.flights[i].stored == Some(k);
      assert t.flights[i].stored == Some(k);
    }
    forall i: nat | i < |t.flights| ensures FlightPast(cfg, t, i) {
      if i < |s.flights| { assert FlightPast(cfg, s, i); } else { assert InstallPast(cfg, s, r); }
    }
    forall i: nat, j: nat | i < j < |t.flights| ensures InOrder(t, i, j) {
      if j < |s.flights| { assert InOrder(s, i, j); } else { assert FlightOk(cfg, s, i); InstallInOrder(cfg, s, r, i); }
    }
    forall q: nat | q < |t.reqs| ensures InstallPast(cfg, t, q) {
      InstallNobodyElse(cfg, s, r, q);
    }
  }

  lemma SpawnPast(cfg: Config, s: State, r: nat)
    requires Inv(cfg, s) && Past(cfg, s) && r < |s.reqs| && RequestEnabled(s, r, Spawn)
    ensures Past(cfg, AfterRequest(cfg, s, r, Spawn))
  {
    var id, t := s.reqs[r].pc.id, AfterRequest(cfg, s, r, Spawn);
    assert RequestOk(cfg, s, r) && FlightPast(cfg, s, id);
    forall q: nat | q < |s.reqs| ensures InstallPast(cfg, t, q) {
      assert InstallPast(cfg, s, q);
      if q != r { InstallPastSame(cfg, s, t, q); }
    }
    PastProgress(cfg, s, t, id);
  }

  lemma InstallPastSame(cfg: Config, s: State, t: State, q: nat)
    requires q < |s.reqs| && q < |t.reqs| && t.reqs[q] == s.reqs[q] && t.hist == s.hist
    requires |t.flights| == |s.flights| && InstallPast(cfg, s, q)
    requires forall i: nat :: i < |s.flights| ==> t.flights[i].tag == s.flights[i].tag && t.flights[i].recheck == s.flights[i].recheck
    ensures InstallPast(cfg, t, q)
  {
  }

  lemma RequestPast(cfg: Config, s: State, r: nat, m: RequestMove)
    requires Inv(cfg, s) && Past(cfg, s) && r < |s.reqs| && RequestEnabled(s, r, m)
    ensures Past(cfg, AfterRequest(cfg, s, r, m))
  {
    match m
    case FastLookup => FastLookupPast(cfg, s, r);
    case Inspect => InspectPast(cfg, s, r);
    case Recheck => assert RequestOk(cfg, s, r); RecheckPast(cfg, s, r, TagOf(cfg, s.reqs[r].cred).value);
    case Install => InstallPastKept(cfg, s, r);
    case Spawn => SpawnPast(cfg, s, r);
    case _ => PastMove(cfg, s, AfterRequest(cfg, s, r, m), r);
  }

  lemma StoreFlightPast(cfg: Config, s: State, id: nat, i: nat)
    requires Inv(cfg, s) && Past(cfg, s) && id < |s.flights| && FlightEnabled(s, id, StoreVerdict)
    requires s.flights[id].tag.Some? && i < |s.flights|
    ensures FlightPast(cfg, AfterFlight(cfg, s, id, StoreVerdict), i)
  {
    var f, t := s.flights[id], AfterFlight(cfg, s, id, StoreVerdict);
    var e := H.Stored(f.tag.value, f.phase.ok, s.now);
    assert FlightOk(cfg, s, id) && FlightPast(cfg, s, id);
    assert FlightPast(cfg, s, i);
    var g := s.flights[i];
    if g.tag.Some? { MissStays(s.hist, e, g.recheck, g.tag.value); }
  }

  lemma StoreInOrder(cfg: Config, s: State, id: nat)
    requires Inv(cfg, s) && Past(cfg, s) && id < |s.flights| && FlightEnabled(s, id, StoreVerdict)
    ensures var t := AfterFlight(cfg, s, id, StoreVerdict);
            forall i: nat, j: nat :: i < j < |t.flights| ==> InOrder(t, i, j)
  {
    var t := AfterFlight(cfg, s, id, StoreVerdict);
    assert FlightOk(cfg, s, id);
    forall i: nat, j: nat | i < j < |t.flights| ensures InOrder(t, i, j) {
      assert InOrder(s, i, j);
    }
  }

  lemma StoreNobodyInstalls(cfg: Config, s: State, id: nat, r: nat)
    requires Inv(cfg, s) && id < |s.flights| && FlightEnabled(s, id, StoreVerdict) && r < |s.reqs|
    ensures !s.reqs[r].pc.Installing?
  {
    assert FlightOk(cfg, s, id) && RequestOk(cfg, s, r);
  }

  lemma StoreStoredBySome(cfg: Config, s: State, id: nat, k: nat)
    requires id < |s.flights| && FlightEnabled(s, id, StoreVerdict) && s.flights[id].tag.Some? && s.flights[id].stored.None?
    requires k < |s.hist| ==> StoredBySome(s, k)
    requires k <= |s.hist|
    ensures StoredBySome(AfterFlight(cfg, s, id, StoreVerdict), k)
  {
    var t := AfterFlight(cfg, s, id, StoreVerdict);
    if k < |s.hist| {
      var i: nat :| i < |s.flights| && s.flights[i].stored == Some(k);
      assert t.flights[i].stored == Some(k);
    } else {
      assert t.flights[id].stored == Some(k);
    }
  }

  lemma StorePast(cfg: Config, s: State, id: nat)
    requires Inv(cfg, s) && Past(cfg, s) && id < |s.flights| && FlightEnabled(s, id, StoreVerdict)
    requires s.flights[id].tag.Some?
    ensures Past(cfg, AfterFlight(cfg, s, id, StoreVerdict))
  {
    var f, t := s.flights[id], AfterFlight(cfg, s, id, StoreVerdict);
    var e := H.Stored(f.tag.value, f.phase.ok, s.now);
    ReplayGrows(s.hist, e);
    MonotoneGrows(s.hist, e, s.now);
    assert FlightPast(cfg, s, id);
    forall k: nat | k < |t.hist| && t.hist[k].Stored? ensures StoredBySome(t, k) {
      StoreStoredBySome(cfg, s, id, k);
    }
    forall i: nat | i < |t.flights| ensures FlightPast(cfg, t, i) {
      StoreFlightPast(cfg, s, id, i);
    }
    StoreInOrder(cfg, s, id);
    forall q: nat | q < |t.reqs| ensures InstallPast(cfg, t, q) {
      StoreNobodyInstalls(cfg, s, id, q);
    }
  }

  lemma ProgressStoreOk(cfg: Config, s: State, id: nat, m: FlightMove)
    requires id < |s.flights| && FlightEnabled(s, id, m) && FlightPast(cfg, s, id)
    requires s.flights[id].tag.Some? && !m.StoreVerdict?
    ensures StoreOk(cfg, s, AfterFlight(cfg, s, id, m).flights[id])
  {
  }

  lemma ProgressShape(cfg: Config, s: State, id: nat, m: FlightMove)
    requires id < |s.flights| && FlightEnabled(s, id, m)
    requires !m.StoreVerdict? || s.flights[id].tag.None?
    ensures var t := AfterFlight(cfg, s, id, m);
            && |t.flights| == |s.flights| && t.memo == s.memo && t.hist == s.hist && t.now == s.now && t.reqs == s.reqs
            && (forall i: nat :: i < |s.flights| && i != id ==> t.flights[i] == s.flights[i])
            && var f := t.flights[id];
            f == s.flights[id].(phase := f.phase, guard := f.guard, sender := f.sender, value := f.value)
  {
  }

  lemma ProgressPast(cfg: Config, s: State, id: nat, m: FlightMove)
    requires Past(cfg, s) && id < |s.flights| && FlightEnabled(s, id, m)
    requires !m.StoreVerdict? || s.flights[id].tag.None?
    ensures Past(cfg, AfterFlight(cfg, s, id, m))
  {
    var t := AfterFlight(cfg, s, id, m);
    assert FlightPast(cfg, s, id);
    if s.flights[id].tag.Some? { ProgressStoreOk(cfg, s, id, m); }
    ProgressShape(cfg, s, id, m);
    forall q: nat | q < |s.reqs| ensures InstallPast(cfg, t, q) {
      InstallPastSame(cfg, s, t, q);
    }
    PastProgress(cfg, s, t, id);
  }

  lemma FlightPastKept(cfg: Config, s: State, id: nat, m: FlightMove)
    requires Inv(cfg, s) && Past(cfg, s) && id < |s.flights| && FlightEnabled(s, id, m)
    ensures Past(cfg, AfterFlight(cfg, s, id, m))
  {
    if m.StoreVerdict? && s.flights[id].tag.Some? {
      StorePast(cfg, s, id);
    } else {
      ProgressPast(cfg, s, id, m);
    }
  }

  lemma StepPast(cfg: Config, s: State, a: Action)
    requires Inv(cfg, s) && Past(cfg, s) && Enabled(cfg, s, a)
    ensures Past(cfg, Next(cfg, s, a))
  {
    match a
    case Tick(dt) => TickPast(cfg, s, dt);
    case Arrive(c) => ArrivePast(cfg, s, c);
    case RequestStep(r, m) => RequestPast(cfg, s, r, m);
    case FlightStep(id, m) => FlightPastKept(cfg, s, id, m);
  }

  lemma {:induction false} RunPast(cfg: Config, actions: seq<Action>)
    requires WellFormed(cfg) && Run(cfg, actions).Some?
    ensures Inv(cfg, Run(cfg, actions).value) && Past(cfg, Run(cfg, actions).value)
  {
    RunKept(cfg, actions);
    if actions != [] {
      var before := actions[..|actions| - 1];
      RunPast(cfg, before);
      StepPast(cfg, Run(cfg, before).value, actions[|actions| - 1]);
    }
  }
}
