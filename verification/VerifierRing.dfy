/**
 * The negative ring of a verifier never repeats a tag and never lists the proved one.
 * Neither holds of the memo on its own: it takes the gate's exclusion, the recheck
 * under the slot lock and a KDF that gives one credential one verdict.
 */
module VerifierRing {
  import opened Common
  import opened VerificationMemo
  import opened VerifierProtocol
  import opened VerifierInvariants
  import H = MemoHistory

  ghost predicate Distinct(ring: seq<Entry>) {
    forall i, j :: 0 <= i < j < |ring| ==> ring[i].tag != ring[j].tag
  }

  /** The tag that a flight or an installing request is about to have verified. */
  ghost predicate Pending(cfg: Config, s: State, tag: Tag) {
    || (exists i: nat :: i < |s.flights| && s.flights[i].tag == Some(tag) && !s.flights[i].phase.Warm? && !s.flights[i].phase.Ended?)
    || (exists r: nat :: r < |s.reqs| && s.reqs[r].pc.Installing? && TagOf(cfg, s.reqs[r].cred) == Some(tag))
  }

  ghost predicate RingOk(cfg: Config, s: State) {
    && Distinct(s.memo.negative)
    && (forall tag :: Pending(cfg, s, tag) ==> !Rings(s.memo.negative, tag))
  }

  lemma {:induction false} RetainDistinct(ring: seq<Entry>, now: nat)
    requires Distinct(ring)
    ensures Distinct(Retain(ring, now))
    ensures forall tag :: Rings(Retain(ring, now), tag) ==> Rings(ring, tag)
  {
    if ring != [] {
      var front, last := ring[..|ring| - 1], ring[|ring| - 1];
      RetainDistinct(front, now);
      var kept := Retain(front, now);
      forall tag | Rings(Retain(ring, now), tag) ensures Rings(ring, tag) {
        if Rings(kept, tag) {
          var i :| 0 <= i < |front| && front[i].tag == tag;
          assert ring[i].tag == tag;
        }
      }
      assert !Rings(front, last.tag);
      forall i | 0 <= i < |kept| ensures kept[i].tag != last.tag {
        assert Rings(kept, kept[i].tag);
      }
    }
  }

  /** A lookup only shrinks the ring, and a missed tag is not in what remains. */
  lemma LookupRing(m: MemoState, tag: Tag, now: nat)
    requires Distinct(m.negative)
    ensures Distinct(AfterLookup(m, tag, now).negative)
    ensures forall t :: Rings(AfterLookup(m, tag, now).negative, t) ==> Rings(m.negative, t)
    ensures Answer(m, tag, now) == Miss ==> !Rings(AfterLookup(m, tag, now).negative, tag)
  {
    RetainDistinct(m.negative, now);
  }

  lemma StoreRing(m: MemoState, tag: Tag, ok: bool, now: nat)
    requires Distinct(m.negative) && !Rings(m.negative, tag)
    ensures Distinct(AfterStore(m, tag, ok, now).negative)
    ensures forall t :: t != tag && Rings(AfterStore(m, tag, ok, now).negative, t) ==> Rings(m.negative, t)
  {
    if !ok {
      RetainDistinct(m.negative, now);
      var kept := Retain(m.negative, now);
      var few := LastFew(kept, NEGATIVE_CAP - 1);
      forall i | 0 <= i < |few| ensures few[i].tag != tag && Rings(kept, few[i].tag) {
        assert few[i] == kept[|kept| - |few| + i];
        assert Rings(kept, few[i].tag);
      }
    }
  }

  lemma ShrinkKept(cfg: Config, s: State, t: State)
    requires RingOk(cfg, s) && Distinct(t.memo.negative)
    requires forall tag :: Rings(t.memo.negative, tag) ==> Rings(s.memo.negative, tag)
    requires forall tag :: Pending(cfg, t, tag) ==> Pending(cfg, s, tag) || !Rings(t.memo.negative, tag)
    ensures RingOk(cfg, t)
  {
  }

  /** A request that moves anywhere but to `Installing` makes nothing pending. */
  lemma MovePending(cfg: Config, s: State, t: State, r: nat, tag: Tag)
    requires r < |s.reqs| && |t.reqs| == |s.reqs| && t.flights == s.flights
    requires forall q: nat :: q < |s.reqs| && q != r ==> t.reqs[q] == s.reqs[q]
    requires !t.reqs[r].pc.Installing? && Pending(cfg, t, tag)
    ensures Pending(cfg, s, tag)
  {
    if q: nat :| q < |t.reqs| && t.reqs[q].pc.Installing? && TagOf(cfg, t.reqs[q].cred) == Some(tag) {
      assert s.reqs[q] == t.reqs[q];
    }
  }

  /** A request that moves makes at most its own tag pending. */
  lemma OwnPending(cfg: Config, s: State, t: State, r: nat, tag: Tag)
    requires r < |s.reqs| && |t.reqs| == |s.reqs| && t.flights == s.flights
    requires forall q: nat :: q < |s.reqs| && q != r ==> t.reqs[q] == s.reqs[q]
    requires t.reqs[r].cred == s.reqs[r].cred && Pending(cfg, t, tag) && Some(tag) != TagOf(cfg, s.reqs[r].cred)
    ensures Pending(cfg, s, tag)
  {
    if q: nat :| q < |t.reqs| && t.reqs[q].pc.Installing? && TagOf(cfg, t.reqs[q].cred) == Some(tag) {
      assert s.reqs[q] == t.reqs[q];
    }
  }

  lemma RecheckMoves(s: State, r: nat, tag: Tag)
    requires r < |s.reqs|
    ensures var t := AfterRecheck(s, r, tag);
            && |t.reqs| == |s.reqs| && t.flights == s.flights && t.memo == AfterLookup(s.memo, tag, s.now)
            && t.reqs[r].cred == s.reqs[r].cred && (t.reqs[r].pc.Installing? <==> Answer(s.memo, tag, s.now) == Miss)
            && forall q: nat :: q < |s.reqs| && q != r ==> t.reqs[q] == s.reqs[q]
  {
  }

  lemma RecheckRing(cfg: Config, s: State, r: nat, own: Tag)
    requires RingOk(cfg, s) && r < |s.reqs| && TagOf(cfg, s.reqs[r].cred) == Some(own)
    ensures RingOk(cfg, AfterRecheck(s, r, own))
  {
    var t := AfterRecheck(s, r, own);
    RecheckMoves(s, r, own);
    LookupRing(s.memo, own, s.now);
    forall tag | Pending(cfg, t, tag) ensures Pending(cfg, s, tag) || !Rings(t.memo.negative, tag) {
      if !t.reqs[r].pc.Installing? {
        MovePending(cfg, s, t, r, tag);
      } else if tag != own {
        OwnPending(cfg, s, t, r, tag);
      }
    }
    ShrinkKept(cfg, s, t);
  }

  lemma InstallRing(cfg: Config, s: State, r: nat)
    requires Inv(cfg, s) && RingOk(cfg, s) && r < |s.reqs| && RequestEnabled(s, r, Install)
    ensures RingOk(cfg, AfterInstall(cfg, s, r))
  {
    var t := AfterInstall(cfg, s, r);
    forall tag | Pending(cfg, t, tag) ensures Pending(cfg, s, tag) {
      if i: nat :| i < |t.flights| && t.flights[i].tag == Some(tag) && !t.flights[i].phase.Warm? && !t.flights[i].phase.Ended? {
        if i < |s.flights| { assert s.flights[i].tag == Some(tag); } else { assert s.reqs[r].pc.Installing?; }
      } else {
        var q: nat :| q < |t.reqs| && t.reqs[q].pc.Installing? && TagOf(cfg, t.reqs[q].cred) == Some(tag);
        assert s.reqs[q] == t.reqs[q];
      }
    }
    ShrinkKept(cfg, s, t);
  }

  lemma SpawnRing(cfg: Config, s: State, r: nat)
    requires Inv(cfg, s) && RingOk(cfg, s) && r < |s.reqs| && RequestEnabled(s, r, Spawn)
    ensures RingOk(cfg, AfterRequest(cfg, s, r, Spawn))
  {
    var t := AfterRequest(cfg, s, r, Spawn);
    assert RequestOk(cfg, s, r);
    forall tag | Pending(cfg, t, tag) ensures Pending(cfg, s, tag) {
      if i: nat :| i < |t.flights| && t.flights[i].tag == Some(tag) && !t.flights[i].phase.Warm? && !t.flights[i].phase.Ended? {
        assert s.flights[i].tag == Some(tag);
      } else {
        var q: nat :| q < |t.reqs| && t.reqs[q].pc.Installing? && TagOf(cfg, t.reqs[q].cred) == Some(tag);
        assert s.reqs[q] == t.reqs[q];
      }
    }
    ShrinkKept(cfg, s, t);
  }

  lemma FastLookupRing(cfg: Config, s: State, r: nat)
    requires RingOk(cfg, s) && r < |s.reqs| && RequestEnabled(s, r, FastLookup)
    ensures RingOk(cfg, AfterRequest(cfg, s, r, FastLookup))
  {
    var t, own := AfterRequest(cfg, s, r, FastLookup), TagOf(cfg, s.reqs[r].cred);
    if own.Some? { LookupRing(s.memo, own.value, s.now); }
    forall tag | Pending(cfg, t, tag) ensures Pending(cfg, s, tag) {
      MovePending(cfg, s, t, r, tag);
    }
    ShrinkKept(cfg, s, t);
  }

  lemma InspectRing(cfg: Config, s: State, r: nat)
    requires RingOk(cfg, s) && r < |s.reqs| && RequestEnabled(s, r, Inspect)
    ensures RingOk(cfg, AfterInspect(cfg, s, r))
  {
    var t := AfterInspect(cfg, s, r);
    forall tag | Pending(cfg, t, tag) ensures Pending(cfg, s, tag) {
      if !t.reqs[r].pc.Installing? {
        MovePending(cfg, s, t, r, tag);
      }
    }
    ShrinkKept(cfg, s, t);
  }

  lemma RequestRing(cfg: Config, s: State, r: nat, m: RequestMove)
    requires Inv(cfg, s) && RingOk(cfg, s) && r < |s.reqs| && RequestEnabled(s, r, m)
    ensures RingOk(cfg, AfterRequest(cfg, s, r, m))
  {
    match m
    case FastLookup => FastLookupRing(cfg, s, r);
    case Inspect => InspectRing(cfg, s, r);
    case Recheck => assert RequestOk(cfg, s, r); RecheckRing(cfg, s, r, TagOf(cfg, s.reqs[r].cred).value);
    case Install => InstallRing(cfg, s, r);
    case Spawn => SpawnRing(cfg, s, r);
    case _ =>
      var t := AfterRequest(cfg, s, r, m);
      forall tag | Pending(cfg, t, tag) ensures Pending(cfg, s, tag) {
        MovePending(cfg, s, t, r, tag);
      }
      ShrinkKept(cfg, s, t);
  }

  lemma FlightRing(cfg: Config, s: State, id: nat, m: FlightMove)
    requires WellFormed(cfg) && Inv(cfg, s) && RingOk(cfg, s) && id < |s.flights| && FlightEnabled(s, id, m)
    requires !m.StoreVerdict?
    ensures RingOk(cfg, AfterFlight(cfg, s, id, m))
  {
    var t := AfterFlight(cfg, s, id, m);
    forall tag | Pending(cfg, t, tag) ensures Pending(cfg, s, tag) || !Rings(t.memo.negative, tag) {
      if i: nat :| i < |t.flights| && t.flights[i].tag == Some(tag) && !t.flights[i].phase.Warm? && !t.flights[i].phase.Ended? {
        assert s.flights[i].tag == Some(tag);
      } else {
        var q: nat :| q < |t.reqs| && t.reqs[q].pc.Installing? && TagOf(cfg, t.reqs[q].cred) == Some(tag);
        assert s.reqs[q] == t.reqs[q];
      }
    }
    ShrinkKept(cfg, s, t);
  }

  /** While a flight has yet to store, nothing else is pending. */
  lemma NothingElsePending(cfg: Config, s: State, id: nat)
    requires Inv(cfg, s) && id < |s.flights| && FlightEnabled(s, id, StoreVerdict)
    ensures forall tag :: !Pending(cfg, AfterFlight(cfg, s, id, StoreVerdict), tag)
  {
    var t := AfterFlight(cfg, s, id, StoreVerdict);
    assert FlightOk(cfg, s, id);
    forall tag ensures !Pending(cfg, t, tag) {
      forall i: nat | i < |t.flights| ensures t.flights[i].phase.Warm? || t.flights[i].phase.Ended? {
        if i != id { assert FlightOk(cfg, s, i); }
      }
      forall q: nat | q < |t.reqs| ensures !t.reqs[q].pc.Installing? {
        assert RequestOk(cfg, s, q);
      }
    }
  }

  lemma StoreVerdictRing(cfg: Config, s: State, id: nat)
    requires WellFormed(cfg) && Inv(cfg, s) && RingOk(cfg, s) && id < |s.flights| && FlightEnabled(s, id, StoreVerdict)
    ensures RingOk(cfg, AfterFlight(cfg, s, id, StoreVerdict))
  {
    var f := s.flights[id];
    NothingElsePending(cfg, s, id);
    if f.tag.Some? {
      assert Pending(cfg, s, f.tag.value);
      StoreRing(s.memo, f.tag.value, f.phase.ok, s.now);
    }
  }

  lemma {:induction false} RunRing(cfg: Config, actions: seq<Action>)
    requires WellFormed(cfg) && Run(cfg, actions).Some?
    ensures RingOk(cfg, Run(cfg, actions).value)
  {
    if actions != [] {
      var before, a := actions[..|actions| - 1], actions[|actions| - 1];
      RunRing(cfg, before);
      RunKept(cfg, before);
      var s, t := Run(cfg, before).value, Run(cfg, actions).value;
      match a
      case Tick(dt) => assert forall tag :: Pending(cfg, t, tag) ==> Pending(cfg, s, tag);
      case Arrive(c) =>
        forall tag | Pending(cfg, t, tag) ensures Pending(cfg, s, tag) {
          if q: nat :| q < |t.reqs| && t.reqs[q].pc.Installing? && TagOf(cfg, t.reqs[q].cred) == Some(tag) {
            assert s.reqs[q] == t.reqs[q];
          }
        }
      case RequestStep(r, m) => RequestRing(cfg, s, r, m);
      case FlightStep(id, m) =>
        if m.StoreVerdict? { StoreVerdictRing(cfg, s, id); } else { FlightRing(cfg, s, id, m); }
    }
  }

  /** In every run the ring's tags are pairwise distinct and none is the positive tag. */
  lemma RingNeverRepeats(cfg: Config, actions: seq<Action>)
    requires WellFormed(cfg) && Run(cfg, actions).Some?
    ensures var m := Run(cfg, actions).value.memo;
            && Distinct(m.negative)
            && (m.positive.Some? ==> !Rings(m.negative, m.positive.value.tag))
  {
    RunRing(cfg, actions);
    RunKept(cfg, actions);
    var m := Run(cfg, actions).value.memo;
    if m.positive.Some? && Rings(m.negative, m.positive.value.tag) {
      var tag := m.positive.value.tag;
      var c :| c in cfg.creds && TagOf(cfg, c) == Some(tag) && Admits(cfg, c);
      SettledVerdict(cfg, c, tag, false);
    }
  }
}
