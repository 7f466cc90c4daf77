/**
 * The verifier's shared state updated in place: `Shared` and its locked operations,
 * each proved to be the protocol moves it stands for.
 */
module VerifierShared {
  import opened Common
  import opened VerificationMemo
  import opened VerifierProtocol
  import opened VerifierInvariants

  /** What inspecting the gate decided; `Hold` and `Wait` name the flight. */
  datatype Claim = Allowed | Denied | Hold(id: nat) | Wait(id: nat) | Occupied

  function ClaimOf(pc: Pc): Claim {
    match pc
    case Done(v, _) => if v == Allow then Allowed else Denied
    case Holding(id) => Hold(id)
    case Reading(id) => Wait(id)
    case _ => Occupied
  }

  /** The moves of one `claim_slot`: inspect, and on a free gate recheck and install. */
  function Claimed(cfg: Config, s: State, r: nat): State
    requires r < |s.reqs| && RequestEnabled(s, r, Inspect)
  {
    var a := AfterInspect(cfg, s, r);
    if s.slot.InFlight? then a
    else
      var b := if cfg.keyed then AfterRequest(cfg, a, r, Recheck) else a;
      if b.reqs[r].pc.Installing? then AfterInstall(cfg, b, r) else b
  }

  /** The shared fields of two states are the same. */
  ghost predicate SameShared(s: State, t: State) {
    s.slot == t.slot && s.freed == t.freed && |s.flights| == |t.flights| && s.refusals == t.refusals && s.lock == t.lock
  }

  lemma ClaimedBusy(cfg: Config, s: State, r: nat)
    requires r < |s.reqs| && RequestEnabled(s, r, Inspect) && s.slot.InFlight?
    ensures var t := Claimed(cfg, s, r);
            && SameShared(s, t) && t.memo == s.memo && |t.reqs| == |s.reqs|
            && ClaimOf(t.reqs[r].pc) ==
                 if TagMatches(s.slot.tag, TagOf(cfg, s.reqs[r].cred)) then Wait(s.slot.id) else Occupied
  {
  }

  lemma ClaimedFree(cfg: Config, s: State, r: nat)
    requires r < |s.reqs| && RequestEnabled(s, r, Inspect) && s.slot.Free?
    ensures var t, tag := Claimed(cfg, s, r), TagOf(cfg, s.reqs[r].cred);
            var found := if tag.None? then Miss else Answer(s.memo, tag.value, s.now);
            && |t.reqs| == |s.reqs|
            && t.memo == (if tag.None? then s.memo else AfterLookup(s.memo, tag.value, s.now))
            && match found
               case Hit => SameShared(s, t) && ClaimOf(t.reqs[r].pc) == Allowed
               case NegativeHit => SameShared(s, t) && ClaimOf(t.reqs[r].pc) == Denied
               case Miss =>
                 && ClaimOf(t.reqs[r].pc) == Hold(|s.flights|) && t.slot == InFlight(|s.flights|, tag)
                 && |t.flights| == |s.flights| + 1 && t.freed == s.freed && t.refusals == s.refusals && t.lock.None?
  {
  }

  /** The moves of one `release_slot`: clear, and announce if it was cleared. */
  function Released(cfg: Config, s: State, id: nat): State
    requires id < |s.flights| && FlightEnabled(s, id, ClearSlot)
  {
    var a := AfterFlight(cfg, s, id, ClearSlot);
    if a.flights[id].guard.Cleared? then AfterFlight(cfg, a, id, Announce) else a
  }

  /** The moves of one `run_kdf` whose KDF returns. */
  function Verified(cfg: Config, s: State, id: nat): State
    requires id < |s.flights| && FlightEnabled(s, id, StartKdf)
  {
    var a := AfterFlight(cfg, s, id, StartKdf);
    var b := AfterFlight(cfg, a, id, FinishKdf);
    var c := AfterFlight(cfg, b, id, StoreVerdict);
    AfterFlight(cfg, c, id, Publish)
  }

  class Shared {
    const cfg: Config
    const memo: Memo
    var slot: Slot
    var freed: nat
    var nextId: nat
    var refusals: nat

    constructor (cfg: Config)
      ensures this.cfg == cfg && fresh(memo) && Mirrors(INITIAL)
    {
      this.cfg := cfg;
      memo := new Memo();
      slot, freed, nextId, refusals := Free, 0, 0, 0;
    }

    /** The fields are the shared part of protocol state `s`, between two locked sections. */
    ghost predicate Mirrors(s: State)
      reads this, memo
    {
      s.slot == slot && s.memo == memo.Value() && s.freed == freed && |s.flights| == nextId && s.refusals == refusals && s.lock.None?
    }

    method Lookup(ghost s: State, ghost r: nat, tag: Tag, now: nat) returns (found: Found)
      requires Mirrors(s) && r < |s.reqs| && s.reqs[r].pc.Arrived? && TagOf(cfg, s.reqs[r].cred) == Some(tag) && s.now == now
      modifies memo
      ensures Mirrors(AfterRequest(cfg, s, r, FastLookup))
      ensures AfterRequest(cfg, s, r, FastLookup).reqs[r].pc ==
                match found case Hit => Done(Allow, FromMemo) case NegativeHit => Done(Deny, FromMemo) case Miss => Missed
    {
      found := memo.Lookup(tag, now);
    }

    method ClaimSlot(ghost s: State, ghost r: nat, tag: Option<Tag>, now: nat) returns (claim: Claim)
      requires Mirrors(s) && r < |s.reqs| && RequestEnabled(s, r, Inspect)
      requires TagOf(cfg, s.reqs[r].cred) == tag && s.now == now
      modifies this`slot, this`nextId, memo
      ensures Mirrors(Claimed(cfg, s, r))
      ensures claim == ClaimOf(Claimed(cfg, s, r).reqs[r].pc)
    {
      if slot.InFlight? {
        ClaimedBusy(cfg, s, r);
        return if TagMatches(slot.tag, tag) then Wait(slot.id) else Occupied;
      }
      ClaimedFree(cfg, s, r);
      if tag.Some? {
        var found := memo.Lookup(tag.value, now);
        if found == Hit {
          return Allowed;
        }
        if found == NegativeHit {
          return Denied;
        }
      }
      var id := nextId;
      nextId := nextId + 1;
      slot := InFlight(id, tag);
      return Hold(id);
    }

    method ReleaseSlot(ghost s: State, id: nat)
      requires Mirrors(s) && id < |s.flights| && FlightEnabled(s, id, ClearSlot)
      modifies this`slot, this`freed
      ensures Mirrors(Released(cfg, s, id))
    {
      var cleared := slot.InFlight? && slot.id == id;
      if cleared {
        slot := Free;
      }
      if cleared {
        freed := freed + 1;
      }
    }

    /** The judgement that refuses a request counts it. */
    method NoteRefusal(ghost s: State, ghost r: nat)
      requires Mirrors(s) && r < |s.reqs| && RequestEnabled(s, r, Judge)
      requires Since(s.now, s.reqs[r].pc.started) >= cfg.gateWait
      modifies this`refusals
      ensures Mirrors(AfterRequest(cfg, s, r, Judge)) && refusals == old(refusals) + 1
    {
      refusals := refusals + 1;
    }

    /** Computes the verdict, stores it and publishes it, in this order. */
    method RunKdf(ghost s: State, id: nat, cred: Credential, tag: Option<Tag>, now: nat) returns (ok: bool)
      requires Mirrors(s) && Inv(cfg, s) && WellFormed(cfg) && s.now == now
      requires id < |s.flights| && FlightEnabled(s, id, StartKdf) && s.flights[id].cred == cred && s.flights[id].tag == tag
      modifies memo
      ensures Mirrors(Verified(cfg, s, id))
      ensures ok == Admits(cfg, cred)
      ensures Verified(cfg, s, id).flights[id].value == Some(ok)
    {
      var usernameOk := cfg.digest(cred.username) == cfg.digest(cfg.username);
      var kdfOk := cfg.kdf(cred.password, cfg.phc);
      ok := usernameOk && kdfOk && cfg.hashUsable;
      assert FlightOk(cfg, s, id);
      if tag.Some? {
        memo.Store(tag.value, ok, now);
      }
    }
  }
}
