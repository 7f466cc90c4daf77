/**
 * The verification memo: one positive slot with a sliding idle TTL and a bounded
 * ring of negative tags. `MemoState` and its functions specify the in-place `Memo`.
 */
module VerificationMemo {
  import opened Common

  type Tag = Bytes

  /** Instants are nanoseconds on one clock. */
  const POSITIVE_IDLE_TTL: nat := 900_000_000_000
  const NEGATIVE_TTL: nat := 5_000_000_000
  const NEGATIVE_CAP: nat := 8

  datatype Found = Hit | NegativeHit | Miss

  datatype Entry = Entry(tag: Tag, at: nat)

  datatype MemoState = MemoState(positive: Option<Entry>, negative: seq<Entry>)

  const EMPTY := MemoState(None, [])

  /** `Instant::saturating_duration_since`. */
  function Since(now: nat, earlier: nat): nat {
    if now >= earlier then now - earlier else 0
  }

  function Retain(ring: seq<Entry>, now: nat): (r: seq<Entry>)
    ensures |r| <= |ring|
  {
    if ring == [] then []
    else
      var rest := Retain(ring[..|ring| - 1], now);
      if Since(now, ring[|ring| - 1].at) < NEGATIVE_TTL then rest + [ring[|ring| - 1]] else rest
  }

  function Expired(m: MemoState, now: nat): MemoState {
    MemoState(
      if m.positive.Some? && Since(now, m.positive.value.at) >= POSITIVE_IDLE_TTL then None else m.positive,
      Retain(m.negative, now))
  }

  predicate Rings(ring: seq<Entry>, tag: Tag) {
    exists i :: 0 <= i < |ring| && ring[i].tag == tag
  }

  /** What a lookup answers. */
  function Answer(m: MemoState, tag: Tag, now: nat): Found {
    var e := Expired(m, now);
    if e.positive.Some? && e.positive.value.tag == tag then Hit
    else if Rings(e.negative, tag) then NegativeHit
    else Miss
  }

  /** What a lookup leaves behind. */
  function AfterLookup(m: MemoState, tag: Tag, now: nat): MemoState {
    var e := Expired(m, now);
    if e.positive.Some? && e.positive.value.tag == tag then e.(positive := Some(Entry(tag, now))) else e
  }

  function LastFew(ring: seq<Entry>, keep: nat): seq<Entry> {
    if |ring| <= keep then ring else ring[|ring| - keep..]
  }

  /** What storing a verdict leaves behind. A positive verdict does not expire anything. */
  function AfterStore(m: MemoState, tag: Tag, ok: bool, now: nat): MemoState {
    if ok then m.(positive := Some(Entry(tag, now)))
    else
      var e := Expired(m, now);
      e.(negative := LastFew(e.negative, NEGATIVE_CAP - 1) + [Entry(tag, now)])
  }

  class Memo {
    var positive: Option<Entry>
    var negative: seq<Entry>

    ghost function Value(): MemoState
      reads this
    {
      MemoState(positive, negative)
    }

    constructor ()
      ensures Value() == EMPTY
    {
      positive, negative := None, [];
    }

    method Expire(now: nat)
      modifies this
      ensures Value() == Expired(old(Value()), now)
    {
      if positive.Some? && Since(now, positive.value.at) >= POSITIVE_IDLE_TTL {
        positive := None;
      }
      var kept := [];
      for i := 0 to |negative|
        invariant kept == Retain(negative[..i], now)
        invariant negative == old(negative)
        invariant positive == Expired(old(Value()), now).positive
      {
        assert negative[..i + 1][..i] == negative[..i];
        if Since(now, negative[i].at) < NEGATIVE_TTL {
          kept := kept + [negative[i]];
        }
      }
      assert negative[..|negative|] == negative;
      negative := kept;
    }

    /** The scan visits every remaining entry: no early exit. */
    method Lookup(tag: Tag, now: nat) returns (r: Found)
      modifies this
      ensures r == Answer(old(Value()), tag, now)
      ensures Value() == AfterLookup(old(Value()), tag, now)
    {
      Expire(now);
      var positiveHit := positive.Some? && positive.value.tag == tag;
      var negativeHit := false;
      for i := 0 to |negative|
        invariant negativeHit <==> exists j :: 0 <= j < i && negative[j].tag == tag
      {
        negativeHit := negativeHit || negative[i].tag == tag;
      }
      if positiveHit {
        positive := Some(Entry(tag, now));
        return Hit;
      }
      if negativeHit {
        return NegativeHit;
      }
      return Miss;
    }

    method Store(tag: Tag, ok: bool, now: nat)
      modifies this
      ensures Value() == AfterStore(old(Value()), tag, ok, now)
    {
      if ok {
        positive := Some(Entry(tag, now));
        return;
      }
      Expire(now);
      ghost var expired := negative;
      while |negative| >= NEGATIVE_CAP
        invariant |negative| <= |expired|
        invariant |expired| < NEGATIVE_CAP ==> negative == expired
        invariant |expired| >= NEGATIVE_CAP ==> |negative| >= NEGATIVE_CAP - 1
        invariant negative == expired[|expired| - |negative|..]
        invariant positive == Expired(old(Value()), now).positive
      {
        negative := negative[1..];
      }
      negative := negative + [Entry(tag, now)];
    }
  }
}

