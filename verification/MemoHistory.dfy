/**
 * The memo against a plain history of what was stored and looked up: the slot, the
 * ring and the eager expiry answer what the history alone would answer.
 */
module MemoHistory {
  import opened Common
  import opened VerificationMemo

  datatype Event =
    | Stored(tag: Tag, ok: bool, at: nat)
    | Looked(tag: Tag, at: nat)

  type History = seq<Event>

  function Apply(m: MemoState, e: Event): MemoState {
    match e
    case Stored(tag, ok, at) => AfterStore(m, tag, ok, at)
    case Looked(tag, at) => AfterLookup(m, tag, at)
  }

  /** What the events leave of the memo `m`. */
  function From(m: MemoState, h: History): MemoState {
    if h == [] then m else Apply(From(m, h[..|h| - 1]), h[|h| - 1])
  }

  function Replay(h: History): MemoState {
    From(EMPTY, h)
  }

  /** The times are monotone and none is after `now`. */
  ghost predicate Monotone(h: History, now: nat) {
    && (forall i, j :: 0 <= i <= j < |h| ==> h[i].at <= h[j].at)
    && (forall i :: 0 <= i < |h| ==> h[i].at <= now)
  }

  // --- what the history says -------------------------------------------------

  ghost predicate Positive(h: History, i: int) {
    0 <= i < |h| && h[i].Stored? && h[i].ok
  }

  ghost predicate LatestPositive(h: History, p: int) {
    Positive(h, p) && forall i :: p < i ==> !Positive(h, i)
  }

  /** An event at or after `p` that presents the tag proved at `p`. */
  ghost predicate Touch(h: History, p: int, i: int) {
    0 <= p <= i < |h| && h[i].tag == h[p].tag && (i == p || h[i].Looked?)
  }

  /** After touch `i` the tag proved at `p` was not presented again within the idle TTL. */
  ghost predicate IdleGap(h: History, p: int, i: int, now: nat) {
    && Touch(h, p, i)
    && Since(now, h[i].at) >= POSITIVE_IDLE_TTL
    && forall j :: i < j && Touch(h, p, j) ==> Since(h[j].at, h[i].at) >= POSITIVE_IDLE_TTL
  }

  ghost predicate Proved(h: History, tag: Tag, now: nat) {
    exists p :: LatestPositive(h, p) && h[p].tag == tag && forall i :: !IdleGap(h, p, i, now)
  }

  /** Every negative verdict ever stored, oldest first. */
  ghost function Refutations(h: History): seq<Entry> {
    if h == [] then []
    else
      var e := h[|h| - 1];
      Refutations(h[..|h| - 1]) + if e.Stored? && !e.ok then [Entry(e.tag, e.at)] else []
  }

  /** The tag is among the last `NEGATIVE_CAP` refuted ones, and young. */
  ghost predicate Refuted(h: History, tag: Tag, now: nat) {
    var all := Refutations(h);
    exists i :: 0 <= i < |all| && |all| - NEGATIVE_CAP <= i && all[i].tag == tag && Since(now, all[i].at) < NEGATIVE_TTL
  }

  ghost function Verdict(h: History, tag: Tag, now: nat): Found {
    if Proved(h, tag, now) then Hit else if Refuted(h, tag, now) then NegativeHit else Miss
  }

  // --- the positive slot -----------------------------------------------------

  /** Touch `j` was followed by another within the idle TTL. */
  ghost predicate Bridged(h: History, p: int, j: int) {
    0 <= j < |h| && exists k :: j < k && Touch(h, p, k) && Since(h[k].at, h[j].at) < POSITIVE_IDLE_TTL
  }

  /** The latest positive is `p`, `i` is the last touch of its tag and no earlier touch was left idle. */
  ghost predicate Held(h: History, e: Entry, p: int, i: int) {
    && LatestPositive(h, p) && h[p].tag == e.tag
    && Touch(h, p, i) && h[i].at == e.at
    && (forall j :: i < j ==> !Touch(h, p, j))
    && (forall j :: j < i && Touch(h, p, j) ==> Bridged(h, p, j))
  }

  ghost predicate Lapsed(h: History, p: int, now: nat) {
    exists i :: IdleGap(h, p, i, now)
  }

  /** The slot holds the latest positive and its last touch, or its idle TTL has run out. */
  ghost predicate SlotAgrees(h: History, slot: Option<Entry>, now: nat) {
    match slot
    case None => forall p :: LatestPositive(h, p) ==> Lapsed(h, p, now)
    case Some(e) => exists p, i :: Held(h, e, p, i)
  }

  lemma SlotAfterPositive(h: History, e: Event)
    requires e.Stored? && e.ok
    ensures SlotAgrees(h + [e], Some(Entry(e.tag, e.at)), e.at)
  {
    var g := h + [e];
    assert Positive(g, |h|);
    assert Held(g, Entry(e.tag, e.at), |h|, |h|);
  }

  /** An event that proves nothing leaves the latest positive and the older touches alone. */
  lemma SameEarlier(h: History, e: Event, p: int)
    requires !(e.Stored? && e.ok)
    ensures LatestPositive(h + [e], p) <==> LatestPositive(h, p)
  {
    var g := h + [e];
    assert forall i :: Positive(g, i) <==> Positive(h, i);
  }

  lemma SameTouch(h: History, e: Event, p: int, i: int)
    requires 0 <= p < |h| && i < |h|
    ensures Touch(h + [e], p, i) <==> Touch(h, p, i)
  {
  }

  lemma GapStays(h: History, e: Event, p: int, i: int)
    requires Monotone(h + [e], e.at)
    requires IdleGap(h, p, i, e.at)
    ensures IdleGap(h + [e], p, i, e.at)
  {
    var g := h + [e];
    forall j | i < j && Touch(g, p, j) ensures Since(g[j].at, g[i].at) >= POSITIVE_IDLE_TTL {
      if j < |h| { assert Touch(h, p, j); }
    }
  }

  lemma StillEmpty(h: History, e: Event)
    requires Monotone(h + [e], e.at) && !(e.Stored? && e.ok)
    requires SlotAgrees(h, None, e.at)
    ensures SlotAgrees(h + [e], None, e.at)
  {
    var g := h + [e];
    forall p | LatestPositive(g, p) ensures Lapsed(g, p, e.at) {
      SameEarlier(h, e, p);
      var i :| IdleGap(h, p, i, e.at);
      GapStays(h, e, p, i);
    }
  }

  lemma OneLatest(h: History, p: int, q: int)
    requires LatestPositive(h, p) && LatestPositive(h, q)
    ensures p == q
  {
  }

  lemma SlotRunsOut(h: History, e: Event, held: Entry, p: int, i: int)
    requires Monotone(h + [e], e.at) && !(e.Stored? && e.ok)
    requires Held(h, held, p, i) && Since(e.at, held.at) >= POSITIVE_IDLE_TTL
    ensures SlotAgrees(h + [e], None, e.at)
  {
    var g := h + [e];
    assert IdleGap(h, p, i, e.at);
    GapStays(h, e, p, i);
    SameEarlier(h, e, p);
    forall q | LatestPositive(g, q) ensures Lapsed(g, q, e.at) {
      OneLatest(g, p, q);
    }
  }

  lemma BridgeStays(h: History, e: Event, p: int, j: int)
    requires 0 <= p < |h| && 0 <= j < |h| && Bridged(h, p, j)
    ensures Bridged(h + [e], p, j)
  {
    var g := h + [e];
    var k :| j < k && Touch(h, p, k) && Since(h[k].at, h[j].at) < POSITIVE_IDLE_TTL;
    assert Touch(g, p, k) && g[k] == h[k];
  }

  lemma SlotRefreshed(h: History, e: Event, held: Entry, p: int, i: int)
    requires Held(h, held, p, i) && Since(e.at, held.at) < POSITIVE_IDLE_TTL
    requires e.Looked? && e.tag == held.tag
    ensures Held(h + [e], Entry(e.tag, e.at), p, |h|)
  {
    var g := h + [e];
    SameEarlier(h, e, p);
    assert Touch(g, p, |h|);
    forall j | j < |h| && Touch(g, p, j) ensures Bridged(g, p, j) {
      assert Touch(h, p, j);
      if j < i { BridgeStays(h, e, p, j); } else { assert j == i; }
    }
  }

  lemma SlotUntouched(h: History, e: Event, held: Entry, p: int, i: int)
    requires Held(h, held, p, i)
    requires !(e.Stored? && e.ok) && !(e.Looked? && e.tag == held.tag)
    ensures Held(h + [e], held, p, i)
  {
    var g := h + [e];
    SameEarlier(h, e, p);
    forall j | j < i && Touch(g, p, j) ensures Bridged(g, p, j) {
      assert Touch(h, p, j);
      BridgeStays(h, e, p, j);
    }
    forall j | i < j ensures !Touch(g, p, j) {
      if j < |h| { SameTouch(h, e, p, j); }
    }
  }

  lemma SlotAfterOther(h: History, e: Event, m: MemoState)
    requires Monotone(h + [e], e.at)
    requires !(e.Stored? && e.ok)
    requires SlotAgrees(h, m.positive, e.at)
    ensures SlotAgrees(h + [e], Apply(m, e).positive, e.at)
  {
    match m.positive
    case None =>
      StillEmpty(h, e);
    case Some(held) =>
      var p, i :| Held(h, held, p, i);
      if Since(e.at, held.at) >= POSITIVE_IDLE_TTL {
        SlotRunsOut(h, e, held, p, i);
      } else if e.Looked? && e.tag == held.tag {
        SlotRefreshed(h, e, held, p, i);
      } else {
        SlotUntouched(h, e, held, p, i);
      }
  }

  // --- the negative ring -----------------------------------------------------

  ghost predicate Sorted(ring: seq<Entry>) {
    forall i, j :: 0 <= i <= j < |ring| ==> ring[i].at <= ring[j].at
  }

  ghost predicate Old(ring: seq<Entry>, i: nat, now: nat) {
    i < |ring| && Since(now, ring[i].at) >= NEGATIVE_TTL
  }

  /** A ring of old entries expires as a whole. */
  lemma {:induction false} NothingYoung(ring: seq<Entry>, now: nat)
    requires forall i :: 0 <= i < |ring| ==> Old(ring, i, now)
    ensures Retain(ring, now) == []
  {
    if ring != [] {
      var front := ring[..|ring| - 1];
      assert Old(ring, |ring| - 1, now);
      forall i | 0 <= i < |front| ensures Old(front, i, now) { assert Old(ring, i, now); }
      NothingYoung(front, now);
    }
  }

  /** Expiry of a sorted ring drops a prefix of it. */
  lemma {:induction false} RetainIsSuffix(ring: seq<Entry>, now: nat) returns (d: nat)
    requires Sorted(ring)
    ensures d <= |ring| && Retain(ring, now) == ring[d..]
    ensures forall i :: 0 <= i < d ==> Old(ring, i, now)
    ensures forall i :: d <= i < |ring| ==> !Old(ring, i, now)
  {
    if ring == [] {
      d := 0;
    } else if Old(ring, |ring| - 1, now) {
      d := |ring|;
      NothingYoung(ring, now);
    } else {
      var front, last := ring[..|ring| - 1], ring[|ring| - 1];
      d := RetainIsSuffix(front, now);
      assert forall i :: 0 <= i < |front| ==> (Old(front, i, now) <==> Old(ring, i, now));
      assert ring[d..] == front[d..] + [last];
    }
  }

  /** The ring is the list of refutations from `d` on; what it lacks is old or beyond the capacity. */
  ghost predicate TailFrom(all: seq<Entry>, ring: seq<Entry>, now: nat, d: nat) {
    && d <= |all| && ring == all[d..] && |ring| <= NEGATIVE_CAP
    && forall i :: 0 <= i < d ==> i < |all| - NEGATIVE_CAP || Old(all, i, now)
  }

  ghost predicate RingIsTail(all: seq<Entry>, ring: seq<Entry>, now: nat) {
    exists d: nat :: TailFrom(all, ring, now, d)
  }

  lemma TailAfterExpiry(all: seq<Entry>, ring: seq<Entry>, now: nat)
    requires Sorted(all) && RingIsTail(all, ring, now)
    ensures RingIsTail(all, Retain(ring, now), now)
  {
    var d: nat :| TailFrom(all, ring, now, d);
    assert Sorted(ring) by {
      forall i, j | 0 <= i <= j < |ring| ensures ring[i].at <= ring[j].at {
        assert ring[i] == all[d + i] && ring[j] == all[d + j];
      }
    }
    var c := RetainIsSuffix(ring, now);
    assert ring[c..] == all[d + c..];
    forall i | 0 <= i < d + c ensures i < |all| - NEGATIVE_CAP || Old(all, i, now) {
      if i >= d { assert Old(ring, i - d, now) && ring[i - d] == all[i]; }
    }
    assert TailFrom(all, ring[c..], now, d + c);
  }

  lemma TailAfterPush(all: seq<Entry>, ring: seq<Entry>, e: Entry, now: nat)
    requires RingIsTail(all, ring, now)
    ensures RingIsTail(all + [e], LastFew(ring, NEGATIVE_CAP - 1) + [e], now)
  {
    var d: nat :| TailFrom(all, ring, now, d);
    var few := LastFew(ring, NEGATIVE_CAP - 1);
    var c := |all| - |few|;
    assert few == all[c..];
    assert few + [e] == (all + [e])[c..];
    forall i | 0 <= i < c ensures i < |all + [e]| - NEGATIVE_CAP || Old(all + [e], i, now) {
      if i < d { assert i < |all| - NEGATIVE_CAP || Old(all, i, now); }
    }
    assert TailFrom(all + [e], few + [e], now, c);
  }

  lemma TailLater(all: seq<Entry>, ring: seq<Entry>, before: nat, now: nat)
    requires RingIsTail(all, ring, before) && before <= now
    ensures RingIsTail(all, ring, now)
  {
    var d: nat :| TailFrom(all, ring, before, d);
    forall i | 0 <= i < d ensures i < |all| - NEGATIVE_CAP || Old(all, i, now) {
      assert i < |all| - NEGATIVE_CAP || Old(all, i, before);
    }
    assert TailFrom(all, ring, now, d);
  }

  lemma SlotLater(h: History, slot: Option<Entry>, before: nat, now: nat)
    requires SlotAgrees(h, slot, before) && before <= now
    ensures SlotAgrees(h, slot, now)
  {
    if slot.None? {
      forall p | LatestPositive(h, p) ensures Lapsed(h, p, now) {
        var i :| IdleGap(h, p, i, before);
        assert IdleGap(h, p, i, now);
      }
    }
  }

  lemma {:induction false} RefutationsSorted(h: History, now: nat)
    requires Monotone(h, now)
    ensures Sorted(Refutations(h))
    ensures forall i :: 0 <= i < |Refutations(h)| ==> Refutations(h)[i].at <= now
  {
    if h != [] {
      RefutationsSorted(h[..|h| - 1], h[|h| - 1].at);
    }
  }

  // --- the refinement --------------------------------------------------------

  ghost predicate Agrees(h: History, m: MemoState, now: nat) {
    && SlotAgrees(h, m.positive, now)
    && RingIsTail(Refutations(h), m.negative, now)
  }

  lemma RingAfter(h: History, e: Event, m: MemoState)
    requires Sorted(Refutations(h)) && RingIsTail(Refutations(h), m.negative, e.at)
    ensures RingIsTail(Refutations(h + [e]), Apply(m, e).negative, e.at)
  {
    var all, g := Refutations(h), h + [e];
    assert g[..|g| - 1] == h && g[|g| - 1] == e;
    if e.Stored? && e.ok {
      assert Refutations(g) == all + [] == all;
    } else {
      TailAfterExpiry(all, m.negative, e.at);
      if e.Stored? {
        TailAfterPush(all, Retain(m.negative, e.at), Entry(e.tag, e.at), e.at);
      } else {
        assert Refutations(g) == all + [] == all;
      }
    }
  }

  lemma SlotAfter(h: History, e: Event, m: MemoState)
    requires Monotone(h + [e], e.at) && SlotAgrees(h, m.positive, e.at)
    ensures SlotAgrees(h + [e], Apply(m, e).positive, e.at)
  {
    if e.Stored? && e.ok {
      SlotAfterPositive(h, e);
    } else {
      SlotAfterOther(h, e, m);
    }
  }

  lemma {:induction false} ReplayAgrees(h: History, now: nat)
    requires Monotone(h, now)
    ensures Agrees(h, Replay(h), now)
  {
    if h == [] {
      assert TailFrom([], [], now, 0);
    } else {
      var g, e := h[..|h| - 1], h[|h| - 1];
      assert g + [e] == h;
      ReplayAgrees(g, e.at);
      RefutationsSorted(g, e.at);
      SlotAfter(g, e, Replay(g));
      RingAfter(g, e, Replay(g));
      SlotLater(h, Replay(h).positive, e.at, now);
      TailLater(Refutations(h), Replay(h).negative, e.at, now);
    }
  }

  lemma HitMeansProved(h: History, m: MemoState, tag: Tag, now: nat)
    requires SlotAgrees(h, m.positive, now)
    ensures Answer(m, tag, now) == Hit <==> Proved(h, tag, now)
  {
    match m.positive
    case None =>
    case Some(held) =>
      var p, i :| Held(h, held, p, i);
      forall q | LatestPositive(h, q) ensures q == p { OneLatest(h, p, q); }
      if Since(now, held.at) >= POSITIVE_IDLE_TTL {
        assert IdleGap(h, p, i, now);
      } else {
        forall j ensures !IdleGap(h, p, j, now) {
          if Touch(h, p, j) && j < i { assert Bridged(h, p, j); }
        }
      }
  }

  lemma RefutedMeansKept(h: History, kept: seq<Entry>, tag: Tag, now: nat)
    requires RingIsTail(Refutations(h), kept, now) && Refuted(h, tag, now)
    ensures Rings(kept, tag)
  {
    var all := Refutations(h);
    var d: nat :| TailFrom(all, kept, now, d);
    var i :| 0 <= i < |all| && |all| - NEGATIVE_CAP <= i && all[i].tag == tag && Since(now, all[i].at) < NEGATIVE_TTL;
    assert !Old(all, i, now);
    assert kept[i - d] == all[i];
  }

  lemma KeptMeansRefuted(h: History, ring: seq<Entry>, tag: Tag, now: nat)
    requires RingIsTail(Refutations(h), Retain(ring, now), now) && Rings(Retain(ring, now), tag)
    ensures Refuted(h, tag, now)
  {
    var all, kept := Refutations(h), Retain(ring, now);
    var d: nat :| TailFrom(all, kept, now, d);
    var i: nat :| 0 <= i < |kept| && kept[i].tag == tag;
    KeptAreYoung(ring, now, i);
    assert all[d + i] == kept[i];
  }

  lemma RingMeansRefuted(h: History, ring: seq<Entry>, tag: Tag, now: nat)
    requires Sorted(Refutations(h)) && RingIsTail(Refutations(h), ring, now)
    ensures Rings(Retain(ring, now), tag) <==> Refuted(h, tag, now)
  {
    var all, kept := Refutations(h), Retain(ring, now);
    TailAfterExpiry(all, ring, now);
    if Refuted(h, tag, now) {
      RefutedMeansKept(h, kept, tag, now);
    }
    if Rings(kept, tag) {
      KeptMeansRefuted(h, ring, tag, now);
    }
  }

  lemma {:induction false} KeptAreYoung(ring: seq<Entry>, now: nat, i: nat)
    requires i < |Retain(ring, now)|
    ensures Since(now, Retain(ring, now)[i].at) < NEGATIVE_TTL
    ensures Retain(ring, now)[i] in ring
  {
    var front := ring[..|ring| - 1];
    if i < |Retain(front, now)| {
      KeptAreYoung(front, now, i);
    }
  }

  /**
   * The refinement: on every history with a monotone clock the memo answers what the
   * plain history says. A tag hits iff it was the last one proved and never went idle
   * for the TTL; otherwise it hits negatively iff it is one of the last eight refuted
   * and is young.
   */
  lemma MemoRefinesHistory(h: History, tag: Tag, now: nat)
    requires Monotone(h, now)
    ensures Answer(Replay(h), tag, now) == Verdict(h, tag, now)
  {
    ReplayAgrees(h, now);
    RefutationsSorted(h, now);
    HitMeansProved(h, Replay(h), tag, now);
    RingMeansRefuted(h, Replay(h).negative, tag, now);
  }

  /** The ring stays sorted and within its capacity, whatever the history. */
  lemma RingStaysBounded(h: History, now: nat)
    requires Monotone(h, now)
    ensures |Replay(h).negative| <= NEGATIVE_CAP && Sorted(Replay(h).negative)
  {
    ReplayAgrees(h, now);
    RefutationsSorted(h, now);
  }

  lemma {:induction false} RetainTwice(ring: seq<Entry>, early: nat, now: nat)
    requires early <= now
    ensures Retain(Retain(ring, early), now) == Retain(ring, now)
  {
    if ring != [] {
      var front, last := ring[..|ring| - 1], ring[|ring| - 1];
      RetainTwice(front, early, now);
      if Since(early, last.at) < NEGATIVE_TTL {
        assert Retain(ring, early)[..|Retain(ring, early)| - 1] == Retain(front, early);
      }
    }
  }

  predicate LiveFor(slot: Option<Entry>, tag: Tag, now: nat) {
    slot.Some? && slot.value.tag == tag && Since(now, slot.value.at) < POSITIVE_IDLE_TTL
  }

  /** From `now` on the two memos cannot be told apart by presenting `tag`. */
  predicate Alike(a: MemoState, b: MemoState, tag: Tag, now: nat) {
    && Retain(a.negative, now) == Retain(b.negative, now)
    && (LiveFor(a.positive, tag, now) || LiveFor(b.positive, tag, now) ==> a.positive == b.positive)
  }

  lemma AlikeLater(a: MemoState, b: MemoState, tag: Tag, early: nat, now: nat)
    requires Alike(a, b, tag, early) && early <= now
    ensures Alike(a, b, tag, now)
  {
    RetainTwice(a.negative, early, now);
    RetainTwice(b.negative, early, now);
  }

  lemma AlikeAfter(a: MemoState, b: MemoState, tag: Tag, e: Event)
    requires Alike(a, b, tag, e.at)
    ensures Alike(Apply(a, e), Apply(b, e), tag, e.at)
  {
    match e
    case Looked(_, _) => assert Apply(a, e).negative == Apply(b, e).negative;
    case Stored(_, ok, _) => assert !ok ==> Apply(a, e).negative == Apply(b, e).negative;
  }

  /** The times of the continuation start at `early`, are monotone and end by `now`. */
  ghost predicate Continues(h: History, early: nat, now: nat) {
    Monotone(h, now) && early <= now && forall i :: 0 <= i < |h| ==> early <= h[i].at
  }

  lemma {:induction false} AlikeThroughout(a: MemoState, b: MemoState, tag: Tag, early: nat, h: History, now: nat)
    requires Alike(a, b, tag, early) && Continues(h, early, now)
    ensures Alike(From(a, h), From(b, h), tag, now)
  {
    if h == [] {
      AlikeLater(a, b, tag, early, now);
    } else {
      var g, e := h[..|h| - 1], h[|h| - 1];
      AlikeThroughout(a, b, tag, early, g, e.at);
      AlikeAfter(From(a, g), From(b, g), tag, e);
      AlikeLater(From(a, h), From(b, h), tag, e.at, now);
    }
  }

  /**
   * Expiring eagerly never changes an answer: not the next one, and not any later one
   * after whatever is stored and looked up in between.
   */
  lemma EagerExpiryIsInvisible(m: MemoState, tag: Tag, early: nat, h: History, now: nat)
    requires Continues(h, early, now)
    ensures Answer(From(Expired(m, early), h), tag, now) == Answer(From(m, h), tag, now)
  {
    RetainTwice(m.negative, early, early);
    AlikeThroughout(Expired(m, early), m, tag, early, h, now);
  }

  /** A lookup of another tag never changes an answer, however much later. */
  lemma OtherLookupsAreInvisible(m: MemoState, tag: Tag, other: Tag, early: nat, h: History, now: nat)
    requires Continues(h, early, now) && other != tag
    ensures Answer(From(AfterLookup(m, other, early), h), tag, now) == Answer(From(m, h), tag, now)
  {
    RetainTwice(m.negative, early, early);
    AlikeThroughout(AfterLookup(m, other, early), m, tag, early, h, now);
  }

  /**
   * It can change a state: a positive verdict is stored without expiring anything, so
   * the ring keeps an old entry that an eager expiry has dropped.
   */
  lemma EagerExpiryShowsInTheRing(tag: Tag, proved: Tag)
    ensures var m := MemoState(None, [Entry(tag, 0)]);
            AfterStore(Expired(m, NEGATIVE_TTL), proved, true, NEGATIVE_TTL) != AfterStore(m, proved, true, NEGATIVE_TTL)
  {
    assert Retain([Entry(tag, 0)], NEGATIVE_TTL) == [];
  }

  // --- in seconds ------------------------------------------------------------

  const SECOND: nat := 1_000_000_000

  /** A proved credential is remembered for fifteen idle minutes. */
  lemma ProvedLifetime(tag: Tag, at: nat, age: nat)
    ensures Answer(AfterStore(EMPTY, tag, true, at), tag, at + age) == if age < 15 * 60 * SECOND then Hit else Miss
  {
    assert Retain([], at + age) == [];
  }

  /** A refuted one is remembered for five seconds. */
  lemma RefutedLifetime(tag: Tag, at: nat, age: nat)
    ensures Answer(AfterStore(EMPTY, tag, false, at), tag, at + age) == if age < 5 * SECOND then NegativeHit else Miss
  {
    var ring := [Entry(tag, at)];
    assert AfterStore(EMPTY, tag, false, at) == MemoState(None, ring);
    OneEntry(tag, at, age);
    assert Rings(ring, tag) by { assert ring[0].tag == tag; }
  }

  lemma OneEntry(tag: Tag, at: nat, age: nat)
    ensures Retain([Entry(tag, at)], at + age) == if age < NEGATIVE_TTL then [Entry(tag, at)] else []
  {
    assert [Entry(tag, at)][..0] == [];
  }

  lemma {:induction false} OnlyRefutations(h: History)
    requires forall i :: 0 <= i < |h| ==> h[i].Stored? && !h[i].ok
    ensures |Refutations(h)| == |h| && forall i :: 0 <= i < |h| ==> Refutations(h)[i] == Entry(h[i].tag, h[i].at)
  {
    if h != [] { OnlyRefutations(h[..|h| - 1]); }
  }

  /** A refuted credential is remembered through seven more refutations, and forgotten at the eighth. */
  lemma EightAreRemembered(h: History, at: nat)
    requires h != [] && forall i :: 0 <= i < |h| ==> h[i].Stored? && !h[i].ok && h[i].at == at
    requires forall i :: 0 < i < |h| ==> h[i].tag != h[0].tag
    ensures Answer(Replay(h), h[0].tag, at) == if |h| <= 8 then NegativeHit else Miss
  {
    MemoRefinesHistory(h, h[0].tag, at);
    OnlyRefutations(h);
    assert Refutations(h)[0] == Entry(h[0].tag, at);
  }
}
