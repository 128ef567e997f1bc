/** Whole runs of one tag without a reboot: once locked, the scanner finds every next frame
    in the narrow window, exactly as long as delivery jitter does not meet an epoch border. */
module EpochTracking {
  import opened Machine
  import opened SlotTable
  import opened EpochAuth

  /** A frame of the tag: the tag's uptime when it was signed, the scanner's when it was heard. */
  datatype Emission = Emission(built: nat, heard: int)

  /** How much longer `next` took to be delivered than `prev`; the clocks' offset cancels. */
  function Jitter(prev: Emission, next: Emission): int {
    (next.heard - prev.heard) - (next.built - prev.built)
  }

  /** Frames are heard in the order they were signed, and delays differ by less than a tick. */
  ghost predicate Ordered(prev: Emission, next: Emission) {
    prev.built <= next.built && prev.heard <= next.heard && -TICK_US < Jitter(prev, next) < TICK_US
  }

  /** The tag passes one more epoch border than the scanner counts, and the frame came
      quicker than the one before by more than the gap exceeds whole ticks. */
  ghost predicate BorderMissed(prev: Emission, next: Emission) {
    var gap := next.built - prev.built;
    gap % TICK_US < -Jitter(prev, next) && prev.built % TICK_US + gap % TICK_US >= TICK_US
  }

  ghost predicate InWindow(prev: Emission, next: Emission) {
    EpochOfUs(next.built) in Narrow(LockFor(0, prev), next.heard)
  }

  /** The slot as it is after the scanner has accepted `em`. */
  function LockFor(id: uint16, em: Emission): Slot { Slot(true, id, EpochOfUs(em.built), em.heard) }

  /** Floor division of a sum: the quotients add up, plus the carry. */
  lemma FloorOfSum(a: nat, b: nat)
    ensures (a + b) / TICK_US
         == a / TICK_US + b / TICK_US + if a % TICK_US + b % TICK_US >= TICK_US then 1 else 0
  {
    var q := a / TICK_US + b / TICK_US;
    var r := a % TICK_US + b % TICK_US;
    assert a + b == q * TICK_US + r;
  }

  lemma FloorOfShift(g: nat, e: int)
    requires -TICK_US < e < TICK_US && g + e >= 0
    ensures (g + e) / TICK_US
         == g / TICK_US + if g % TICK_US + e < 0 then -1 else if g % TICK_US + e >= TICK_US then 1 else 0
  {
  }

  /** The epoch of the next frame lies in the narrow window, through the 16-bit wrap, exactly
      when no border is missed. */
  lemma InWindowIffNoBorderMissed(prev: Emission, next: Emission)
    requires prev.heard > 0 && Ordered(prev, next)
    ensures InWindow(prev, next) <==> !BorderMissed(prev, next)
  {
    var gap, e := next.built - prev.built, Jitter(prev, next);
    FloorOfSum(prev.built, gap);
    FloorOfShift(gap, e);
    var epoch, ticks := prev.built / TICK_US, (gap + e) / TICK_US;
    var off := next.built / TICK_US - epoch - ticks;
    assert TruncDiv(next.heard - prev.heard, TICK_US) == ticks;
    assert -1 <= off <= 2 && (off == 2 <==> BorderMissed(prev, next));
    WrappedWindow(epoch, ticks, off);
  }

  lemma WrappedWindow(epoch: nat, ticks: nat, off: int)
    requires -1 <= off <= 2 && epoch + ticks + off >= 0
    ensures var p := U16(U16(epoch) + ticks);
            U16(epoch + ticks + off) in [U16(p - 1), p, U16(p + 1)] <==> off != 2
  {
    var p := U16(U16(epoch) + ticks);
    assert p == U16(epoch + ticks);
    ShiftedWrap(epoch + ticks, off);
    WindowOf(p, off);
  }

  lemma WindowOf(p: uint16, off: int)
    requires -1 <= off <= 2
    ensures U16(p + off) in [U16(p - 1), p, U16(p + 1)] <==> off != 2
  {
  }

  lemma ShiftedWrap(x: nat, off: int)
    requires -1 <= off <= 2
    ensures U16(x + off) == U16(U16(x) + off)
  {
  }

  /** With every frame equally delayed, any gap between frames is followed. */
  lemma EqualDelayFollowsAnyGap(prev: Emission, next: Emission)
    requires prev.heard > 0 && Ordered(prev, next) && Jitter(prev, next) >= 0
    ensures InWindow(prev, next)
  {
    InWindowIffNoBorderMissed(prev, next);
  }

  /** With delays up to `d`, every gap shorter than a tick less `d` is followed. */
  lemma ShortGapIsFollowed(prev: Emission, next: Emission, d: int)
    requires prev.heard > 0 && Ordered(prev, next) && -d <= Jitter(prev, next) <= d < TICK_US
    requires next.built - prev.built < TICK_US - d
    ensures InWindow(prev, next)
  {
    InWindowIffNoBorderMissed(prev, next);
  }

  /** Outside these conditions the window can miss: a frame signed a second before a border and
      delivered a second late, the next signed a tick later and delivered at once. */
  lemma WindowCanMiss()
    ensures var prev, next := Emission(3_599_000_000, 3_600_000_001), Emission(7_200_000_000, 7_200_000_000);
            Ordered(prev, next) && !InWindow(prev, next)
  {
    var prev, next := Emission(3_599_000_000, 3_600_000_001), Emission(7_200_000_000, 7_200_000_000);
    InWindowIffNoBorderMissed(prev, next);
  }

  // ----- runs -----

  /** The frame was signed at `em`. */
  ghost predicate Signed(h: Hmac, f: Frame, em: Emission) {
    f.now == em.heard > 0 && TryEpoch(h, f, EpochOfUs(em.built))
  }

  /** No epoch tried before the frame's own one happens to give its 16-bit MAC. */
  ghost predicate NoEarlierMatch(h: Hmac, f: Frame, em: Emission, es: seq<uint16>) {
    forall j :: 0 <= j < |es| && j < IndexOf(es, EpochOfUs(em.built)) ==> !TryEpoch(h, f, es[j])
  }

  lemma OwnEpochFound(h: Hmac, f: Frame, em: Emission, es: seq<uint16>)
    requires Signed(h, f, em)
    ensures var i := FirstMatch(h, f, es);
            (i >= 0 && es[i] == EpochOfUs(em.built)) <==> (EpochOfUs(em.built) in es && NoEarlierMatch(h, f, em, es))
  {
    var k := IndexOf(es, EpochOfUs(em.built));
    if k >= 0 && NoEarlierMatch(h, f, em, es) { FirstMatchIs(h, f, es, k); }
  }

  datatype Item = Own(f: Frame, em: Emission) | Rejected(f: Frame) | Other(f: Frame)

  /** What the scanner hears of tag `id` after `prev`: its own frames signed and in order, between
      any frames whatever that bear its id but are rejected, and any of other tags. */
  ghost predicate TagRun(h: Hmac, slots: seq<Slot>, id: uint16, prev: Emission, items: seq<Item>)
    decreases |items|
  {
    |items| == 0 ||
    (var slots' := AfterFrame(h, slots, items[0].f);
     match items[0]
     case Own(f, em) =>
       f.tagId == id && Signed(h, f, em) && Ordered(prev, em) && TagRun(h, slots', id, em, items[1..])
     case Rejected(f) => f.tagId == id && Outcome(h, slots, f).None? && TagRun(h, slots', id, prev, items[1..])
     case Other(f) => f.tagId != id && TagRun(h, slots', id, prev, items[1..]))
  }

  /** Between consecutive own frames no border is missed, and no epoch of the narrow window that
      is tried before the frame's own one gives its MAC. */
  ghost predicate Followable(h: Hmac, prev: Emission, items: seq<Item>)
    decreases |items|
  {
    |items| == 0 ||
    match items[0]
    case Own(f, em) =>
      && !BorderMissed(prev, em)
      && NoEarlierMatch(h, f, em, Narrow(LockFor(0, prev), f.now))
      && Followable(h, em, items[1..])
    case _ => Followable(h, prev, items[1..])
  }

  ghost predicate LockedTo(slots: seq<Slot>, id: uint16, em: Emission) {
    em.heard > 0 && SlotOf(slots, id) == Some(LockFor(id, em))
  }

  /** The match is among the three epochs of the narrow window, and it is the frame's own epoch. */
  ghost predicate FoundNarrow(h: Hmac, slots: seq<Slot>, f: Frame, em: Emission) {
    0 <= FirstMatch(h, f, Candidates(slots, f)) < 3 && Outcome(h, slots, f) == Some(EpochOfUs(em.built))
  }

  /** At every own frame the lock describes the previous one and the narrow window finds it. */
  ghost predicate NeverWide(h: Hmac, slots: seq<Slot>, id: uint16, prev: Emission, items: seq<Item>)
    decreases |items|
  {
    |items| == 0 ||
    match items[0]
    case Own(f, em) =>
      && LockedTo(slots, id, prev)
      && FoundNarrow(h, slots, f, em)
      && NeverWide(h, AfterFrame(h, slots, f), id, em, items[1..])
    case _ => NeverWide(h, AfterFrame(h, slots, items[0].f), id, prev, items[1..])
  }

  /** Over every run the lock always describes the last accepted frame and the wide scan is never
      entered, exactly if the run is followable. */
  lemma {:induction false} LockFollowsTagIff(h: Hmac, slots: seq<Slot>, id: uint16, prev: Emission, items: seq<Item>)
    requires LockedTo(slots, id, prev) && TagRun(h, slots, id, prev, items)
    ensures NeverWide(h, slots, id, prev, items) <==> Followable(h, prev, items)
    decreases |items|
  {
    if |items| > 0 {
      var slots' := AfterFrame(h, slots, items[0].f);
      match items[0] {
        case Own(f, em) =>
          NarrowHitIff(h, slots, id, prev, f, em);
          if FoundNarrow(h, slots, f, em) { LockFollowsTagIff(h, slots', id, em, items[1..]); }
        case Rejected(f) =>
          RejectedKeepsLock(h, slots, id, prev, f);
          LockFollowsTagIff(h, slots', id, prev, items[1..]);
        case Other(f) =>
          OtherTagKeepsSlot(h, slots, f, id);
          LockFollowsTagIff(h, slots', id, prev, items[1..]);
      }
    }
  }

  lemma RejectedKeepsLock(h: Hmac, slots: seq<Slot>, id: uint16, prev: Emission, f: Frame)
    requires LockedTo(slots, id, prev) && f.tagId == id && Outcome(h, slots, f).None?
    ensures LockedTo(AfterFrame(h, slots, f), id, prev)
  {
    AllocatedSlot(slots, id);
    OwnSlotAfterFrame(h, slots, f);
  }

  lemma NarrowHitIff(h: Hmac, slots: seq<Slot>, id: uint16, prev: Emission, f: Frame, em: Emission)
    requires LockedTo(slots, id, prev) && f.tagId == id && Signed(h, f, em) && Ordered(prev, em)
    ensures FoundNarrow(h, slots, f, em)
       <==> !BorderMissed(prev, em) && NoEarlierMatch(h, f, em, Narrow(LockFor(0, prev), f.now))
    ensures FoundNarrow(h, slots, f, em) ==> LockedTo(AfterFrame(h, slots, f), id, em)
  {
    var narrow := Narrow(LockFor(0, prev), f.now);
    FoundNarrowMeans(h, slots, id, prev, f, em);
    InWindowIffNoBorderMissed(prev, em);
    OwnEpochFound(h, f, em, narrow);
    if FoundNarrow(h, slots, f, em) { LockMoves(h, slots, id, prev, f, em); }
  }

  lemma FoundNarrowMeans(h: Hmac, slots: seq<Slot>, id: uint16, prev: Emission, f: Frame, em: Emission)
    requires LockedTo(slots, id, prev) && f.tagId == id
    ensures var narrow := Narrow(LockFor(0, prev), f.now);
            var k := FirstMatch(h, f, narrow);
            FoundNarrow(h, slots, f, em) <==> k >= 0 && narrow[k] == EpochOfUs(em.built)
  {
    var es, narrow := Candidates(slots, f), Narrow(LockFor(0, prev), f.now);
    AllocatedSlot(slots, id);
    assert es == narrow + Wide();
    FirstOfWindow(h, f, narrow, Wide());
  }

  lemma LockMoves(h: Hmac, slots: seq<Slot>, id: uint16, prev: Emission, f: Frame, em: Emission)
    requires LockedTo(slots, id, prev) && f.tagId == id && f.now == em.heard > 0
    requires Outcome(h, slots, f) == Some(EpochOfUs(em.built))
    ensures LockedTo(AfterFrame(h, slots, f), id, em)
  {
    AllocatedSlot(slots, id);
    OwnSlotAfterFrame(h, slots, f);
  }

  /** A search finds its match in the first part exactly if a search of that part alone does. */
  lemma FirstOfWindow(h: Hmac, f: Frame, narrow: seq<uint16>, wide: seq<uint16>)
    ensures var i, k := FirstMatch(h, f, narrow + wide), FirstMatch(h, f, narrow);
            if k >= 0 then i == k else i < 0 || i >= |narrow|
  {
    var k := FirstMatch(h, f, narrow);
    if k >= 0 { FirstMatchIs(h, f, narrow + wide, k); }
    var i := FirstMatch(h, f, narrow + wide);
    assert 0 <= i < |narrow| ==> (narrow + wide)[i] == narrow[i];
  }

  /** A signed frame locks its own epoch, when the tag has a slot or one is free, exactly if that
      epoch is among those tried and no epoch tried before it gives the same MAC. In particular a
      tag within 200 epochs of its boot has its epoch among them. */
  lemma FrameLocksIff(h: Hmac, slots: seq<Slot>, f: Frame, em: Emission)
    requires Signed(h, f, em)
    requires SlotOf(slots, f.tagId).Some? || IndexOf(Ids(slots), None) >= 0
    ensures var es := Candidates(slots, f);
            && (LockedTo(AfterFrame(h, slots, f), f.tagId, em) && Outcome(h, slots, f).Some?
                <==> EpochOfUs(em.built) in es && NoEarlierMatch(h, f, em, es))
            && (em.built / TICK_US <= WIDE_MAX ==> EpochOfUs(em.built) in es)
  {
    var es := Candidates(slots, f);
    AllocatedSlot(slots, f.tagId);
    OwnSlotAfterFrame(h, slots, f);
    ClaimPlaces(Ids(slots), f.tagId, f.tagId);
    assert Ids(Allocated(slots, f.tagId)) == Claim(Ids(slots), f.tagId);
    OwnEpochFound(h, f, em, es);
    if em.built / TICK_US <= WIDE_MAX {
      var e: int := EpochOfUs(em.built);
      CandidatesShape(slots, f);
      assert es[|es| - (WIDE_MAX + 1) + e] == e;
    }
  }
}
