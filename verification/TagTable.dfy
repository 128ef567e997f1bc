/** The scanner's table of visible tags: sequence accounting, RSSI filtering and timeouts. */
module TagTable {
  import opened Machine
  import opened SlotTable
  import Kalman

  const MAX_TAGS := 20
  const TAG_TIMEOUT_MS := 5000
  const MAX_SEQ_JUMP := 30

  datatype TagInfo = TagInfo(
    active: bool, battery: uint8, tagId: uint16, txPower: int8, rssiRaw: int8, rssiFiltered: real,
    count: Count, lastSeenMs: uint32, mac: Bytes, lockedEpoch: int)

  /** `last_sequence`, `total_received` and `total_missed`. */
  datatype Count = Count(last: uint8, received: uint32, missed: uint32)

  const BLANK := TagInfo(false, 0, 0, 0, 0, 0.0, Count(0, 0, 0), 0, [], 0)

  /** One decoded advertisement: what `gap_event_handler` passes on. */
  datatype Sighting = Sighting(
    tagId: uint16, battery: uint8, txPower: int8, sequence: uint8, rssi: int8, mac: Bytes,
    epoch: int, now: uint32)

  datatype Event = Seen(s: Sighting) | Sweep(now: uint32)

  datatype Table = Table(tags: seq<TagInfo>, kalman: seq<Kalman.Filter>)

  function Empty(): Table { Table(seq(MAX_TAGS, _ => BLANK), seq(MAX_TAGS, _ => Kalman.ZERO)) }

  // ----- sequence accounting -----

  datatype Verdict = Duplicate | Late | Reset | Forward(skipped: uint8)

  function Classify(last: uint8, sequence: uint8): Verdict {
    if sequence == last then Duplicate
    else
      var diff := I8(sequence - last);
      if -10 < diff < 0 then Late
      else if diff < -10 || diff > MAX_SEQ_JUMP then Reset
      else
        var missed := if sequence != U8(last + 1) && diff > 1 then U8(diff - 1) else 0;
        Forward(if 0 < missed < 200 then missed else 0)
  }

  /** What a frame does to the RSSI filter. */
  datatype Motion = Kept | Moved | Restarted

  /** What a frame does to its tag's counters and filter. */
  datatype Effect = Effect(count: Count, motion: Motion)

  function CountStep(c: Count, sequence: uint8): Count {
    match Classify(c.last, sequence)
    case Duplicate => c.(received := U32(c.received + 1))
    case Late => c
    case Reset => c.(last := sequence, received := U32(c.received + 1))
    case Forward(skipped) => Count(sequence, U32(c.received + 1), U32(c.missed + skipped))
  }

  function MotionOf(v: Verdict): Motion {
    match v
    case Late => Kept
    case Reset => Restarted
    case _ => Moved
  }

  function EffectOf(c: Count, sequence: uint8): Effect {
    Effect(CountStep(c, sequence), MotionOf(Classify(c.last, sequence)))
  }

  /** The rule as the documentation words it: a repeated number is skipped, a step of -10 or
      further back resets, a smaller step back is dropped, a skip is counted as missed. */
  function DocumentedEffect(c: Count, sequence: uint8): Effect {
    var diff := I8(sequence - c.last);
    var received := U32(c.received + 1);
    if diff == 0 then Effect(c, Kept)
    else if diff <= -10 || diff > MAX_SEQ_JUMP then Effect(Count(sequence, received, c.missed), Restarted)
    else if diff < 0 then Effect(c, Kept)
    else Effect(Count(sequence, received, U32(c.missed + diff - 1)), Moved)
  }

  /** The code does what its documentation says on every pair of sequence numbers except a repeated
      one, which it filters and counts, and one exactly ten back, which it accepts as if it were new. */
  lemma EffectMatchesDocumentationIff(c: Count, sequence: uint8)
    ensures EffectOf(c, sequence) == DocumentedEffect(c, sequence)
       <==> sequence != c.last && I8(sequence - c.last) != -10
    ensures sequence == c.last ==> EffectOf(c, sequence) == Effect(c.(received := U32(c.received + 1)), Moved)
    ensures I8(sequence - c.last) == -10
            ==> EffectOf(c, sequence) == Effect(Count(sequence, U32(c.received + 1), c.missed), Moved)
  {
    var diff := I8(sequence - c.last);
    assert diff == 0 <==> sequence == c.last;
    assert diff == 1 <==> sequence == U8(c.last + 1);
  }

  /** The only frames that leave a tag's entry as it was are those one to nine behind; a jump, further
      back or more than thirty ahead, restarts the tracking from it. So the limits hold back no
      sequence number but those nine. */
  lemma EntryUnchangedIff(c: Count, sequence: uint8)
    ensures EffectOf(c, sequence) == Effect(c, Kept) <==> -10 < I8(sequence - c.last) < 0
    ensures I8(sequence - c.last) < -10 || I8(sequence - c.last) > MAX_SEQ_JUMP
            ==> EffectOf(c, sequence) == Effect(Count(sequence, U32(c.received + 1), c.missed), Restarted)
  {
    assert I8(sequence - c.last) == 0 <==> sequence == c.last;
  }

  /** The counters of a tag whose frames carry the true, unbounded counters `ns`. */
  function CountRun(ns: seq<int>): Count
    requires ns != []
  {
    if |ns| == 1 then Count(U8(ns[0]), 1, 0)
    else CountStep(CountRun(ns[..|ns| - 1]), U8(ns[|ns| - 1]))
  }

  /** The true counters that advanced the tag: each is larger than all before it. */
  function Advances(ns: seq<int>): (a: seq<int>)
    requires ns != []
    ensures a != [] && a[0] == ns[0]
  {
    if |ns| == 1 then ns
    else
      var a, n := Advances(ns[..|ns| - 1]), ns[|ns| - 1];
      if n > a[|a| - 1] then a + [n] else a
  }

  function Newest(ns: seq<int>): int
    requires ns != []
  {
    var a := Advances(ns); a[|a| - 1]
  }

  /** The advances are distinct frames of the history: none is counted twice. */
  lemma {:induction false} AdvancesIncrease(ns: seq<int>)
    requires ns != []
    ensures forall i, j :: 0 <= i < j < |Advances(ns)| ==> Advances(ns)[i] < Advances(ns)[j]
    ensures forall i :: 0 <= i < |Advances(ns)| ==> Advances(ns)[i] in ns
  {
    if |ns| > 1 {
      AdvancesIncrease(ns[..|ns| - 1]);
      assert ns == ns[..|ns| - 1] + [ns[|ns| - 1]];
    }
  }

  /** There are no more of them than counters from the first to the newest. */
  lemma {:induction false} AdvancesFit(ns: seq<int>)
    requires ns != []
    ensures 1 <= |Advances(ns)| <= Newest(ns) - ns[0] + 1
  {
    if |ns| > 1 { AdvancesFit(ns[..|ns| - 1]); }
  }

  /** Frames that repeat the newest counter. */
  function Repeats(ns: seq<int>): nat
    requires ns != []
  {
    if |ns| == 1 then 0
    else Repeats(ns[..|ns| - 1]) + if ns[|ns| - 1] == Newest(ns[..|ns| - 1]) then 1 else 0
  }

  /** No frame is ten or more behind the newest counter, or more than thirty ahead of it. */
  ghost predicate Tracked(ns: seq<int>)
    requires ns != []
  {
    |ns| > 1 ==>
      && Tracked(ns[..|ns| - 1])
      && -10 < ns[|ns| - 1] - Newest(ns[..|ns| - 1]) <= MAX_SEQ_JUMP
  }

  /** Through every 8-bit wrap: what was received is the advances plus the repeats, and what
      is counted as missed is exactly the counters between first and newest that never
      advanced the tag. Both counters are 32 bits wide. */
  lemma {:induction false} SequenceConservation(ns: seq<int>)
    requires ns != [] && Tracked(ns)
    ensures CountRun(ns).last == U8(Newest(ns))
    ensures CountRun(ns).received == U32(|Advances(ns)| + Repeats(ns))
    ensures CountRun(ns).missed == U32(Newest(ns) - ns[0] + 1 - |Advances(ns)|)
  {
    if |ns| > 1 {
      var init, n := ns[..|ns| - 1], ns[|ns| - 1];
      SequenceConservation(init);
      CountStepOnTrueCounter(|Advances(init)| + Repeats(init), Newest(init) - ns[0] + 1 - |Advances(init)|,
                             Newest(init), n);
    }
  }

  lemma CountStepOnTrueCounter(r: int, m: int, newest: int, n: int)
    requires -10 < n - newest <= MAX_SEQ_JUMP
    ensures CountStep(Count(U8(newest), U32(r), U32(m)), U8(n))
         == if n == newest then Count(U8(newest), U32(r + 1), U32(m))
            else if n < newest then Count(U8(newest), U32(r), U32(m))
            else Count(U8(n), U32(r + 1), U32(m + (n - newest - 1)))
  {
    ClassifyTrueCounter(newest, n);
    U32Add(r, 1);
    U32Add(m, n - newest - 1);
  }

  /** On true counters in range the 8-bit rule recovers the true distance, and the
      `missed < 200` guard never drops a count. */
  lemma ClassifyTrueCounter(newest: int, n: int)
    requires -10 < n - newest <= MAX_SEQ_JUMP
    ensures Classify(U8(newest), U8(n))
         == if n == newest then Duplicate else if n < newest then Late else Forward(n - newest - 1)
  {
    I8OfWrappedDifference(n, newest);
    WrapsApart(n, newest);
    WrapsApart(n, newest + 1);
    NextWraps(newest);
  }

  /** Counters less than 256 apart have different low bytes unless they are equal. */
  lemma WrapsApart(n: int, m: int)
    requires -0x100 < n - m < 0x100
    ensures U8(n) == U8(m) <==> n == m
  {
    var k := n / 0x100 - m / 0x100;
    assert U8(n) - U8(m) == n - m - 0x100 * k;
  }

  lemma NextWraps(n: int)
    ensures U8(U8(n) + 1) == U8(n + 1)
  {
  }

  /** The percentage the scanner reports for a tag. */
  function LossPercent(c: Count): uint8 {
    var total := U32(c.received + c.missed);
    if total > 0 then U8(U32(c.missed * 100) / total) else 0
  }

  /** While received and missed together fit 32 bits, the reported loss is the true floored
      percentage exactly if a hundred times the missed count still fits 32 bits, */
  lemma LossIsTrueIff(c: Count)
    requires c.received > 0 && c.received + c.missed < TWO32
    ensures LossPercent(c) == c.missed * 100 / (c.received + c.missed) <==> c.missed * 100 < TWO32
    ensures LossPercent(c) <= 100
  {
    var total, m := c.received + c.missed, c.missed * 100;
    Percentage(c.missed, total);
    FitsIn32(total);
    WrappedQuotientIff(m, total);
    SmallQuotient(U32(m) / total, m / total);
  }

  lemma FitsIn32(x: nat)
    requires x < TWO32
    ensures U32(x) == x
  {
  }

  lemma SmallQuotient(x: int, y: int)
    requires 0 <= x <= y <= 100
    ensures U8(x) == x
  {
  }

  lemma WrappedQuotientIff(m: nat, total: nat)
    requires 0 < total < TWO32
    ensures 0 <= U32(m) / total <= m / total
    ensures U32(m) / total == m / total <==> m < TWO32
  {
    if m < TWO32 { FitsIn32(m); } else { WrappedQuotient(m, total); }
    NonNegativeQuotient(U32(m), total);
  }

  lemma NonNegativeQuotient(x: nat, d: nat)
    requires d > 0
    ensures x / d >= 0
  {
  }

  /** and that percentage is the floor of 100 * missed / total, at most 100. */
  lemma LossIsFloored(c: Count)
    requires c.received > 0 && c.received + c.missed < TWO32 && c.missed * 100 < TWO32
    ensures LossPercent(c) <= 100
    ensures LossPercent(c) * (c.received + c.missed) <= 100 * c.missed
              < (LossPercent(c) + 1) * (c.received + c.missed)
  {
    LossIsTrueIff(c);
    Percentage(c.missed, c.received + c.missed);
  }

  /** The frames a tag's history counts as received, and the counters from its first to its newest
      frame that never advanced it. */
  function HeardOf(ns: seq<int>): (r: nat)
    requires ns != []
    ensures r > 0
  {
    |Advances(ns)| + Repeats(ns)
  }

  function LostOf(ns: seq<int>): nat
    requires ns != []
  {
    AdvancesFit(ns);
    Newest(ns) - ns[0] + 1 - |Advances(ns)|
  }

  /** The true loss in percent, floored. */
  function TruePercent(ns: seq<int>): int
    requires ns != []
  {
    LostOf(ns) * 100 / (HeardOf(ns) + LostOf(ns))
  }

  lemma CountedLossIsTrueIff(ns: seq<int>)
    requires ns != [] && Tracked(ns) && HeardOf(ns) + LostOf(ns) < TWO32
    ensures LossPercent(CountRun(ns)) == TruePercent(ns) <==> LostOf(ns) * 100 < TWO32
  {
    SequenceConservation(ns);
    FitsIn32(HeardOf(ns));
    FitsIn32(LostOf(ns));
    LossIsTrueIff(CountRun(ns));
  }

  /** A history in which every ninth frame is heard. */
  function EveryNinth(n: nat): seq<int> { seq(n, i => 9 * i) }

  lemma {:induction false} EveryNinthIsTracked(n: nat)
    requires n > 0
    ensures Tracked(EveryNinth(n)) && Advances(EveryNinth(n)) == EveryNinth(n) && Repeats(EveryNinth(n)) == 0
  {
    if n > 1 {
      EveryNinthIsTracked(n - 1);
      assert EveryNinth(n)[..n - 1] == EveryNinth(n - 1);
    }
  }

  /** Past 32 bits the reported loss is not the true one: after 5,368,711 frames of such a history it
      reads 0 percent instead of 88. */
  lemma LossWraps()
    ensures var ns := EveryNinth(5_368_711);
            LossPercent(CountRun(ns)) == 0 && TruePercent(ns) == 88 && HeardOf(ns) + LostOf(ns) < TWO32
  {
    var n := 5_368_711;
    EveryNinthIsTracked(n);
    CountsOfEveryNinth(n);
    assert U32(42_949_680 * 100) == 704;
    QuotientIs(704, 48_318_391, 0);
    QuotientIs(42_949_680 * 100, 48_318_391, 88);
  }

  lemma CountsOfEveryNinth(n: nat)
    requires 0 < n < 100_000_000
    ensures var ns := EveryNinth(n);
            HeardOf(ns) == n && LostOf(ns) == 8 * (n - 1)
            && CountRun(ns).received == n && CountRun(ns).missed == 8 * (n - 1)
  {
    var ns := EveryNinth(n);
    EveryNinthIsTracked(n);
    SequenceConservation(ns);
    FitsIn32(n);
    FitsIn32(8 * (n - 1));
  }

  lemma QuotientIs(a: nat, d: nat, q: nat)
    requires d > 0 && q * d <= a < q * d + d
    ensures a / d == q
  {
    QuotientBounds(a, d);
    if a / d < q { ScaleUp(q - 1, a / d, d); }
    if a / d > q { ScaleUp(a / d, q + 1, d); }
  }

  lemma QuotientBounds(a: nat, d: nat)
    requires d > 0
    ensures a / d * d <= a < a / d * d + d
  {
  }

  lemma ScaleUp(x: int, y: int, d: nat)
    requires x >= y
    ensures x * d >= y * d
  {
    assert (x - y) * d >= 0;
  }

  lemma LessByProduct(x: int, y: int, d: nat)
    requires x * d < y * d
    ensures x < y
  {
    if x >= y { ScaleUp(x, y, d); }
  }

  /** A dividend smaller by at least the divisor has a smaller quotient. */
  lemma SmallerDividend(a: nat, b: nat, d: nat)
    requires d > 0 && a + d <= b
    ensures a / d < b / d
  {
    QuotientBounds(a, d);
    QuotientBounds(b, d);
    LessByProduct(a / d, b / d, d);
  }

  /** The 32-bit product has lost at least 2^32, which is more than the divisor. */
  lemma WrappedQuotient(m: nat, total: nat)
    requires TWO32 <= m && 0 < total < TWO32
    ensures U32(m) / total < m / total
  {
    var k := m / TWO32;
    assert U32(m) == m - k * TWO32 && k >= 1;
    SmallerDividend(U32(m), m, total);
  }

  lemma Percentage(missed: nat, total: nat)
    requires missed < total
    ensures var q := missed * 100 / total;
            0 <= q <= 100 && q * total <= 100 * missed < (q + 1) * total
  {
    var m := missed * 100;
    var q := m / total;
    assert m == q * total + m % total;
    assert q <= 100 by { if q >= 101 { QuotientTooLarge(q, total); } }
  }

  lemma QuotientTooLarge(q: nat, total: nat)
    requires q >= 101
    ensures q * total >= 101 * total
  {
  }

  // ----- the table -----

  function Ids(tags: seq<TagInfo>): Column<uint16> {
    seq(|tags|, i requires 0 <= i < |tags| => if tags[i].active then Some(tags[i].tagId) else None)
  }

  function NewInfo(s: Sighting): TagInfo {
    TagInfo(true, s.battery, s.tagId, s.txPower, s.rssi, s.rssi as real, Count(s.sequence, 1, 0),
            s.now, s.mac, -1)
  }

  lemma FilterStaysNonNegative(f: Kalman.Filter, z: real)
    requires f.p >= 0.0 && f.q >= 0.0
    ensures Kalman.Step(f, z).p >= 0.0 && Kalman.Step(f, z).q >= 0.0
  {
    var a, r := f.p + f.q, Kalman.Step(f, z).r;
    Kalman.DivBounds(a, a + r, 0.0, 1.0);
    Kalman.NonNegative(1.0 - a / (a + r), a);
  }

  /** What `bmt_tag_table_update` makes of one entry and its filter. */
  function Updated(t: TagInfo, f: Kalman.Filter, s: Sighting): (r: (TagInfo, Kalman.Filter))
    requires f.p >= 0.0 && f.q >= 0.0
    ensures r.1.p >= 0.0 && r.1.q >= 0.0
  {
    var z := s.rssi as real;
    var t' := t.(battery := s.battery, count := CountStep(t.count, s.sequence));
    match Classify(t.count.last, s.sequence)
    case Late => (t', f)
    case Reset => (t'.(rssiRaw := s.rssi, rssiFiltered := z, lastSeenMs := s.now), Kalman.Init(z))
    case _ =>
      var g := Kalman.Step(f, z);
      FilterStaysNonNegative(f, z);
      (t'.(rssiRaw := s.rssi, rssiFiltered := g.x, lastSeenMs := s.now), g)
  }

  /** The update has exactly that effect on the entry's counters and on its filter. */
  lemma UpdateHasEffect(t: TagInfo, f: Kalman.Filter, s: Sighting)
    requires f.p >= 0.0 && f.q >= 0.0
    ensures var (t', f') := Updated(t, f, s);
            var e := EffectOf(t.count, s.sequence);
            && t'.count == e.count
            && f' == (match e.motion
                      case Kept => f
                      case Moved => Kalman.Step(f, s.rssi as real)
                      case Restarted => Kalman.Init(s.rssi as real))
            && (e.motion.Kept? ==> t' == t.(battery := s.battery))
            && (!e.motion.Kept? ==> t'.rssiFiltered == f'.x && t'.lastSeenMs == s.now)
  {
  }

  /** The effect, branch by branch as the update takes them. */
  lemma EffectByBranch(c: Count, sequence: uint8)
    ensures EffectOf(c, sequence) ==
            var diff, received := I8(sequence - c.last), U32(c.received + 1);
            if sequence == c.last then Effect(c.(received := received), Moved)
            else if diff < 0 && diff > -10 then Effect(c, Kept)
            else if diff < -10 || diff > MAX_SEQ_JUMP then Effect(Count(sequence, received, c.missed), Restarted)
            else
              var missed := if sequence != U8(c.last + 1) && diff > 1 then U8(diff - 1) else 0;
              Effect(Count(sequence, received, if 0 < missed < 200 then U32(c.missed + missed) else c.missed), Moved)
  {
  }

  lemma UpdatedByMotion(t: TagInfo, f: Kalman.Filter, s: Sighting, e: Effect)
    requires f.p >= 0.0 && f.q >= 0.0 && e == EffectOf(t.count, s.sequence)
    ensures var z, t' := s.rssi as real, t.(battery := s.battery, count := e.count);
            Updated(t, f, s)
              == match e.motion
                 case Kept => (t', f)
                 case Moved =>
                   var g := Kalman.Step(f, z);
                   (t'.(rssiRaw := s.rssi, rssiFiltered := g.x, lastSeenMs := s.now), g)
                 case Restarted =>
                   (t'.(rssiRaw := s.rssi, rssiFiltered := z, lastSeenMs := s.now), Kalman.Init(z))
  {
  }

  predicate TimedOut(t: TagInfo, now: uint32) {
    t.active && U32(now - t.lastSeenMs) > TAG_TIMEOUT_MS
  }

  ghost predicate WellFormed(T: Table) {
    && |T.tags| == |T.kalman| == MAX_TAGS
    && forall i :: 0 <= i < MAX_TAGS ==> T.kalman[i].p >= 0.0 && T.kalman[i].q >= 0.0
  }

  function AfterUpdate(T: Table, s: Sighting, i: nat): (T': Table)
    requires WellFormed(T) && i < MAX_TAGS
    ensures WellFormed(T')
  {
    var (t, f) := Updated(T.tags[i], T.kalman[i], s);
    Table(T.tags[i := t.(lockedEpoch := if t.active then s.epoch else t.lockedEpoch)], T.kalman[i := f])
  }

  function AfterAdd(T: Table, s: Sighting, i: nat): (T': Table)
    requires WellFormed(T) && i < MAX_TAGS
    ensures WellFormed(T')
  {
    Table(T.tags[i := NewInfo(s).(lockedEpoch := s.epoch)], T.kalman[i := Kalman.Init(s.rssi as real)])
  }

  function AfterSeen(T: Table, s: Sighting): (T': Table)
    requires WellFormed(T)
    ensures WellFormed(T')
  {
    var i, j := IndexOf(Ids(T.tags), Some(s.tagId)), IndexOf(Ids(T.tags), None);
    if i >= 0 then AfterUpdate(T, s, i)
    else if j >= 0 then AfterAdd(T, s, j)
    else T
  }

  function AfterSweep(T: Table, now: uint32): Table
    requires WellFormed(T)
  {
    Table(seq(MAX_TAGS, i requires 0 <= i < MAX_TAGS =>
                if TimedOut(T.tags[i], now) then T.tags[i].(active := false) else T.tags[i]),
          seq(MAX_TAGS, i requires 0 <= i < MAX_TAGS =>
                if TimedOut(T.tags[i], now) then Kalman.ZERO else T.kalman[i]))
  }

  function After(T: Table, e: Event): (T': Table)
    requires WellFormed(T)
    ensures WellFormed(T')
  {
    match e
    case Seen(s) => AfterSeen(T, s)
    case Sweep(now) => AfterSweep(T, now)
  }

  class Scanner {
    const tags: array<TagInfo>
    const kalman: array<Kalman.Filter>

    ghost predicate Valid()
      reads tags, kalman
    {
      tags.Length == MAX_TAGS && kalman.Length == MAX_TAGS && WellFormed(Contents())
    }

    ghost function Contents(): Table
      reads tags, kalman
    {
      Table(tags[..], kalman[..])
    }

    constructor ()
      ensures Valid() && fresh(tags) && fresh(kalman)
      ensures Contents() == Empty()
    {
      tags := new TagInfo[MAX_TAGS](_ => BLANK);
      kalman := new Kalman.Filter[MAX_TAGS](_ => Kalman.ZERO);
    }

    method Find(tagId: uint16) returns (r: int)
      requires Valid()
      ensures r == IndexOf(Ids(tags[..]), Some(tagId))
    {
      ghost var ids := Ids(tags[..]);
      for i := 0 to MAX_TAGS
        invariant forall j :: 0 <= j < i ==> ids[j] != Some(tagId)
      {
        IndexOfIs(ids, Some(tagId), i);
        if tags[i].active && tags[i].tagId == tagId { return i; }
      }
      IndexOfIs(ids, Some(tagId), MAX_TAGS);
      r := -1;
    }

    method Add(s: Sighting) returns (r: int)
      requires Valid()
      modifies tags, kalman
      ensures r == IndexOf(old(Ids(tags[..])), None)
      ensures r < 0 ==> Contents() == old(Contents())
      ensures r >= 0 ==>
        && tags[..] == old(tags[..])[r := NewInfo(s)]
        && kalman[..] == old(kalman[..])[r := Kalman.Init(s.rssi as real)]
    {
      ghost var ids := Ids(tags[..]);
      for i := 0 to MAX_TAGS
        invariant forall j :: 0 <= j < i ==> ids[j] != None
        invariant Contents() == old(Contents())
      {
        IndexOfIs(ids, None, i);
        if !tags[i].active {
          tags[i] := BLANK;
          tags[i] := tags[i].(active := true);
          tags[i] := tags[i].(battery := s.battery, tagId := s.tagId, txPower := s.txPower);
          tags[i] := tags[i].(rssiRaw := s.rssi, rssiFiltered := s.rssi as real);
          tags[i] := tags[i].(count := Count(s.sequence, 1, 0), lastSeenMs := s.now);
          tags[i] := tags[i].(lockedEpoch := -1, mac := s.mac);
          kalman[i] := Kalman.Init(s.rssi as real);
          return i;
        }
      }
      IndexOfIs(ids, None, MAX_TAGS);
      r := -1;
    }

    /** A sample for the filter of a slot. */
    method TakeIn(idx: nat, s: Sighting)
      requires Valid() && idx < MAX_TAGS
      modifies tags, kalman
      ensures kalman[..] == old(kalman[..])[idx := Kalman.Step(old(kalman[idx]), s.rssi as real)]
      ensures tags[..] == old(tags[..])[idx := old(tags[idx]).(
                rssiRaw := s.rssi, rssiFiltered := kalman[idx].x, lastSeenMs := s.now)]
      ensures Valid()
    {
      FilterStaysNonNegative(kalman[idx], s.rssi as real);
      kalman[idx] := Kalman.Update(kalman[idx], s.rssi as real);
      tags[idx] := tags[idx].(rssiRaw := s.rssi, rssiFiltered := kalman[idx].x, lastSeenMs := s.now);
    }

    /** The filter of a slot starts anew from the sample. */
    method StartOver(idx: nat, s: Sighting)
      requires Valid() && idx < MAX_TAGS
      modifies tags, kalman
      ensures kalman[..] == old(kalman[..])[idx := Kalman.Init(s.rssi as real)]
      ensures tags[..] == old(tags[..])[idx := old(tags[idx]).(
                rssiRaw := s.rssi, rssiFiltered := s.rssi as real, lastSeenMs := s.now)]
      ensures Valid()
    {
      kalman[idx] := Kalman.Init(s.rssi as real);
      tags[idx] := tags[idx].(rssiRaw := s.rssi, rssiFiltered := s.rssi as real, lastSeenMs := s.now);
    }

    /** Any slot index is accepted, as in the source; its caller passes a found one. */
    method Update(idx: nat, s: Sighting)
      requires Valid() && idx < MAX_TAGS
      modifies tags, kalman
      ensures Contents() == var (t, f) := Updated(old(tags[idx]), old(kalman[idx]), s);
                            Table(old(tags[..])[idx := t], old(kalman[..])[idx := f])
    {
      ghost var effect := EffectOf(tags[idx].count, s.sequence);
      EffectByBranch(tags[idx].count, s.sequence);
      UpdatedByMotion(tags[idx], kalman[idx], s, effect);
      tags[idx] := tags[idx].(battery := s.battery);
      var c := tags[idx].count;
      if s.sequence == c.last {
        TakeIn(idx, s);
        tags[idx] := tags[idx].(count := c.(received := U32(c.received + 1)));
        return;
      }
      var diff := I8(s.sequence - c.last);
      if diff < 0 && diff > -10 { return; }
      if diff < -10 || diff > MAX_SEQ_JUMP {
        StartOver(idx, s);
        tags[idx] := tags[idx].(count := c.(last := s.sequence, received := U32(c.received + 1)));
        return;
      }
      var expected := U8(c.last + 1);
      if s.sequence != expected {
        var missed := if diff > 1 then U8(diff - 1) else 0;
        if missed > 0 && missed < 200 {
          c := c.(missed := U32(c.missed + missed));
        }
      }
      assert effect == Effect(Count(s.sequence, U32(c.received + 1), c.missed), Moved);
      TakeIn(idx, s);
      tags[idx] := tags[idx].(count := c.(last := s.sequence, received := U32(c.received + 1)));
    }

    method SetEpoch(idx: int, epoch: int)
      requires Valid()
      modifies tags
      ensures 0 <= idx < MAX_TAGS && old(tags[idx]).active
              ==> tags[..] == old(tags[..])[idx := old(tags[idx]).(lockedEpoch := epoch)]
      ensures !(0 <= idx < MAX_TAGS && old(tags[idx]).active) ==> tags[..] == old(tags[..])
    {
      if idx < 0 || idx >= MAX_TAGS || !tags[idx].active { return; }
      tags[idx] := tags[idx].(lockedEpoch := epoch);
    }

    method CheckTimeouts(now: uint32)
      requires Valid()
      modifies tags, kalman
      ensures Valid() && Contents() == AfterSweep(old(Contents()), now)
    {
      for i := 0 to MAX_TAGS
        invariant forall j :: 0 <= j < i ==>
          && tags[j] == AfterSweep(old(Contents()), now).tags[j]
          && kalman[j] == AfterSweep(old(Contents()), now).kalman[j]
        invariant forall j :: i <= j < MAX_TAGS ==> tags[j] == old(tags[j]) && kalman[j] == old(kalman[j])
      {
        if !tags[i].active { continue; }
        if U32(now - tags[i].lastSeenMs) > TAG_TIMEOUT_MS {
          tags[i] := tags[i].(active := false);
          kalman[i] := Kalman.ZERO;
        }
      }
      assert tags[..] == AfterSweep(old(Contents()), now).tags;
      assert kalman[..] == AfterSweep(old(Contents()), now).kalman;
    }

    /** The tail of the scan callback: find the tag, add or update it, note its epoch. */
    method OnSighting(s: Sighting)
      requires Valid()
      modifies tags, kalman
      ensures Valid() && Contents() == AfterSeen(old(Contents()), s)
    {
      var idx := Find(s.tagId);
      if idx < 0 {
        idx := Add(s);
      } else {
        Update(idx, s);
      }
      if idx >= 0 {
        SetEpoch(idx, s.epoch);
      }
    }
  }

  // ----- the table as a map -----

  /** What the table means: per visible tag its entry, and the RSSI samples its filter has
      taken in since it was last initialised. */
  datatype Track = Track(info: TagInfo, samples: seq<real>)
  type Tracks = map<uint16, Track>

  function NewTrack(s: Sighting): (k: Track)
    ensures k.samples != [] && k.info.rssiFiltered == Kalman.Run(k.samples).x
    ensures Kalman.Run(k.samples) == Kalman.Init(s.rssi as real)
    ensures Kalman.Within(k.samples, -128.0, 127.0)
  {
    Track(NewInfo(s).(lockedEpoch := s.epoch), [s.rssi as real])
  }

  function Heard(k: Track, s: Sighting): (k': Track)
    requires k.samples != []
    ensures k'.samples != []
  {
    var z := s.rssi as real;
    var c := CountStep(k.info.count, s.sequence);
    match Classify(k.info.count.last, s.sequence)
    case Late => k.(info := k.info.(battery := s.battery, count := c, lockedEpoch := s.epoch))
    case verdict =>
      var samples := if verdict == Reset then [z] else k.samples + [z];
      Track(k.info.(battery := s.battery, count := c, lockedEpoch := s.epoch, rssiRaw := s.rssi,
                    rssiFiltered := Kalman.Run(samples).x, lastSeenMs := s.now), samples)
  }

  ghost predicate CoherentTrack(id: uint16, k: Track) {
    && k.samples != []
    && k.info.active && k.info.tagId == id
    && k.info.rssiFiltered == Kalman.Run(k.samples).x
    && Kalman.Within(k.samples, -128.0, 127.0)
  }

  ghost predicate Coherent(m: Tracks) {
    forall id :: id in m ==> CoherentTrack(id, m[id])
  }

  lemma HeardStaysCoherent(k: Track, s: Sighting)
    requires CoherentTrack(s.tagId, k)
    ensures CoherentTrack(s.tagId, Heard(k, s))
  {
  }

  function MapAfter(m: Tracks, e: Event): (r: Tracks)
    requires Coherent(m)
    ensures Coherent(r)
  {
    match e
    case Seen(s) =>
      if s.tagId in m then
        HeardStaysCoherent(m[s.tagId], s);
        m[s.tagId := Heard(m[s.tagId], s)]
      else if |m| < MAX_TAGS then m[s.tagId := NewTrack(s)]
      else m
    case Sweep(now) => map id | id in m && !TimedOut(m[id].info, now) :: m[id]
  }

  /** Active slots hold distinct tags with the right entry and filter; the others a zero filter. */
  ghost predicate Represents(T: Table, m: Tracks) {
    && Coherent(m)
    && |T.tags| == |T.kalman| == MAX_TAGS
    && Unique(Ids(T.tags))
    && Keys(Ids(T.tags)) == m.Keys
    && forall i :: 0 <= i < MAX_TAGS ==> SlotMatches(T.tags[i], T.kalman[i], m)
  }

  ghost predicate SlotMatches(t: TagInfo, f: Kalman.Filter, m: Tracks)
    requires Coherent(m)
  {
    if t.active then t.tagId in m && t == m[t.tagId].info && f == Kalman.Run(m[t.tagId].samples)
    else f == Kalman.ZERO
  }

  lemma UpdateIsHeard(k: Track, s: Sighting)
    requires k.samples != []
    ensures Updated(k.info, Kalman.Run(k.samples), s)
         == (Heard(k, s).info.(lockedEpoch := k.info.lockedEpoch), Kalman.Run(Heard(k, s).samples))
  {
    var z := s.rssi as real;
    assert (k.samples + [z])[..|k.samples|] == k.samples;
    assert Kalman.Run(k.samples + [z]) == Kalman.Step(Kalman.Run(k.samples), z);
  }

  lemma SeenPreserves(T: Table, m: Tracks, s: Sighting)
    requires Represents(T, m) && WellFormed(T)
    ensures Represents(AfterSeen(T, s), MapAfter(m, Seen(s)))
  {
    var ids := Ids(T.tags);
    var i, j := IndexOf(ids, Some(s.tagId)), IndexOf(ids, None);
    FullIffAllUsed(ids);
    assert |Keys(ids)| == |m|;
    if i >= 0 {
      KnownTagPreserves(T, m, s, i);
    } else if j >= 0 {
      NewTagPreserves(T, m, s, j);
    }
  }

  lemma KnownTagPreserves(T: Table, m: Tracks, s: Sighting, i: nat)
    requires Represents(T, m) && WellFormed(T)
    requires i == IndexOf(Ids(T.tags), Some(s.tagId))
    ensures s.tagId in m && Represents(AfterUpdate(T, s, i), m[s.tagId := Heard(m[s.tagId], s)])
  {
    assert SlotMatches(T.tags[i], T.kalman[i], m);
    UpdateIsHeard(m[s.tagId], s);
    var ids, T', m' := Ids(T.tags), AfterUpdate(T, s, i), MapAfter(m, Seen(s));
    assert Ids(T'.tags) == ids;
    forall l | 0 <= l < MAX_TAGS ensures SlotMatches(T'.tags[l], T'.kalman[l], m') {
      if l != i {
        assert ids[l].Some? ==> ids[l] != ids[i];
        OtherSlot(T.tags[l], T.kalman[l], m, s.tagId, m'[s.tagId]);
      }
    }
  }

  lemma NewTagPreserves(T: Table, m: Tracks, s: Sighting, j: nat)
    requires Represents(T, m) && WellFormed(T) && s.tagId !in m
    requires j == IndexOf(Ids(T.tags), None)
    ensures Represents(AfterAdd(T, s, j), m[s.tagId := NewTrack(s)])
  {
    NewTagKeys(T, s, j);
    var T', m' := AfterAdd(T, s, j), m[s.tagId := NewTrack(s)];
    forall l | 0 <= l < MAX_TAGS ensures SlotMatches(T'.tags[l], T'.kalman[l], m') {
      NewTagSlot(T, m, s, j, l);
    }
  }

  lemma NewTagSlot(T: Table, m: Tracks, s: Sighting, j: nat, l: nat)
    requires WellFormed(T) && Coherent(m) && j < MAX_TAGS && l < MAX_TAGS
    requires s.tagId !in m && SlotMatches(T.tags[l], T.kalman[l], m)
    ensures var T' := AfterAdd(T, s, j); SlotMatches(T'.tags[l], T'.kalman[l], m[s.tagId := NewTrack(s)])
  {
  }

  lemma NewTagKeys(T: Table, s: Sighting, j: nat)
    requires WellFormed(T) && Unique(Ids(T.tags))
    requires j == IndexOf(Ids(T.tags), None) && s.tagId !in Keys(Ids(T.tags))
    ensures Unique(Ids(AfterAdd(T, s, j).tags))
    ensures Keys(Ids(AfterAdd(T, s, j).tags)) == Keys(Ids(T.tags)) + {s.tagId}
  {
    PutNew(Ids(T.tags), j, s.tagId);
    assert Ids(AfterAdd(T, s, j).tags) == Ids(T.tags)[j := Some(s.tagId)];
  }

  /** A slot of another tag does not notice a change to this one. */
  lemma OtherSlot(t: TagInfo, f: Kalman.Filter, m: Tracks, id: uint16, k: Track)
    requires Coherent(m) && Coherent(m[id := k]) && SlotMatches(t, f, m)
    requires t.active ==> t.tagId != id
    ensures SlotMatches(t, f, m[id := k])
  {
  }

  lemma SweepPreserves(T: Table, m: Tracks, now: uint32)
    requires Represents(T, m) && WellFormed(T)
    ensures Represents(AfterSweep(T, now), MapAfter(m, Sweep(now)))
  {
    var T', m' := AfterSweep(T, now), MapAfter(m, Sweep(now));
    SweepKeys(T, m, now);
    forall i | 0 <= i < MAX_TAGS ensures SlotMatches(T'.tags[i], T'.kalman[i], m') {
      assert SlotMatches(T.tags[i], T.kalman[i], m);
    }
  }

  lemma SweepKeys(T: Table, m: Tracks, now: uint32)
    requires Represents(T, m) && WellFormed(T)
    ensures Unique(Ids(AfterSweep(T, now).tags))
    ensures Keys(Ids(AfterSweep(T, now).tags)) == MapAfter(m, Sweep(now)).Keys
  {
    var ids, ids', m' := Ids(T.tags), Ids(AfterSweep(T, now).tags), MapAfter(m, Sweep(now));
    SubColumn(ids, ids');
    forall id ensures id in Keys(ids') <==> id in m' {
      if Some(id) in ids' {
        var i := IndexOf(ids', Some(id));
        SweepSlot(T, m, now, i);
      }
      if id in m' {
        assert id in Keys(ids);
        var i := IndexOf(ids, Some(id));
        SweepSlot(T, m, now, i);
        assert ids'[i] in ids';
      }
    }
  }

  lemma SweepSlot(T: Table, m: Tracks, now: uint32, i: nat)
    requires Coherent(m) && WellFormed(T) && i < MAX_TAGS && SlotMatches(T.tags[i], T.kalman[i], m)
    ensures var id, id' := Ids(T.tags)[i], Ids(AfterSweep(T, now).tags)[i];
            id' == if id.Some? && id.value in MapAfter(m, Sweep(now)) then id else None
  {
  }

  function TableRun(es: seq<Event>): (T: Table)
    ensures WellFormed(T)
  {
    if es == [] then Empty() else After(TableRun(es[..|es| - 1]), es[|es| - 1])
  }

  function MapRun(es: seq<Event>): (m: Tracks)
    ensures Coherent(m)
  {
    if es == [] then map[] else MapAfter(MapRun(es[..|es| - 1]), es[|es| - 1])
  }

  /** For every history the array table behaves as a bounded map from tag id to track. */
  lemma {:induction false} TableRefinesMap(es: seq<Event>)
    ensures Represents(TableRun(es), MapRun(es))
  {
    if es == [] {
      assert Keys(Ids(Empty().tags)) == {};
    } else {
      var init := es[..|es| - 1];
      TableRefinesMap(init);
      match es[|es| - 1] {
        case Seen(s) => SeenPreserves(TableRun(init), MapRun(init), s);
        case Sweep(now) => SweepPreserves(TableRun(init), MapRun(init), now);
      }
    }
  }

  /** In every run every active filter is in its band, and the RSSI the scanner publishes is
      its estimate truncated, never wrapped by the cast to int8. */
  lemma PublishedRssiInRange(es: seq<Event>, i: nat)
    requires i < MAX_TAGS && TableRun(es).tags[i].active
    ensures Kalman.InBand(TableRun(es).kalman[i])
    ensures 0.0 <= TableRun(es).kalman[i].rVar <= 65025.0
    ensures TableRun(es).tags[i].rssiFiltered == TableRun(es).kalman[i].x
    ensures var x := TruncReal(TableRun(es).tags[i].rssiFiltered); I8(x) == x
  {
    TableRefinesMap(es);
    var zs := MapRun(es)[TableRun(es).tags[i].tagId].samples;
    Kalman.EstimateInHull(zs, -128.0, 127.0);
    Kalman.NoiseEstimateBounded(zs);
    NarrowingIsExact(Kalman.Run(zs).x);
  }

  lemma NarrowingIsExact(x: real)
    requires -128.0 <= x <= 127.0
    ensures I8(TruncReal(x)) == TruncReal(x)
  {
  }
}
