/** What a scanner's entry of a tag holds, in terms of the tag's frames alone. */
module TagTracks {
  import opened Machine
  import opened TagTable
  import Kalman

  /** The frames of a tag since its entry was made. */
  function Frames(es: seq<Event>, id: uint16): seq<Sighting> {
    if |es| == 0 || id !in MapRun(es) then []
    else
      var fs := Frames(es[..|es| - 1], id);
      match es[|es| - 1]
      case Seen(s) => if s.tagId == id then fs + [s] else fs
      case Sweep(_) => fs
  }

  /** How far a frame is ahead of the one accepted last, on the 8-bit circle. */
  function Ahead(last: Sighting, s: Sighting): int8 { I8(s.sequence - last.sequence) }

  /** The frames that are accepted: all but those one to nine behind the one accepted before. */
  function Accepted(fs: seq<Sighting>): (r: seq<Sighting>)
    ensures |fs| > 0 ==> |r| > 0 && r[0] == fs[0]
  {
    if |fs| == 0 then []
    else
      var acc, s := Accepted(fs[..|fs| - 1]), fs[|fs| - 1];
      if |acc| > 0 && -10 < Ahead(acc[|acc| - 1], s) < 0 then acc else acc + [s]
  }

  /** The RSSI of the accepted frames since tracking last restarted: at the first one, and at each
      that is more than ten behind the one before it or more than thirty ahead. */
  function Samples(acc: seq<Sighting>): seq<real> {
    if |acc| == 0 then []
    else
      var z := acc[|acc| - 1].rssi as real;
      if |acc| == 1 || Jumps(acc[|acc| - 2], acc[|acc| - 1]) then [z] else Samples(acc[..|acc| - 1]) + [z]
  }

  predicate Jumps(last: Sighting, s: Sighting) { Ahead(last, s) < -10 || Ahead(last, s) > 30 }

  /** The sequence numbers skipped between accepted frames, jumps aside. */
  function Skipped(acc: seq<Sighting>): nat {
    if |acc| < 2 then 0
    else Skipped(acc[..|acc| - 1]) + SkippedBy(Ahead(acc[|acc| - 2], acc[|acc| - 1]))
  }

  function SkippedBy(d: int): nat { if 1 <= d <= 30 then d - 1 else 0 }

  /** An entry holds of its first frame the number, MAC address and power, of its last frame battery
      and epoch, and of the last accepted frame RSSI and time; */
  ghost predicate FieldsFrom(k: Track, first: Sighting, latest: Sighting, newest: Sighting) {
    && k.info.active
    && k.info.tagId == first.tagId && k.info.mac == first.mac && k.info.txPower == first.txPower
    && k.info.battery == latest.battery && k.info.lockedEpoch == latest.epoch
    && k.info.rssiRaw == newest.rssi && k.info.lastSeenMs == newest.now
  }

  /** it has counted the accepted frames and the numbers skipped; */
  ghost predicate CountedFrom(k: Track, acc: seq<Sighting>) {
    |acc| > 0 && k.info.count == Count(acc[|acc| - 1].sequence, U32(|acc|), U32(Skipped(acc)))
  }

  /** and its filter has taken in their RSSI since tracking last restarted. */
  ghost predicate MadeOf(k: Track, fs: seq<Sighting>) {
    |fs| > 0 &&
    var acc := Accepted(fs);
    && FieldsFrom(k, fs[0], fs[|fs| - 1], acc[|acc| - 1])
    && CountedFrom(k, acc)
    && k.samples == Samples(acc) && k.info.rssiFiltered == Kalman.Run(k.samples).x
  }

  /** After any history that is so of every tag a scanner tracks. */
  lemma {:induction false} EntryIsMadeOfFrames(es: seq<Event>, id: uint16)
    ensures id in MapRun(es) <==> Frames(es, id) != []
    ensures id in MapRun(es) ==> MadeOf(MapRun(es)[id], Frames(es, id))
  {
    if |es| > 0 {
      var init, m := es[..|es| - 1], MapRun(es[..|es| - 1]);
      EntryIsMadeOfFrames(init, id);
      match es[|es| - 1] {
        case Seen(s) =>
          if s.tagId == id && id in m { HeardIsMadeOf(m[id], s, Frames(init, id)); }
          if s.tagId == id && id !in m { NewIsMadeOf(s); }
        case Sweep(_) =>
      }
    }
  }

  lemma NewIsMadeOf(s: Sighting)
    ensures MadeOf(NewTrack(s), [s])
  {
    assert [s][..0] == [] && Accepted([s]) == [s];
  }

  lemma HeardIsMadeOf(k: Track, s: Sighting, fs: seq<Sighting>)
    requires CoherentTrack(s.tagId, k) && MadeOf(k, fs)
    ensures MadeOf(Heard(k, s), fs + [s])
  {
    var acc := Accepted(fs);
    var last := acc[|acc| - 1];
    var d := Ahead(last, s);
    assert (fs + [s])[..|fs|] == fs;
    ClassifyByDistance(last.sequence, s.sequence, d);
    if !(-10 < d < 0) {
      assert Accepted(fs + [s]) == acc + [s];
      SamplesAppend(acc, s);
      HeardIsCounted(k, s, acc, d);
      HeardSets(k, s, fs[0], fs[|fs| - 1], last);
    }
  }

  lemma HeardSets(k: Track, s: Sighting, first: Sighting, latest: Sighting, newest: Sighting)
    requires CoherentTrack(s.tagId, k) && FieldsFrom(k, first, latest, newest)
    requires Classify(k.info.count.last, s.sequence) != Late
    ensures FieldsFrom(Heard(k, s), first, s, s)
  {
  }

  lemma HeardIsCounted(k: Track, s: Sighting, acc: seq<Sighting>, d: int8)
    requires CoherentTrack(s.tagId, k) && CountedFrom(k, acc) && d == Ahead(acc[|acc| - 1], s)
    requires !(-10 < d < 0)
    ensures CountedFrom(Heard(k, s), acc + [s])
  {
    SkippedAppend(acc, s);
    CountOfAccepted(acc[|acc| - 1].sequence, |acc|, Skipped(acc), s.sequence, d);
    assert Heard(k, s).info.count == CountStep(k.info.count, s.sequence);
  }

  lemma CountOfAccepted(last: uint8, received: nat, missed: nat, sequence: uint8, d: int8)
    requires d == I8(sequence - last) && !(-10 < d < 0)
    ensures CountStep(Count(last, U32(received), U32(missed)), sequence)
         == Count(sequence, U32(received + 1), U32(missed + SkippedBy(d)))
  {
    ClassifyByDistance(last, sequence, d);
    U32Add(received, 1);
    U32Add(missed, SkippedBy(d));
  }

  lemma SamplesAppend(acc: seq<Sighting>, s: Sighting)
    requires |acc| > 0
    ensures Samples(acc + [s])
         == if Jumps(acc[|acc| - 1], s) then [s.rssi as real] else Samples(acc) + [s.rssi as real]
  {
    var both := acc + [s];
    assert both[..|both| - 1] == acc && both[|both| - 2] == acc[|acc| - 1];
  }

  lemma SkippedAppend(acc: seq<Sighting>, s: Sighting)
    requires |acc| > 0
    ensures Skipped(acc + [s]) == Skipped(acc) + SkippedBy(Ahead(acc[|acc| - 1], s))
  {
    var both := acc + [s];
    assert both[..|both| - 1] == acc && both[|both| - 2] == acc[|acc| - 1];
  }

  /** The verdict on a sequence number is decided by its distance from the last one. */
  lemma ClassifyByDistance(last: uint8, sequence: uint8, d: int8)
    requires d == I8(sequence - last)
    ensures Classify(last, sequence)
         == if d == 0 then Duplicate
            else if -10 < d < 0 then Late
            else if d < -10 || d > 30 then Reset
            else Forward(SkippedBy(d))
    ensures d == 0 <==> sequence == last
  {
    assert d == 0 <==> sequence == last;
    assert d == 1 <==> sequence == U8(last + 1);
  }

  /** The last accepted frame of a tag. */
  function Newest(fs: seq<Sighting>): Sighting
    requires |fs| > 0
  {
    var acc := Accepted(fs); acc[|acc| - 1]
  }

  /** A sweep keeps exactly the tags whose last accepted frame is at most 5 s old; frames that come
      late do not keep a tag alive. */
  lemma SweptIffSilent(es: seq<Event>, now: uint32, id: uint16)
    ensures id in MapRun(es + [Sweep(now)]) <==> id in MapRun(es) && FreshAt(es, id, now)
  {
    RunThenSweep(es, now);
    StaysIffFresh(MapRun(es), now, id);
    if id in MapRun(es) { FreshByEntry(es, id, now); }
  }

  ghost predicate FreshAt(es: seq<Event>, id: uint16, now: uint32) {
    |Frames(es, id)| > 0 && U32(now - Newest(Frames(es, id)).now) <= 5000
  }

  lemma FreshByEntry(es: seq<Event>, id: uint16, now: uint32)
    requires id in MapRun(es)
    ensures FreshAt(es, id, now) <==> U32(now - MapRun(es)[id].info.lastSeenMs) <= 5000
  {
    LastSeenIsNewest(es, id);
  }

  lemma RunThenSweep(es: seq<Event>, now: uint32)
    ensures MapRun(es + [Sweep(now)]) == MapAfter(MapRun(es), Sweep(now))
  {
    assert (es + [Sweep(now)])[..|es|] == es;
  }

  lemma LastSeenIsNewest(es: seq<Event>, id: uint16)
    ensures id in MapRun(es) <==> |Frames(es, id)| > 0
    ensures id in MapRun(es) ==> MapRun(es)[id].info.lastSeenMs == Newest(Frames(es, id)).now
  {
    EntryIsMadeOfFrames(es, id);
  }

  lemma StaysIffFresh(m: Tracks, now: uint32, id: uint16)
    requires Coherent(m)
    ensures id in MapAfter(m, Sweep(now)) <==> id in m && U32(now - m[id].info.lastSeenMs) <= 5000
  {
  }
}
