/** The reports a scanner publishes from its tag table. */
module TagReports {
  import opened Machine
  import opened SlotTable
  import opened TagTable
  import Kalman

  /** The distance is not modelled. */
  datatype TagReport = TagReport(scannerId: uint8, battery: uint8, tagId: uint16, rssi: int8, lossPercent: uint8)

  function ReportOf(scannerId: uint8, t: TagInfo): TagReport {
    TagReport(scannerId, t.battery, t.tagId, I8(TruncReal(t.rssiFiltered)), LossPercent(t.count))
  }

  /** One report for each active slot, in slot order. */
  function Reports(scannerId: uint8, tags: seq<TagInfo>): (rs: seq<TagReport>)
    ensures forall r :: r in rs <==> exists t :: t in tags && t.active && r == ReportOf(scannerId, t)
  {
    if |tags| == 0 then []
    else
      var t := tags[|tags| - 1];
      assert tags == tags[..|tags| - 1] + [t];
      Reports(scannerId, tags[..|tags| - 1]) + if t.active then [ReportOf(scannerId, t)] else []
  }

  /** `bmt_mesh_publish_tags`: what it hands to the mesh, and how many of those went out.
      The table does not change meanwhile: the radio is in its publishing phase. */
  method PublishTags(scanner: Scanner, scannerId: uint8, provisioned: bool, works: seq<bool>)
    returns (sent: seq<TagReport>, published: nat)
    requires scanner.Valid() && |works| == MAX_TAGS
    ensures sent == if provisioned then Reports(scannerId, scanner.tags[..]) else []
    ensures published <= |sent|
    ensures (forall i :: 0 <= i < MAX_TAGS ==> works[i]) ==> published == |sent|
    ensures (forall i :: 0 <= i < MAX_TAGS ==> !works[i]) ==> published == 0
  {
    sent, published := [], 0;
    if !provisioned { return; }
    for i := 0 to MAX_TAGS
      invariant sent == Reports(scannerId, scanner.tags[..i]) && published <= |sent|
      invariant (forall j :: 0 <= j < i ==> works[j]) ==> published == |sent|
      invariant (forall j :: 0 <= j < i ==> !works[j]) ==> published == 0
    {
      assert scanner.tags[..i + 1][..i] == scanner.tags[..i];
      var t := scanner.tags[i];
      if !t.active { continue; }
      sent := sent + [ReportOf(scannerId, t)];
      if works[i] { published := published + 1; }
    }
    assert scanner.tags[..MAX_TAGS] == scanner.tags[..];
  }

  /** Reports come in the order of the slots: that of an active slot stands behind as many others as
      there are active slots before it. */
  lemma {:induction false} ReportsInSlotOrder(scannerId: uint8, tags: seq<TagInfo>, i: nat)
    requires i < |tags| && tags[i].active
    ensures var rs, k := Reports(scannerId, tags), |Reports(scannerId, tags[..i])|;
            k < |rs| && rs[k] == ReportOf(scannerId, tags[i])
  {
    var front := tags[..|tags| - 1];
    if i == |front| {
      assert tags[..i] == front;
    } else {
      ReportsInSlotOrder(scannerId, front, i);
      assert front[..i] == tags[..i];
    }
  }

  /** After any history a scanner reports exactly the tags it tracks, each once, with the estimate
      of the samples since the tag's filter was last started: truncated, never wrapped. */
  lemma ReportsAreTheTracks(es: seq<Event>, scannerId: uint8)
    ensures var rs, m := Reports(scannerId, TableRun(es).tags), MapRun(es);
            && (forall i, j :: 0 <= i < j < |rs| ==> rs[i].tagId != rs[j].tagId)
            && (forall id: uint16 :: id in m <==> exists r :: r in rs && r.tagId == id)
            && (forall r :: r in rs && r.tagId in m ==>
                  && r.scannerId == scannerId && r.battery == m[r.tagId].info.battery
                  && r.rssi == TruncReal(Kalman.Run(m[r.tagId].samples).x)
                  && r.lossPercent == LossPercent(m[r.tagId].info.count))
  {
    var T, m := TableRun(es), MapRun(es);
    var rs := Reports(scannerId, T.tags);
    TableRefinesMap(es);
    ReportsAreDistinct(scannerId, T.tags);
    forall id: uint16 ensures id in m <==> exists r :: r in rs && r.tagId == id {
      UsedIffReported(T.tags, id, scannerId);
      assert id in Keys(Ids(T.tags)) <==> id in m;
    }
    forall r | r in rs && r.tagId in m
      ensures r.scannerId == scannerId && r.battery == m[r.tagId].info.battery
              && r.rssi == TruncReal(Kalman.Run(m[r.tagId].samples).x)
              && r.lossPercent == LossPercent(m[r.tagId].info.count)
    {
      ReportOfTrack(es, r, scannerId);
    }
  }

  lemma ReportOfTrack(es: seq<Event>, r: TagReport, scannerId: uint8)
    requires r in Reports(scannerId, TableRun(es).tags) && r.tagId in MapRun(es)
    ensures var k := MapRun(es)[r.tagId];
            && r.scannerId == scannerId && r.battery == k.info.battery
            && r.rssi == TruncReal(Kalman.Run(k.samples).x) && r.lossPercent == LossPercent(k.info.count)
  {
    TableRefinesMap(es);
    var tags := TableRun(es).tags;
    var i :| 0 <= i < |tags| && tags[i].active && r == ReportOf(scannerId, tags[i]);
    PublishedRssiInRange(es, i);
  }

  lemma UsedIffReported(tags: seq<TagInfo>, id: uint16, scannerId: uint8)
    ensures Some(id) in Ids(tags) <==> exists r :: r in Reports(scannerId, tags) && r.tagId == id
  {
    var ids := Ids(tags);
    if Some(id) in ids {
      var i :| 0 <= i < |ids| && ids[i] == Some(id);
      assert ReportOf(scannerId, tags[i]) in Reports(scannerId, tags);
    }
    if r :| r in Reports(scannerId, tags) && r.tagId == id {
      var i :| 0 <= i < |tags| && tags[i].active && r == ReportOf(scannerId, tags[i]);
      assert ids[i] == Some(id);
    }
  }

  lemma {:induction false} ReportsAreDistinct(scannerId: uint8, tags: seq<TagInfo>)
    requires Unique(Ids(tags))
    ensures var rs := Reports(scannerId, tags);
            forall i, j :: 0 <= i < j < |rs| ==> rs[i].tagId != rs[j].tagId
  {
    if |tags| > 0 {
      var front, t := tags[..|tags| - 1], tags[|tags| - 1];
      assert Ids(front) == Ids(tags)[..|front|];
      ReportsAreDistinct(scannerId, front);
      if t.active {
        var rs := Reports(scannerId, front);
        assert Reports(scannerId, tags) == rs + [ReportOf(scannerId, t)];
        forall k | 0 <= k < |rs| ensures rs[k].tagId != t.tagId {
          var r := rs[k];
          assert r in rs && r.tagId == rs[k].tagId;
          var i :| 0 <= i < |front| && front[i].active && r == ReportOf(scannerId, front[i]);
          assert Ids(tags)[i] != Ids(tags)[|front|];
        }
      } else {
        assert Reports(scannerId, tags) == Reports(scannerId, front);
      }
    }
  }

  // ----- the published loss is the true loss -----

  /** `truth[i]` is the unbounded counter behind the sequence number of event i. */
  ghost predicate Truthful(es: seq<Event>, truth: seq<int>) {
    |truth| == |es| && forall i :: 0 <= i < |es| && es[i].Seen? ==> es[i].s.sequence == U8(truth[i])
  }

  /** The true counters of a tag's frames since its entry was made. */
  function Counters(es: seq<Event>, truth: seq<int>, id: uint16): seq<int>
    requires |truth| == |es|
  {
    if |es| == 0 || id !in MapRun(es) then []
    else
      var init, n := es[..|es| - 1], truth[|es| - 1];
      var ns := Counters(init, truth[..|es| - 1], id);
      match es[|es| - 1]
      case Seen(s) => if s.tagId == id then ns + [n] else ns
      case Sweep(_) => ns
  }

  /** The counters of every entry are those that the tag's own true counters make. */
  lemma {:induction false} EntryCountsItsFrames(es: seq<Event>, truth: seq<int>, id: uint16)
    requires Truthful(es, truth)
    ensures id in MapRun(es) <==> Counters(es, truth, id) != []
    ensures id in MapRun(es) ==> MapRun(es)[id].info.count == CountRun(Counters(es, truth, id))
  {
    if |es| > 0 {
      var init, n := es[..|es| - 1], truth[|es| - 1];
      var ns := Counters(init, truth[..|es| - 1], id);
      EntryCountsItsFrames(init, truth[..|es| - 1], id);
      if es[|es| - 1].Seen? && es[|es| - 1].s.tagId == id {
        HeardCounts(MapRun(init), es[|es| - 1].s, ns, n);
      }
    }
  }

  lemma HeardCounts(m: Tracks, s: Sighting, ns: seq<int>, n: int)
    requires Coherent(m) && s.sequence == U8(n) && (s.tagId in m <==> ns != [])
    requires s.tagId in m ==> m[s.tagId].info.count == CountRun(ns)
    ensures var m' := MapAfter(m, Seen(s)); s.tagId in m' ==> m'[s.tagId].info.count == CountRun(ns + [n])
  {
    assert (ns + [n])[..|ns|] == ns;
  }

  lemma ReportedLossIsCounted(es: seq<Event>, truth: seq<int>, scannerId: uint8, r: TagReport)
    requires Truthful(es, truth) && r in Reports(scannerId, TableRun(es).tags)
    ensures var ns := Counters(es, truth, r.tagId);
            ns != [] && r.lossPercent == LossPercent(CountRun(ns))
  {
    ReportsAreTheTracks(es, scannerId);
    EntryCountsItsFrames(es, truth, r.tagId);
  }

  /** While a tag is tracked - no frame ten or more behind the newest or over thirty ahead of it -
      and fewer than 2^32 frames are involved, the loss its scanner reports is the true floored
      percentage, of the counters between its first and newest frame that never advanced it,
      exactly if a hundred times their number fits 32 bits. */
  lemma ReportedLossIsTrueIff(es: seq<Event>, truth: seq<int>, scannerId: uint8, r: TagReport)
    requires Truthful(es, truth) && r in Reports(scannerId, TableRun(es).tags)
    requires var ns := Counters(es, truth, r.tagId);
             ns != [] ==> Tracked(ns) && HeardOf(ns) + LostOf(ns) < TWO32
    ensures var ns := Counters(es, truth, r.tagId);
            ns != [] && (r.lossPercent == TruePercent(ns) <==> LostOf(ns) * 100 < TWO32)
  {
    ReportedLossIsCounted(es, truth, scannerId, r);
    CountedLossIsTrueIff(Counters(es, truth, r.tagId));
  }

  // ----- a run with a wrong loss -----

  /** Every 4.5 s the scanner sweeps its table and then hears every ninth frame of one tag. */
  function Pause(n: nat): Event { Sweep(U32(4500 * n)) }

  function Ninth(n: nat): Sighting
    requires n > 0
  {
    Sighting(1, 100, -59, U8(9 * (n - 1)), -60, [], 0, U32(4500 * n))
  }

  ghost predicate SteadyRun(es: seq<Event>, n: nat) {
    |es| == 2 * n && forall i :: 0 <= i < n ==> es[2 * i] == Pause(i + 1) && es[2 * i + 1] == Seen(Ninth(i + 1))
  }

  lemma ClockAdvances(now: nat, ms: nat)
    requires ms < TWO32
    ensures U32(U32(now + ms) - U32(now)) == ms
  {
    var k := (now + ms) / TWO32 - now / TWO32;
    assert U32(now + ms) - U32(now) == ms - k * TWO32;
  }

  /** The tag is tracked, and was last heard at its n-th frame. */
  ghost predicate Steady(m: Tracks, n: nat) {
    && Coherent(m)
    && if n == 0 then m == map[]
       else 1 in m && m[1].info.lastSeenMs == U32(4500 * n) && m[1].info.count.last == U8(9 * (n - 1))
  }

  lemma SurvivesPause(m: Tracks, n: nat)
    requires n > 0 && Steady(m, n - 1)
    ensures Steady(MapAfter(m, Pause(n)), n - 1)
  {
    ClockAdvances(4500 * (n - 1), 4500);
  }

  lemma HearsNinth(m: Tracks, n: nat)
    requires n > 0 && Steady(m, n - 1)
    ensures Steady(MapAfter(m, Seen(Ninth(n))), n)
  {
    if n > 1 { ClassifyTrueCounter(9 * (n - 2), 9 * (n - 1)); }
  }

  lemma CountersStep(es: seq<Event>, truth: seq<int>, e: Event, n: int)
    requires |truth| == |es| && (e.Seen? ==> e.s.tagId == 1)
    ensures MapRun(es + [e]) == MapAfter(MapRun(es), e)
    ensures Counters(es + [e], truth + [n], 1)
         == if 1 !in MapRun(es + [e]) then [] else Counters(es, truth, 1) + if e.Seen? then [n] else []
  {
    assert (es + [e])[..|es|] == es && (truth + [n])[..|es|] == truth;
  }

  lemma AddPause(es: seq<Event>, truth: seq<int>, n: nat)
    requires n > 0 && Truthful(es, truth) && Steady(MapRun(es), n - 1) && Counters(es, truth, 1) == EveryNinth(n - 1)
    ensures Truthful(es + [Pause(n)], truth + [0]) && Steady(MapRun(es + [Pause(n)]), n - 1)
    ensures Counters(es + [Pause(n)], truth + [0], 1) == EveryNinth(n - 1)
  {
    CountersStep(es, truth, Pause(n), 0);
    SurvivesPause(MapRun(es), n);
  }

  lemma AddNinth(es: seq<Event>, truth: seq<int>, n: nat)
    requires n > 0 && Truthful(es, truth) && Steady(MapRun(es), n - 1) && Counters(es, truth, 1) == EveryNinth(n - 1)
    ensures Truthful(es + [Seen(Ninth(n))], truth + [9 * (n - 1)])
    ensures Steady(MapRun(es + [Seen(Ninth(n))]), n)
    ensures Counters(es + [Seen(Ninth(n))], truth + [9 * (n - 1)], 1) == EveryNinth(n)
  {
    TruthfulStep(es, truth, Seen(Ninth(n)), 9 * (n - 1));
    SteadyStep(es, n);
    CountersStep(es, truth, Seen(Ninth(n)), 9 * (n - 1));
    NextNinth(n);
  }

  lemma TruthfulStep(es: seq<Event>, truth: seq<int>, e: Event, n: int)
    requires Truthful(es, truth) && (e.Seen? ==> e.s.sequence == U8(n))
    ensures Truthful(es + [e], truth + [n])
  {
  }

  lemma SteadyStep(es: seq<Event>, n: nat)
    requires n > 0 && Steady(MapRun(es), n - 1)
    ensures Steady(MapRun(es + [Seen(Ninth(n))]), n)
  {
    HearsNinth(MapRun(es), n);
    assert (es + [Seen(Ninth(n))])[..|es|] == es;
  }

  lemma NextNinth(n: nat)
    requires n > 0
    ensures EveryNinth(n) == EveryNinth(n - 1) + [9 * (n - 1)]
  {
  }

  lemma ExtendSteady(es: seq<Event>, n: nat)
    requires n > 0 && SteadyRun(es, n - 1)
    ensures SteadyRun(es + [Pause(n)] + [Seen(Ninth(n))], n)
  {
  }

  /** In such a run the tag never times out, so its entry counts every frame heard. */
  lemma {:induction false} SteadyHistory(n: nat) returns (es: seq<Event>, truth: seq<int>)
    ensures SteadyRun(es, n) && Truthful(es, truth) && Steady(MapRun(es), n)
    ensures Counters(es, truth, 1) == EveryNinth(n)
  {
    if n == 0 {
      es, truth := [], [];
    } else {
      es, truth := SteadyHistory(n - 1);
      ExtendSteady(es, n);
      AddPause(es, truth, n);
      es, truth := es + [Pause(n)], truth + [0];
      AddNinth(es, truth, n);
      es, truth := es + [Seen(Ninth(n))], truth + [9 * (n - 1)];
    }
  }

  lemma ReportOfCounters(es: seq<Event>, truth: seq<int>, scannerId: uint8) returns (r: TagReport)
    requires Truthful(es, truth) && Counters(es, truth, 1) != []
    ensures r in Reports(scannerId, TableRun(es).tags) && r.tagId == 1
    ensures r.lossPercent == LossPercent(CountRun(Counters(es, truth, 1)))
  {
    EntryCountsItsFrames(es, truth, 1);
    ReportsAreTheTracks(es, scannerId);
    r :| r in Reports(scannerId, TableRun(es).tags) && r.tagId == 1;
    ReportedLossIsCounted(es, truth, scannerId, r);
  }

  /** A run without timeouts, of 5,368,711 frames heard, whose report says 0 percent where 88 were
      lost. */
  lemma WrongLossIsReported(scannerId: uint8) returns (es: seq<Event>, truth: seq<int>, r: TagReport)
    ensures SteadyRun(es, 5_368_711) && Truthful(es, truth)
    ensures r in Reports(scannerId, TableRun(es).tags) && r.tagId == 1
    ensures var ns := Counters(es, truth, 1);
            ns != [] && Tracked(ns) && r.lossPercent == 0 && TruePercent(ns) == 88
  {
    es, truth := SteadyHistory(5_368_711);
    EveryNinthIsTracked(5_368_711);
    r := ReportOfCounters(es, truth, scannerId);
    LossWraps();
  }
}
