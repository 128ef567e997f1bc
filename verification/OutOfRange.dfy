/** The gateway's tracking of tags across MQTT outages: reports, out-of-range timeouts and the
    replay of pending out-of-range updates, all under one lock.

    The RSSI and timestamp kept per scanner are only printed and are not modelled. */
module OutOfRange {
  import opened Machine
  import opened SlotTable

  const MAX_SCANNERS := 8
  const MAX_TRACKED := 16
  const OUT_OF_RANGE_MS := 10000
  const ZONE_UNKNOWN: uint8 := 0xFF

  datatype Track = Track(
    active: bool, tagId: uint16, battery: uint8, valid: seq<bool>, zone: uint8, pending: bool,
    lastZoneChangeMs: uint32, lastReportMs: uint32)

  function NoneValid(): seq<bool> { seq(MAX_SCANNERS, _ => false) }
  function Blank(): Track { Track(false, 0, 0, NoneValid(), 0, false, 0, 0) }

  datatype Report = Report(tagId: uint16, scannerId: uint8, battery: uint8)

  /** What an observer sees happen to a tag: a timeout is declared, an out-of-range update is
      published, or a pending one is superseded by a report. */
  datatype Fact = Declared | Published | Superseded
  datatype Note = Note(tagId: uint16, fact: Fact)

  predicate Located(r: Report) { 1 <= r.scannerId <= MAX_SCANNERS }

  // ----- one tag -----

  /** Operations on one tag, each under the lock. `now` is the clock value the operation uses. */
  datatype Op =
    | Hear(r: Report, now: uint32)
    | TimeOut(now: uint32, publishWorks: bool)
    | Replay(publishWorks: bool)

  function Silent(t: Track, now: uint32): bool { U32(now - t.lastReportMs) > OUT_OF_RANGE_MS }

  function Applied(t: Track, op: Op): (Track, seq<Fact>)
    requires |t.valid| == MAX_SCANNERS
  {
    match op
    case Hear(r, now) =>
      var t1 := t.(battery := r.battery, pending := false);
      (if !Located(r) then t1
       else t1.(valid := t.valid[r.scannerId - 1 := true], lastReportMs := now,
                zone := if t.zone == ZONE_UNKNOWN then r.scannerId else t.zone,
                lastZoneChangeMs := if t.zone == ZONE_UNKNOWN then now else t.lastZoneChangeMs),
       if t.pending then [Superseded] else [])
    case TimeOut(now, works) =>
      if !t.active || !Silent(t, now) || t.zone == ZONE_UNKNOWN then (t, [])
      else (t.(zone := ZONE_UNKNOWN, pending := !works, lastZoneChangeMs := now, valid := NoneValid()),
            if works then [Declared, Published] else [Declared])
    case Replay(works) =>
      if t.active && t.pending && works then (t.(pending := false), [Published]) else (t, [])
  }

  /** The zone is unknown exactly when no scanner entry is valid, and only then is an
      out-of-range update pending. */
  ghost predicate Coherent(t: Track) {
    && |t.valid| == MAX_SCANNERS
    && (t.active ==> (t.zone == ZONE_UNKNOWN <==> forall j :: 0 <= j < MAX_SCANNERS ==> !t.valid[j]))
    && (t.pending ==> t.active && t.zone == ZONE_UNKNOWN)
  }

  function Count(fs: seq<Fact>, f: Fact): nat {
    if fs == [] then 0 else Count(fs[..|fs| - 1], f) + if fs[|fs| - 1] == f then 1 else 0
  }

  function Due(t: Track): nat { if t.pending then 1 else 0 }

  lemma OpKeepsCoherent(t: Track, op: Op)
    requires Coherent(t) && (op.Hear? ==> t.active)
    ensures Coherent(Applied(t, op).0)
  {
    var t' := Applied(t, op).0;
    if op.Hear? && Located(op.r) { assert t'.valid[op.r.scannerId - 1]; }
  }

  /** An operation settles exactly as much as it takes on. */
  lemma OpBalances(t: Track, op: Op)
    requires Coherent(t)
    ensures var (t', fs) := Applied(t, op);
            Due(t) + Count(fs, Declared) == Count(fs, Published) + Count(fs, Superseded) + Due(t')
  {
    assert [Declared, Published][..1] == [Declared];
    assert Count([Declared, Published], Published) == Count([Declared], Published) + 1;
    assert Count([Declared, Published], Declared) == Count([Declared], Declared);
    assert Count([Declared, Published], Superseded) == Count([Declared], Superseded);
  }

  // ----- one entry over everything that happens to it -----

  /** What a free entry is set to for a new tag. */
  function NewTrack(id: uint16, battery: uint8): (t: Track)
    ensures |t.valid| == MAX_SCANNERS
  {
    Blank().(active := true, tagId := id, battery := battery, zone := ZONE_UNKNOWN)
  }

  function AppliedAll(t: Track, ops: seq<Op>): (r: Track)
    requires |t.valid| == MAX_SCANNERS
    ensures |r.valid| == MAX_SCANNERS
  {
    if |ops| == 0 then t else Applied(AppliedAll(t, ops[..|ops| - 1]), ops[|ops| - 1]).0
  }

  /** A report, and when it was heard. */
  datatype Heard = Heard(r: Report, now: uint32)

  /** The reports of scanners 1 to 8 since the tag was last out of range: a timeout turn puts it
      out of range if the latest of them is more than 10 s old. */
  function HeardSince(ops: seq<Op>): seq<Heard> {
    if |ops| == 0 then []
    else
      var hs := HeardSince(ops[..|ops| - 1]);
      match ops[|ops| - 1]
      case Hear(r, now) => if 1 <= r.scannerId <= 8 then hs + [Heard(r, now)] else hs
      case TimeOut(now, _) => if |hs| > 0 && U32(now - hs[|hs| - 1].now) > 10_000 then [] else hs
      case Replay(_) => hs
  }

  /** Whether the last time it went out of range is still to be told to the server. */
  function Untold(ops: seq<Op>): bool {
    if |ops| == 0 then false
    else
      var init := ops[..|ops| - 1];
      match ops[|ops| - 1]
      case Hear(_, _) => false
      case TimeOut(_, works) => if HeardSince(init) != [] && HeardSince(ops) == [] then !works else Untold(init)
      case Replay(works) => Untold(init) && !works
  }

  function LastBattery(battery: uint8, ops: seq<Op>): uint8 {
    if |ops| == 0 then battery
    else match ops[|ops| - 1]
      case Hear(r, _) => r.battery
      case _ => LastBattery(battery, ops[..|ops| - 1])
  }

  /** An entry holds as its zone the scanner that first heard the tag since it was last out of
      range, as valid scanners those that did, as times those of the first and the last of these
      reports, and the battery of the last report of any kind. */
  ghost predicate Holds(t: Track, battery: uint8, hs: seq<Heard>, untold: bool) {
    && |t.valid| == MAX_SCANNERS && t.active
    && t.battery == battery
    && t.zone == (if hs == [] then 0xFF else hs[0].r.scannerId)
    && (forall j :: 0 <= j < 8 ==> (t.valid[j] <==> exists h :: h in hs && h.r.scannerId == j + 1))
    && (hs != [] ==> t.lastZoneChangeMs == hs[0].now && t.lastReportMs == hs[|hs| - 1].now)
    && (t.pending <==> untold)
    && forall h :: h in hs ==> 1 <= h.r.scannerId <= 8
  }

  lemma HearHolds(t: Track, battery: uint8, hs: seq<Heard>, untold: bool, r: Report, now: uint32)
    requires Holds(t, battery, hs, untold)
    ensures Holds(Applied(t, Hear(r, now)).0, r.battery, if 1 <= r.scannerId <= 8 then hs + [Heard(r, now)] else hs, false)
  {
    var t', hs' := Applied(t, Hear(r, now)).0, hs + [Heard(r, now)];
    if 1 <= r.scannerId <= 8 {
      assert forall h :: h in hs' <==> h in hs || h == Heard(r, now);
    }
  }

  lemma TimeOutHolds(t: Track, battery: uint8, hs: seq<Heard>, untold: bool, now: uint32, works: bool)
    requires Holds(t, battery, hs, untold)
    ensures Holds(Applied(t, TimeOut(now, works)).0, battery,
                  if hs != [] && U32(now - hs[|hs| - 1].now) > 10_000 then [] else hs,
                  if hs != [] && U32(now - hs[|hs| - 1].now) > 10_000 then !works else untold)
  {
    if hs != [] { assert hs[0] in hs; }
  }

  /** So it is after anything that can happen to it. */
  lemma {:induction false} EntryAfter(id: uint16, battery: uint8, ops: seq<Op>)
    ensures var t := AppliedAll(NewTrack(id, battery), ops);
            Holds(t, LastBattery(battery, ops), HeardSince(ops), Untold(ops)) && t.tagId == id
  {
    if |ops| > 0 {
      var init := ops[..|ops| - 1];
      EntryAfter(id, battery, init);
      OpHolds(AppliedAll(NewTrack(id, battery), init), LastBattery(battery, init), HeardSince(init), Untold(init), ops[|ops| - 1]);
    }
  }

  lemma OpHolds(t: Track, battery: uint8, hs: seq<Heard>, untold: bool, op: Op)
    requires Holds(t, battery, hs, untold)
    ensures Applied(t, op).0.tagId == t.tagId
    ensures match op
      case Hear(r, now) =>
        Holds(Applied(t, op).0, r.battery, if 1 <= r.scannerId <= 8 then hs + [Heard(r, now)] else hs, false)
      case TimeOut(now, works) =>
        Holds(Applied(t, op).0, battery,
              if hs != [] && U32(now - hs[|hs| - 1].now) > 10_000 then [] else hs,
              if hs != [] && U32(now - hs[|hs| - 1].now) > 10_000 then !works else untold)
      case Replay(works) => Holds(Applied(t, op).0, battery, hs, untold && !works)
  {
    match op {
      case Hear(r, now) => HearHolds(t, battery, hs, untold, r, now);
      case TimeOut(now, works) => TimeOutHolds(t, battery, hs, untold, now, works);
      case Replay(_) =>
    }
  }

  // ----- the table -----

  function Ids(ts: seq<Track>): Column<uint16> {
    seq(|ts|, i requires 0 <= i < |ts| => if ts[i].active then Some(ts[i].tagId) else None)
  }

  function PlaceFor(ts: seq<Track>, id: uint16): (r: int)
    ensures -1 <= r < |ts|
  {
    var i := IndexOf(Ids(ts), Some(id));
    if i >= 0 then i else IndexOf(Ids(ts), None)
  }

  /** `bmt_zone_track_get_or_add`. */
  function Tracking(ts: seq<Track>, id: uint16, battery: uint8): (r: seq<Track>)
    ensures |r| == |ts|
  {
    var p := PlaceFor(ts, id);
    if p < 0 then ts
    else if ts[p].active then ts[p := ts[p].(battery := battery)]
    else ts[p := NewTrack(id, battery)]
  }

  ghost predicate WellFormed(ts: seq<Track>) {
    && |ts| == MAX_TRACKED
    && Unique(Ids(ts))
    && forall i :: 0 <= i < MAX_TRACKED ==> Coherent(ts[i])
  }

  function Tagged(id: uint16, fs: seq<Fact>): (ns: seq<Note>)
    ensures |ns| == |fs|
  {
    seq(|fs|, k requires 0 <= k < |fs| => Note(id, fs[k]))
  }

  function AfterReport(ts: seq<Track>, r: Report, now: uint32): (seq<Track>, seq<Note>)
    requires WellFormed(ts)
  {
    var p := PlaceFor(ts, r.tagId);
    var ts1 := Tracking(ts, r.tagId, r.battery);
    if p < 0 then (ts, [])
    else var (t, fs) := Applied(ts1[p], Hear(r, now)); (ts1[p := t], Tagged(r.tagId, fs))
  }

  /** A pass over the table under one lock; `works[i]` is whether publishing entry `i` succeeds. */
  datatype Turn = Timeouts(now: uint32, works: seq<bool>) | Replays(works: seq<bool>)

  function OpAt(turn: Turn, i: nat): Op
    requires i < |turn.works|
  {
    match turn
    case Timeouts(now, works) => TimeOut(now, works[i])
    case Replays(works) => Replay(works[i])
  }

  /** The pass over the first `n` entries. */
  function Pass(ts: seq<Track>, n: nat, turn: Turn): (r: (seq<Track>, seq<Note>))
    requires WellFormed(ts) && n <= MAX_TRACKED == |turn.works|
    ensures |r.0| == MAX_TRACKED && forall i :: n <= i < MAX_TRACKED ==> r.0[i] == ts[i]
  {
    if n == 0 then (ts, [])
    else
      var (ts1, ns) := Pass(ts, n - 1, turn);
      var (t, fs) := Applied(ts[n - 1], OpAt(turn, n - 1));
      (ts1[n - 1 := t], ns + Tagged(ts[n - 1].tagId, fs))
  }

  lemma NothingToNote(ns: seq<Note>, id: uint16)
    ensures ns + Tagged(id, []) == ns
  {
  }

  class Zones {
    const tracks: array<Track>

    ghost predicate Valid()
      reads tracks
    {
      tracks.Length == MAX_TRACKED && WellFormed(tracks[..])
    }

    constructor ()
      ensures Valid() && fresh(tracks) && tracks[..] == Untracked()
    {
      var blank := Track(false, 0, 0, [false, false, false, false, false, false, false, false], 0, false, 0, 0);
      tracks := new Track[MAX_TRACKED](_ => blank);
      new;
      assert blank == Blank();
      UntrackedWellFormed();
      assert tracks[..] == Untracked();
    }

    /** `bmt_zone_reset_all`. */
    method ResetAll()
      requires Valid()
      modifies tracks
      ensures Valid() && tracks[..] == Untracked()
    {
      for i := 0 to MAX_TRACKED
        invariant forall j :: 0 <= j < i ==> tracks[j] == Blank()
      {
        tracks[i] := Blank();
      }
      assert tracks[..] == Untracked();
      UntrackedWellFormed();
    }

    method Find(id: uint16) returns (r: int)
      requires Valid()
      ensures r == IndexOf(Ids(tracks[..]), Some(id))
    {
      ghost var ids := Ids(tracks[..]);
      for i := 0 to MAX_TRACKED
        invariant forall j :: 0 <= j < i ==> ids[j] != Some(id)
      {
        IndexOfIs(ids, Some(id), i);
        if tracks[i].active && tracks[i].tagId == id { return i; }
      }
      IndexOfIs(ids, Some(id), MAX_TRACKED);
      r := -1;
    }

    method GetOrAdd(id: uint16, battery: uint8) returns (r: int)
      requires Valid()
      modifies tracks
      ensures Valid() && tracks[..] == Tracking(old(tracks[..]), id, battery)
      ensures r == PlaceFor(old(tracks[..]), id)
    {
      TrackingWellFormed(tracks[..], id, battery);
      r := Find(id);
      if r >= 0 {
        tracks[r] := tracks[r].(battery := battery);
        return;
      }
      ghost var ids := Ids(tracks[..]);
      for i := 0 to MAX_TRACKED
        invariant forall j :: 0 <= j < i ==> ids[j] != None
        invariant tracks[..] == old(tracks[..])
      {
        IndexOfIs(ids, None, i);
        if !tracks[i].active {
          tracks[i] := Blank();
          tracks[i] := tracks[i].(active := true, tagId := id);
          tracks[i] := tracks[i].(battery := battery, zone := ZONE_UNKNOWN);
          assert tracks[..] == Tracking(old(tracks[..]), id, battery);
          return i;
        }
      }
      IndexOfIs(ids, None, MAX_TRACKED);
      r := -1;
    }

    /** The locked part of `bmt_tb_pub_tag_report`; `now` is read inside it. */
    method OnReport(r: Report, now: uint32) returns (ghost notes: seq<Note>)
      requires Valid()
      modifies tracks
      ensures Valid() && (tracks[..], notes) == AfterReport(old(tracks[..]), r, now)
    {
      ReportWellFormed(tracks[..], r, now);
      var idx := GetOrAdd(r.tagId, r.battery);
      if idx < 0 { return []; }
      var t := tracks[idx];
      notes := Tagged(r.tagId, if t.pending then [Superseded] else []);
      t := t.(pending := false);
      if r.scannerId >= 1 && r.scannerId <= MAX_SCANNERS {
        t := t.(valid := t.valid[r.scannerId - 1 := true], lastReportMs := now);
        if t.zone == ZONE_UNKNOWN {
          t := t.(zone := r.scannerId);
          t := t.(lastZoneChangeMs := now);
        }
      }
      tracks[idx] := t;
    }

    /** The locked part of one turn of `zone_timeout_task`, with the clock value it read before
        taking the lock. */
    method TimeoutTurn(now: uint32, works: seq<bool>) returns (ghost notes: seq<Note>)
      requires Valid() && |works| == MAX_TRACKED
      modifies tracks
      ensures Valid() && (tracks[..], notes) == Pass(old(tracks[..]), MAX_TRACKED, Timeouts(now, works))
    {
      ghost var ts, turn := tracks[..], Timeouts(now, works);
      notes := [];
      for i := 0 to MAX_TRACKED
        invariant (tracks[..], notes) == Pass(ts, i, turn)
      {
        var t := tracks[i];
        NothingToNote(notes, t.tagId);
        assert tracks[..] == tracks[..][i := t];
        if !t.active { continue; }
        if U32(now - t.lastReportMs) <= OUT_OF_RANGE_MS { continue; }
        if t.zone == ZONE_UNKNOWN { continue; }
        t := t.(zone := ZONE_UNKNOWN, pending := true, lastZoneChangeMs := now);
        var j := 0;
        while j < MAX_SCANNERS
          invariant j <= MAX_SCANNERS == |t.valid| && forall k :: 0 <= k < j ==> !t.valid[k]
          invariant t == ts[i].(zone := ZONE_UNKNOWN, pending := true, lastZoneChangeMs := now, valid := t.valid)
        {
          t := t.(valid := t.valid[j := false]);
          j := j + 1;
        }
        assert t.valid == NoneValid();
        notes := notes + Tagged(t.tagId, if works[i] then [Declared, Published] else [Declared]);
        if works[i] { t := t.(pending := false); }
        tracks[i] := t;
      }
      PassWellFormed(ts, MAX_TRACKED, turn);
    }

    /** The tag part of `bmt_tb_reconnect_all_devices`. */
    method ReplayPending(works: seq<bool>) returns (ghost notes: seq<Note>)
      requires Valid() && |works| == MAX_TRACKED
      modifies tracks
      ensures Valid() && (tracks[..], notes) == Pass(old(tracks[..]), MAX_TRACKED, Replays(works))
    {
      ghost var ts, turn := tracks[..], Replays(works);
      notes := [];
      for i := 0 to MAX_TRACKED
        invariant (tracks[..], notes) == Pass(ts, i, turn)
      {
        assert tracks[..] == tracks[..][i := tracks[i]];
        NothingToNote(notes, tracks[i].tagId);
        if !tracks[i].active { continue; }
        if tracks[i].pending && works[i] {
          notes := notes + Tagged(tracks[i].tagId, [Published]);
          tracks[i] := tracks[i].(pending := false);
        }
      }
      PassWellFormed(ts, MAX_TRACKED, turn);
    }
  }

  // ----- what the operations keep -----

  function Untracked(): seq<Track> { seq(MAX_TRACKED, _ => Blank()) }

  lemma UntrackedWellFormed()
    ensures WellFormed(Untracked())
  {
  }

  lemma TrackingWellFormed(ts: seq<Track>, id: uint16, battery: uint8)
    requires WellFormed(ts)
    ensures WellFormed(Tracking(ts, id, battery))
    ensures Ids(Tracking(ts, id, battery)) == Claim(Ids(ts), id)
    ensures var p := PlaceFor(ts, id);
            p >= 0 ==> Tracking(ts, id, battery)[p].active && Tracking(ts, id, battery)[p].tagId == id
  {
    var p := PlaceFor(ts, id);
    assert Ids(Tracking(ts, id, battery)) == Claim(Ids(ts), id);
    if IndexOf(Ids(ts), Some(id)) < 0 && p >= 0 { PutNew(Ids(ts), p, id); }
  }

  /** The tracks read as a partial map. */
  function TrackOf(ts: seq<Track>, id: uint16): Option<Track> {
    var i := IndexOf(Ids(ts), Some(id));
    if i >= 0 then Some(ts[i]) else None
  }

  /** Get-or-add is a map update at one tag, refused only by a full table of other tags: it refreshes the
      battery of a tag that is tracked, and starts tracking one that is not. */
  lemma TrackingIsMapUpdate(ts: seq<Track>, id: uint16, battery: uint8, x: uint16)
    requires WellFormed(ts)
    ensures PlaceFor(ts, id) < 0 <==> TrackOf(ts, id).None? && |Keys(Ids(ts))| == MAX_TRACKED
    ensures TrackOf(Tracking(ts, id, battery), x)
         == if x != id || PlaceFor(ts, id) < 0 then TrackOf(ts, x)
            else match TrackOf(ts, x)
                 case Some(t) => Some(t.(battery := battery))
                 case None => Some(NewTrack(id, battery))
  {
    FullIffAllUsed(Ids(ts));
    TrackingWellFormed(ts, id, battery);
    ClaimPlaces(Ids(ts), id, x);
    var i := IndexOf(Ids(ts), Some(id));
    if i >= 0 { assert Ids(ts)[i].Some?; }
    if i < 0 && IndexOf(Ids(ts), None) >= 0 { assert Ids(ts)[IndexOf(Ids(ts), None)].None?; }
  }

  lemma ReplaceWellFormed(ts: seq<Track>, i: nat, op: Op)
    requires WellFormed(ts) && i < MAX_TRACKED && (op.Hear? ==> ts[i].active)
    ensures WellFormed(ts[i := Applied(ts[i], op).0])
    ensures Ids(ts[i := Applied(ts[i], op).0]) == Ids(ts)
  {
    OpKeepsCoherent(ts[i], op);
    assert Ids(ts[i := Applied(ts[i], op).0]) == Ids(ts);
  }

  lemma ReportWellFormed(ts: seq<Track>, r: Report, now: uint32)
    requires WellFormed(ts)
    ensures WellFormed(AfterReport(ts, r, now).0)
  {
    var p := PlaceFor(ts, r.tagId);
    TrackingWellFormed(ts, r.tagId, r.battery);
    if p >= 0 { ReplaceWellFormed(Tracking(ts, r.tagId, r.battery), p, Hear(r, now)); }
  }

  lemma {:induction false} PassWellFormed(ts: seq<Track>, n: nat, turn: Turn)
    requires WellFormed(ts) && n <= MAX_TRACKED == |turn.works|
    ensures WellFormed(Pass(ts, n, turn).0) && Ids(Pass(ts, n, turn).0) == Ids(ts)
  {
    if n > 0 {
      PassWellFormed(ts, n - 1, turn);
      ReplaceWellFormed(Pass(ts, n - 1, turn).0, n - 1, OpAt(turn, n - 1));
    }
  }
}
