/** Whole runs of the tag tracking: reports, timeout turns and reconnects in any order, with the
    timeout task reading the clock before it takes the lock. */
module OutOfRangeRuns {
  import opened Machine
  import opened SlotTable
  import opened OutOfRange

  /** A declared timeout, with the true times of the clock reading it used and of the tag's last
      located report. */
  datatype Alarm = Alarm(tagId: uint16, readAt: nat, heardAt: nat)

  /** `clock` is true uptime in ms, of which the firmware sees the low 32 bits; `read` the value
      the timeout task holds; `heard` when each tag was last located. */
  datatype State = State(
    tracks: seq<Track>, clock: nat, read: Option<nat>, heard: map<uint16, nat>,
    notes: seq<Note>, alarms: seq<Alarm>)

  datatype Event =
    | Elapse(ms: nat)
    | Arrive(r: Report)
    | ReadClock
    | TakeTurn(works: seq<bool>)
    | Reconnect(works: seq<bool>)

  predicate Enabled(s: State, e: Event) {
    match e
    case TakeTurn(works) => s.read.Some? && |works| == MAX_TRACKED
    case Reconnect(works) => |works| == MAX_TRACKED
    case _ => true
  }

  /** The alarms of a timeout turn over the first `n` entries. */
  function AlarmsOf(ts: seq<Track>, n: nat, read: nat, heard: map<uint16, nat>): seq<Alarm>
    requires n <= |ts| && forall i :: 0 <= i < |ts| ==> |ts[i].valid| == MAX_SCANNERS
  {
    if n == 0 then []
    else
      var t := ts[n - 1];
      AlarmsOf(ts, n - 1, read, heard)
        + if Declared in Applied(t, TimeOut(U32(read), true)).1 && t.tagId in heard
          then [Alarm(t.tagId, read, heard[t.tagId])] else []
  }

  function After(s: State, e: Event): State
    requires Enabled(s, e) && WellFormed(s.tracks)
  {
    match e
    case Elapse(ms) => s.(clock := s.clock + ms)
    case Arrive(r) =>
      var (ts, ns) := AfterReport(s.tracks, r, U32(s.clock));
      s.(tracks := ts, notes := s.notes + ns,
         heard := if Located(r) && PlaceFor(s.tracks, r.tagId) >= 0 then s.heard[r.tagId := s.clock] else s.heard)
    case ReadClock => s.(read := Some(s.clock))
    case TakeTurn(works) =>
      var (ts, ns) := Pass(s.tracks, MAX_TRACKED, Timeouts(U32(s.read.value), works));
      s.(tracks := ts, notes := s.notes + ns, read := None,
         alarms := s.alarms + AlarmsOf(s.tracks, MAX_TRACKED, s.read.value, s.heard))
    case Reconnect(works) =>
      var (ts, ns) := Pass(s.tracks, MAX_TRACKED, Replays(works));
      s.(tracks := ts, notes := s.notes + ns)
  }

  lemma StepWellFormed(s: State, e: Event)
    requires Enabled(s, e) && WellFormed(s.tracks)
    ensures WellFormed(After(s, e).tracks)
  {
    match e {
      case Arrive(r) => ReportWellFormed(s.tracks, r, U32(s.clock));
      case TakeTurn(works) => PassWellFormed(s.tracks, MAX_TRACKED, Timeouts(U32(s.read.value), works));
      case Reconnect(works) => PassWellFormed(s.tracks, MAX_TRACKED, Replays(works));
      case _ =>
    }
  }

  ghost predicate Legal(s: State, es: seq<Event>)
    decreases |es|
  {
    WellFormed(s.tracks) && (es == [] || (Enabled(s, es[0]) && Legal(After(s, es[0]), es[1..])))
  }

  ghost function RunFrom(s: State, es: seq<Event>): (s': State)
    requires Legal(s, es)
    ensures WellFormed(s'.tracks)
    decreases |es|
  {
    if es == [] then s else RunFrom(After(s, es[0]), es[1..])
  }

  function PowerUp(): State { State(Untracked(), 0, None, map[], [], []) }

  // ----- conservation -----

  /** How often `fact` happened to a tag. */
  function Tally(ns: seq<Note>, id: uint16, fact: Fact): nat {
    if ns == [] then 0
    else Tally(ns[..|ns| - 1], id, fact) + if ns[|ns| - 1] == Note(id, fact) then 1 else 0
  }

  function Pending(ts: seq<Track>, id: uint16): nat {
    var i := IndexOf(Ids(ts), Some(id));
    if i >= 0 then Due(ts[i]) else 0
  }

  lemma {:induction false} TallyAppends(a: seq<Note>, b: seq<Note>, id: uint16, fact: Fact)
    ensures Tally(a + b, id, fact) == Tally(a, id, fact) + Tally(b, id, fact)
  {
    if b == [] {
      assert a + b == a;
    } else {
      TallyAppends(a, b[..|b| - 1], id, fact);
      assert (a + b)[..|a + b| - 1] == a + b[..|b| - 1];
    }
  }

  lemma {:induction false} TallyTagged(tag: uint16, fs: seq<Fact>, id: uint16, fact: Fact)
    ensures Tally(Tagged(tag, fs), id, fact) == if tag == id then Count(fs, fact) else 0
  {
    if fs != [] {
      TallyTagged(tag, fs[..|fs| - 1], id, fact);
      assert Tagged(tag, fs)[..|fs| - 1] == Tagged(tag, fs[..|fs| - 1]);
    }
  }

  /** What a tag took on beyond what was settled. */
  function Open(ns: seq<Note>, id: uint16): int {
    Tally(ns, id, Declared) - Tally(ns, id, Published) - Tally(ns, id, Superseded)
  }

  lemma OpenAppends(a: seq<Note>, b: seq<Note>, id: uint16)
    ensures Open(a + b, id) == Open(a, id) + Open(b, id)
  {
    TallyAppends(a, b, id, Declared);
    TallyAppends(a, b, id, Published);
    TallyAppends(a, b, id, Superseded);
  }

  /** One operation on an entry changes what is pending for its tag by what it leaves open. */
  lemma OpMovesPending(ts: seq<Track>, i: nat, op: Op, id: uint16)
    requires WellFormed(ts) && i < MAX_TRACKED && (op.Hear? ==> ts[i].active)
    ensures var (t, fs) := Applied(ts[i], op);
            Pending(ts[i := t], id) == Pending(ts, id) + Open(Tagged(ts[i].tagId, fs), id)
  {
    var (t, fs) := Applied(ts[i], op);
    ReplaceWellFormed(ts, i, op);
    OpBalances(ts[i], op);
    TallyTagged(ts[i].tagId, fs, id, Declared);
    TallyTagged(ts[i].tagId, fs, id, Published);
    TallyTagged(ts[i].tagId, fs, id, Superseded);
    if ts[i].active {
      IndexOfUnique(Ids(ts), i);
    }
  }

  lemma TrackingMovesNothing(ts: seq<Track>, id: uint16, battery: uint8, other: uint16)
    requires WellFormed(ts)
    ensures Pending(Tracking(ts, id, battery), other) == Pending(ts, other)
  {
    TrackingWellFormed(ts, id, battery);
    ClaimPlaces(Ids(ts), id, other);
  }

  lemma ReportMovesPending(ts: seq<Track>, r: Report, now: uint32, id: uint16)
    requires WellFormed(ts)
    ensures var (ts', ns) := AfterReport(ts, r, now);
            Pending(ts', id) == Pending(ts, id) + Open(ns, id)
  {
    var p, ts1 := PlaceFor(ts, r.tagId), Tracking(ts, r.tagId, r.battery);
    TrackingWellFormed(ts, r.tagId, r.battery);
    TrackingMovesNothing(ts, r.tagId, r.battery, id);
    if p >= 0 { OpMovesPending(ts1, p, Hear(r, now), id); }
  }

  lemma {:induction false} PassMovesPending(ts: seq<Track>, n: nat, turn: Turn, id: uint16)
    requires WellFormed(ts) && n <= MAX_TRACKED == |turn.works|
    ensures var (ts', ns) := Pass(ts, n, turn);
            Pending(ts', id) == Pending(ts, id) + Open(ns, id)
  {
    if n > 0 {
      PassMovesPending(ts, n - 1, turn, id);
      PassWellFormed(ts, n - 1, turn);
      var (ts1, ns) := Pass(ts, n - 1, turn);
      OpMovesPending(ts1, n - 1, OpAt(turn, n - 1), id);
      OpenAppends(ns, Tagged(ts[n - 1].tagId, Applied(ts[n - 1], OpAt(turn, n - 1)).1), id);
    }
  }

  lemma StepConserves(s: State, e: Event, id: uint16)
    requires Enabled(s, e) && WellFormed(s.tracks)
    ensures Pending(After(s, e).tracks, id) - Open(After(s, e).notes, id) == Pending(s.tracks, id) - Open(s.notes, id)
  {
    match e {
      case Arrive(r) =>
        ReportMovesPending(s.tracks, r, U32(s.clock), id);
        OpenAppends(s.notes, AfterReport(s.tracks, r, U32(s.clock)).1, id);
      case TakeTurn(works) =>
        var turn := Timeouts(U32(s.read.value), works);
        PassMovesPending(s.tracks, MAX_TRACKED, turn, id);
        OpenAppends(s.notes, Pass(s.tracks, MAX_TRACKED, turn).1, id);
      case Reconnect(works) =>
        PassMovesPending(s.tracks, MAX_TRACKED, Replays(works), id);
        OpenAppends(s.notes, Pass(s.tracks, MAX_TRACKED, Replays(works)).1, id);
      case _ =>
    }
  }

  lemma {:induction false} RunConserves(s: State, es: seq<Event>, id: uint16)
    requires Legal(s, es)
    ensures WellFormed(RunFrom(s, es).tracks)
    ensures Pending(RunFrom(s, es).tracks, id) - Open(RunFrom(s, es).notes, id) == Pending(s.tracks, id) - Open(s.notes, id)
    decreases |es|
  {
    if es != [] {
      StepConserves(s, es[0], id);
      RunConserves(After(s, es[0]), es[1..], id);
    }
  }

  /** In every interleaving, for every tag: timeouts declared are those published, those
      superseded by a report, and the one pending if there is one. A pending one implies that the
      zone is unknown, which it is exactly while no scanner entry of the tag is valid. */
  lemma TimeoutsAreConserved(es: seq<Event>, id: uint16)
    requires Legal(PowerUp(), es)
    ensures var s := RunFrom(PowerUp(), es);
            && Tally(s.notes, id, Declared)
                 == Tally(s.notes, id, Published) + Tally(s.notes, id, Superseded) + Pending(s.tracks, id)
            && |s.tracks| == MAX_TRACKED && forall i :: 0 <= i < MAX_TRACKED ==> Coherent(s.tracks[i])
  {
    RunConserves(PowerUp(), es, id);
    assert IndexOf(Ids(Untracked()), Some(id)) == -1;
  }

  // ----- what each event publishes -----

  /** An operation on an entry that is not in use does nothing. */
  lemma FreeDoesNothing(t: Track, op: Op)
    requires Coherent(t) && !t.active && !op.Hear?
    ensures Applied(t, op) == (t, [])
  {
  }

  /** A pass does to a tag what its operation does to the tag's entry, if it has one. */
  lemma {:induction false} PassTallies(ts: seq<Track>, n: nat, turn: Turn, id: uint16, fact: Fact)
    requires WellFormed(ts) && n <= MAX_TRACKED == |turn.works|
    ensures var i := IndexOf(Ids(ts), Some(id));
            Tally(Pass(ts, n, turn).1, id, fact)
              == if 0 <= i < n then Count(Applied(ts[i], OpAt(turn, i)).1, fact) else 0
  {
    if n > 0 {
      PassTallies(ts, n - 1, turn, id, fact);
      PassTallyStep(ts, n - 1, turn, id, fact);
      EntryOf(ts, n - 1, id);
    }
  }

  lemma PassTallyStep(ts: seq<Track>, k: nat, turn: Turn, id: uint16, fact: Fact)
    requires WellFormed(ts) && k < MAX_TRACKED == |turn.works|
    ensures Tally(Pass(ts, k + 1, turn).1, id, fact)
         == Tally(Pass(ts, k, turn).1, id, fact)
            + if ts[k].active && ts[k].tagId == id then Count(Applied(ts[k], OpAt(turn, k)).1, fact) else 0
  {
    var op := OpAt(turn, k);
    var fs := Applied(ts[k], op).1;
    TallyTagged(ts[k].tagId, fs, id, fact);
    TallyAppends(Pass(ts, k, turn).1, Tagged(ts[k].tagId, fs), id, fact);
    if !ts[k].active { FreeDoesNothing(ts[k], op); }
  }

  /** An entry in use is the one of a tag exactly if it bears its number. */
  lemma EntryOf(ts: seq<Track>, k: nat, id: uint16)
    requires WellFormed(ts) && k < MAX_TRACKED
    ensures IndexOf(Ids(ts), Some(id)) == k <==> ts[k].active && ts[k].tagId == id
  {
    if ts[k].active { IndexOfUnique(Ids(ts), k); }
  }

  lemma PassPending(ts: seq<Track>, turn: Turn, id: uint16)
    requires WellFormed(ts) && MAX_TRACKED == |turn.works|
    ensures var i := IndexOf(Ids(ts), Some(id));
            Pending(Pass(ts, MAX_TRACKED, turn).0, id) == if i >= 0 then Due(Applied(ts[i], OpAt(turn, i)).0) else 0
  {
    PassWellFormed(ts, MAX_TRACKED, turn);
    var i := IndexOf(Ids(ts), Some(id));
    if i >= 0 { PassShape(ts, MAX_TRACKED, turn, i); }
  }

  /** What a run has made of a tag so far: the numbers that count, and its entry if it has one. */
  ghost predicate Grows(s: State, s': State, id: uint16, declared: nat, published: nat, superseded: nat, pending: nat) {
    && Tally(s'.notes, id, Declared) == Tally(s.notes, id, Declared) + declared
    && Tally(s'.notes, id, Published) == Tally(s.notes, id, Published) + published
    && Tally(s'.notes, id, Superseded) == Tally(s.notes, id, Superseded) + superseded
    && Pending(s'.tracks, id) == pending
  }

  lemma PassGrows(s: State, e: Event, turn: Turn, id: uint16)
    requires Enabled(s, e) && WellFormed(s.tracks) && MAX_TRACKED == |turn.works|
    requires if e.TakeTurn? then turn == Timeouts(U32(s.read.value), e.works) else e.Reconnect? && turn == Replays(e.works)
    ensures var i := IndexOf(Ids(s.tracks), Some(id));
            if i < 0 then Grows(s, After(s, e), id, 0, 0, 0, 0)
            else
              var (t, fs) := Applied(s.tracks[i], OpAt(turn, i));
              Grows(s, After(s, e), id, Count(fs, Declared), Count(fs, Published), Count(fs, Superseded), Due(t))
  {
    PassPending(s.tracks, turn, id);
    forall fact: Fact
      ensures Tally(After(s, e).notes, id, fact)
           == Tally(s.notes, id, fact) + Tally(Pass(s.tracks, MAX_TRACKED, turn).1, id, fact)
    {
      TallyAppends(s.notes, Pass(s.tracks, MAX_TRACKED, turn).1, id, fact);
    }
    PassTallies(s.tracks, MAX_TRACKED, turn, id, Declared);
    PassTallies(s.tracks, MAX_TRACKED, turn, id, Published);
    PassTallies(s.tracks, MAX_TRACKED, turn, id, Superseded);
  }

  /** A reconnect publishes exactly what is pending: after any run, of each tag the update that is,
      if publishing works for the tag's entry; one that fails stays pending. */
  lemma ReconnectPublishesPending(es: seq<Event>, works: seq<bool>, id: uint16)
    requires Legal(PowerUp(), es) && |works| == MAX_TRACKED
    ensures var s := RunFrom(PowerUp(), es);
            var i, due := IndexOf(Ids(s.tracks), Some(id)), Pending(s.tracks, id);
            && (i >= 0 && works[i] ==> Grows(s, After(s, Reconnect(works)), id, 0, due, 0, 0))
            && (i >= 0 && !works[i] ==> Grows(s, After(s, Reconnect(works)), id, 0, 0, 0, due))
            && (i < 0 ==> due == 0 && Grows(s, After(s, Reconnect(works)), id, 0, 0, 0, 0))
  {
    var s := RunFrom(PowerUp(), es);
    PassGrows(s, Reconnect(works), Replays(works), id);
    assert [Published][..0] == [];
  }

  /** So if all publishing works nothing is pending afterwards. */
  lemma NothingPendingAfterReconnect(es: seq<Event>, works: seq<bool>, id: uint16)
    requires Legal(PowerUp(), es) && |works| == MAX_TRACKED && forall i :: 0 <= i < MAX_TRACKED ==> works[i]
    ensures var s := RunFrom(PowerUp(), es);
            Grows(s, After(s, Reconnect(works)), id, 0, Pending(s.tracks, id), 0, 0)
  {
    ReconnectPublishesPending(es, works, id);
    assert IndexOf(Ids(RunFrom(PowerUp(), es).tracks), Some(id)) < MAX_TRACKED;
  }

  /** A timeout turn declares a tag out of range exactly if it is located and silent for more than
      10 s at the reading, and then publishes that or, if publishing fails, leaves it pending. */
  lemma TurnPublishesOrKeeps(es: seq<Event>, works: seq<bool>, id: uint16)
    requires Legal(PowerUp(), es) && Enabled(RunFrom(PowerUp(), es), TakeTurn(works))
    ensures var s := RunFrom(PowerUp(), es);
            var i, s' := IndexOf(Ids(s.tracks), Some(id)), After(s, TakeTurn(works));
            if i >= 0 && s.tracks[i].zone != 0xFF && U32(U32(s.read.value) - s.tracks[i].lastReportMs) > 10_000
            then if works[i] then Grows(s, s', id, 1, 1, 0, 0) else Grows(s, s', id, 1, 0, 0, 1)
            else Grows(s, s', id, 0, 0, 0, Pending(s.tracks, id))
  {
    var s := RunFrom(PowerUp(), es);
    PassGrows(s, TakeTurn(works), Timeouts(U32(s.read.value), works), id);
    CountBoth();
    if IndexOf(Ids(s.tracks), Some(id)) >= 0 {
      assert Ids(s.tracks)[IndexOf(Ids(s.tracks), Some(id))].Some?;
    }
  }

  lemma CountBoth()
    ensures Count([Declared, Published], Declared) == 1 && Count([Declared, Published], Published) == 1
    ensures Count([Declared, Published], Superseded) == 0
    ensures forall f, g :: Count([f], g) == if f == g then 1 else 0
  {
    assert [Declared, Published][..1] == [Declared];
    assert forall f: Fact :: [f][..0] == [];
  }

  lemma ReportTallies(ts: seq<Track>, r: Report, now: uint32, id: uint16)
    requires WellFormed(ts)
    ensures var ns := AfterReport(ts, r, now).1;
            && Tally(ns, id, Declared) == Tally(ns, id, Published) == 0
            && Tally(ns, id, Superseded) == if id == r.tagId then Pending(ts, id) else 0
  {
    var p, ts1 := PlaceFor(ts, r.tagId), Tracking(ts, r.tagId, r.battery);
    TrackingWellFormed(ts, r.tagId, r.battery);
    TrackingMovesNothing(ts, r.tagId, r.battery, id);
    CountBoth();
    if p >= 0 {
      EntryOf(ts1, p, r.tagId);
      HearTallies(ts1[p], Hear(r, now), id);
    }
  }

  lemma HearTallies(t: Track, op: Op, id: uint16)
    requires |t.valid| == MAX_SCANNERS && op.Hear?
    ensures var ns := Tagged(op.r.tagId, Applied(t, op).1);
            && Tally(ns, id, Declared) == Tally(ns, id, Published) == 0
            && Tally(ns, id, Superseded) == if id == op.r.tagId then Due(t) else 0
  {
    CountBoth();
    var fs := Applied(t, op).1;
    TallyTagged(op.r.tagId, fs, id, Declared);
    TallyTagged(op.r.tagId, fs, id, Published);
    TallyTagged(op.r.tagId, fs, id, Superseded);
  }

  /** Any report of a tag, located or not, supersedes what is pending for it and nothing else. */
  lemma ReportSupersedesPending(es: seq<Event>, r: Report, id: uint16)
    requires Legal(PowerUp(), es)
    ensures var s := RunFrom(PowerUp(), es);
            var due := Pending(s.tracks, id);
            Grows(s, After(s, Arrive(r)), id, 0, 0, if id == r.tagId then due else 0, if id == r.tagId then 0 else due)
  {
    var s := RunFrom(PowerUp(), es);
    var ns := AfterReport(s.tracks, r, U32(s.clock)).1;
    ReportTallies(s.tracks, r, U32(s.clock), id);
    ReportMovesPending(s.tracks, r, U32(s.clock), id);
    TallyAppends(s.notes, ns, id, Declared);
    TallyAppends(s.notes, ns, id, Published);
    TallyAppends(s.notes, ns, id, Superseded);
  }

  // ----- the entry of a tag over a run -----

  /** What an event does to the entry at index `i`. */
  function OpOf(s: State, e: Event, i: nat): seq<Op>
    requires Enabled(s, e) && i < MAX_TRACKED == |s.tracks|
  {
    match e
    case Arrive(r) => if r.tagId == s.tracks[i].tagId then [Hear(r, U32(s.clock))] else []
    case TakeTurn(works) => [TimeOut(U32(s.read.value), works[i])]
    case Reconnect(works) => [Replay(works[i])]
    case _ => []
  }

  ghost function OpsAt(s: State, es: seq<Event>, i: nat): seq<Op>
    requires Legal(s, es) && i < MAX_TRACKED
    decreases |es|
  {
    if es == [] then [] else OpOf(s, es[0], i) + OpsAt(After(s, es[0]), es[1..], i)
  }

  /** In every run that is what the entry of a tag holds, so `EntryAfter` describes it. */
  lemma {:induction false} EntryFollowsItsOps(s: State, es: seq<Event>, i: nat)
    requires Legal(s, es) && i < MAX_TRACKED && s.tracks[i].active
    ensures RunFrom(s, es).tracks[i] == AppliedAll(s.tracks[i], OpsAt(s, es, i))
    decreases |es|
  {
    if es != [] {
      var e, s1 := es[0], After(s, es[0]);
      EntryAfterEvent(s, e, i);
      EntryFollowsItsOps(s1, es[1..], i);
      Chain(s.tracks[i], OpOf(s, e, i), OpsAt(s1, es[1..], i));
    }
  }

  lemma {:induction false} Chain(t: Track, first: seq<Op>, rest: seq<Op>)
    requires |t.valid| == MAX_SCANNERS
    ensures AppliedAll(t, first + rest) == AppliedAll(AppliedAll(t, first), rest)
  {
    if rest == [] {
      assert first + [] == first;
    } else {
      Chain(t, first, rest[..|rest| - 1]);
      assert (first + rest)[..|first + rest| - 1] == first + rest[..|rest| - 1];
    }
  }

  lemma EntryAfterEvent(s: State, e: Event, i: nat)
    requires Enabled(s, e) && WellFormed(s.tracks) && i < MAX_TRACKED && s.tracks[i].active
    ensures var t := After(s, e).tracks[i];
            t == AppliedAll(s.tracks[i], OpOf(s, e, i)) && t.active && t.tagId == s.tracks[i].tagId
  {
    var t, ops := s.tracks[i], OpOf(s, e, i);
    assert |ops| == 1 ==> ops[..0] == [] && AppliedAll(t, ops) == Applied(t, ops[0]).0;
    match e {
      case Arrive(r) =>
        EntryOf(s.tracks, i, r.tagId);
        assert t.tagId == r.tagId ==> Applied(t.(battery := r.battery), ops[0]) == Applied(t, ops[0]);
      case TakeTurn(works) => PassShape(s.tracks, MAX_TRACKED, Timeouts(U32(s.read.value), works), i);
      case Reconnect(works) => PassShape(s.tracks, MAX_TRACKED, Replays(works), i);
      case _ =>
    }
  }

  /** And a tag that is new starts an entry of its own with the report that brings it. */
  lemma NewTagStartsEntry(s: State, r: Report, i: nat)
    requires WellFormed(s.tracks) && i == IndexOf(Ids(s.tracks), None) && IndexOf(Ids(s.tracks), Some(r.tagId)) < 0
    ensures After(s, Arrive(r)).tracks[i] == AppliedAll(NewTrack(r.tagId, r.battery), [Hear(r, U32(s.clock))])
  {
    assert !s.tracks[i].active;
    assert [Hear(r, U32(s.clock))][..0] == [];
  }

  // ----- false alarms -----

  lemma DeclaredMeans(t: Track, now: uint32, works: bool)
    requires |t.valid| == MAX_SCANNERS
    ensures Declared in Applied(t, TimeOut(now, works)).1 <==> t.active && Silent(t, now) && t.zone != ZONE_UNKNOWN
  {
    assert [Declared, Published][0] == Declared && [Declared][0] == Declared;
  }

  /** With a 32-bit clock: a timeout turn declares a located tag exactly if it has been silent for
      more than 10 s at the reading, or if it was heard after the reading. */
  lemma DeclaredIff(t: Track, readAt: nat, heardAt: nat, works: bool)
    requires |t.valid| == MAX_SCANNERS && t.active && t.zone != ZONE_UNKNOWN && t.lastReportMs == U32(heardAt)
    requires -(TWO32 - OUT_OF_RANGE_MS) < readAt - heardAt < TWO32
    ensures Declared in Applied(t, TimeOut(U32(readAt), works)).1
       <==> readAt - heardAt > OUT_OF_RANGE_MS || heardAt > readAt
  {
    WrappedDifference(readAt, heardAt);
    DeclaredMeans(t, U32(readAt), works);
  }

  lemma WrappedDifference(a: nat, b: nat)
    requires -TWO32 < a - b < TWO32
    ensures U32(U32(a) - U32(b)) == if a >= b then a - b else a - b + TWO32
  {
    var d := if a >= b then a - b else a - b + TWO32;
    var k := a / TWO32 - b / TWO32;
    assert U32(a) - U32(b) == a - b - TWO32 * k;
    assert 0 <= d < TWO32;
  }

  /** However long the silence, a declared timeout whose reading is not before the last report is
      at least 10 s of it. */
  lemma WrappedNeverLonger(a: nat, b: nat)
    requires b <= a
    ensures U32(U32(a) - U32(b)) <= a - b
  {
    assert U32(U32(a) - U32(b)) == U32(a - b) by {
      var k := a / TWO32 - b / TWO32;
      assert U32(a) - U32(b) == a - b - TWO32 * k;
    }
  }

  /** A located entry remembers when its tag was last heard. */
  ghost predicate Remembers(s: State) {
    && WellFormed(s.tracks)
    && (forall i :: 0 <= i < MAX_TRACKED && s.tracks[i].active && s.tracks[i].zone != ZONE_UNKNOWN ==>
          s.tracks[i].tagId in s.heard && s.tracks[i].lastReportMs == U32(s.heard[s.tracks[i].tagId]))
    && (s.read.Some? ==> s.read.value <= s.clock)
  }

  ghost predicate Genuine(a: Alarm) { a.readAt - a.heardAt > OUT_OF_RANGE_MS }

  ghost predicate AlarmsExplained(s: State) {
    forall a :: a in s.alarms ==> (Genuine(a) <==> a.heardAt <= a.readAt)
  }

  /** An alarm of the turn that is about to be taken. */
  ghost predicate OfTurn(s: State, a: Alarm)
    requires s.read.Some?
  {
    && (Genuine(a) <==> a.heardAt <= a.readAt)
    && a.readAt == s.read.value && a.tagId in s.heard && a.heardAt == s.heard[a.tagId]
  }

  lemma {:induction false} TurnAlarms(s: State, n: nat)
    requires Remembers(s) && s.read.Some? && n <= MAX_TRACKED
    ensures forall a :: a in AlarmsOf(s.tracks, n, s.read.value, s.heard) ==> OfTurn(s, a)
  {
    if n > 0 {
      TurnAlarms(s, n - 1);
      var t, read := s.tracks[n - 1], s.read.value;
      DeclaredMeans(t, U32(read), true);
      if Declared in Applied(t, TimeOut(U32(read), true)).1 {
        var heardAt := s.heard[t.tagId];
        assert U32(U32(read) - U32(heardAt)) > OUT_OF_RANGE_MS;
        if heardAt <= read { WrappedNeverLonger(read, heardAt); }
        assert OfTurn(s, Alarm(t.tagId, read, heardAt));
      }
    }
  }

  lemma ReportRemembers(s: State, r: Report)
    requires Remembers(s)
    ensures Remembers(After(s, Arrive(r)))
  {
    var s', p := After(s, Arrive(r)), PlaceFor(s.tracks, r.tagId);
    StepWellFormed(s, Arrive(r));
    TrackingWellFormed(s.tracks, r.tagId, r.battery);
    var ts1 := Tracking(s.tracks, r.tagId, r.battery);
    forall i | 0 <= i < MAX_TRACKED && s'.tracks[i].active && s'.tracks[i].zone != ZONE_UNKNOWN
      ensures s'.tracks[i].tagId in s'.heard && s'.tracks[i].lastReportMs == U32(s'.heard[s'.tracks[i].tagId])
    {
      if i != p {
        assert s'.tracks[i] == s.tracks[i] == ts1[i];
        assert p >= 0 ==> Ids(ts1)[i] != Ids(ts1)[p];
      }
    }
  }

  lemma {:induction false} PassShape(ts: seq<Track>, n: nat, turn: Turn, i: nat)
    requires WellFormed(ts) && i < n <= MAX_TRACKED == |turn.works|
    ensures Pass(ts, n, turn).0[i] == Applied(ts[i], OpAt(turn, i)).0
  {
    if i < n - 1 { PassShape(ts, n - 1, turn, i); }
  }

  lemma PassRemembers(s: State, s': State, turn: Turn)
    requires Remembers(s) && |turn.works| == MAX_TRACKED
    requires s'.tracks == Pass(s.tracks, MAX_TRACKED, turn).0
    requires s'.heard == s.heard && s'.clock == s.clock && (s'.read.None? || s'.read == s.read)
    ensures Remembers(s')
  {
    PassWellFormed(s.tracks, MAX_TRACKED, turn);
    forall i | 0 <= i < MAX_TRACKED ensures s'.tracks[i] == Applied(s.tracks[i], OpAt(turn, i)).0 {
      PassShape(s.tracks, MAX_TRACKED, turn, i);
    }
  }

  lemma StepExplains(s: State, e: Event)
    requires Enabled(s, e) && Remembers(s) && AlarmsExplained(s)
    ensures Remembers(After(s, e)) && AlarmsExplained(After(s, e))
  {
    match e {
      case Arrive(r) => ReportRemembers(s, r);
      case TakeTurn(works) =>
        PassRemembers(s, After(s, e), Timeouts(U32(s.read.value), works));
        TurnAlarms(s, MAX_TRACKED);
      case Reconnect(works) => PassRemembers(s, After(s, e), Replays(works));
      case _ =>
    }
  }

  lemma {:induction false} RunExplains(s: State, es: seq<Event>)
    requires Legal(s, es) && Remembers(s) && AlarmsExplained(s)
    ensures Remembers(RunFrom(s, es)) && AlarmsExplained(RunFrom(s, es))
    decreases |es|
  {
    if es != [] {
      StepExplains(s, es[0]);
      RunExplains(After(s, es[0]), es[1..]);
    }
  }

  /** In every run a declared timeout is genuine - the tag was silent for more than 10 s when the
      clock was read - exactly if no report of that tag came after the reading. */
  lemma AlarmGenuineIffNotHeardSince(es: seq<Event>, a: Alarm)
    requires Legal(PowerUp(), es) && a in RunFrom(PowerUp(), es).alarms
    ensures Genuine(a) <==> a.heardAt <= a.readAt
  {
    UntrackedWellFormed();
    RunExplains(PowerUp(), es);
  }

  /** No report arrives between a clock reading and the turn that uses it. */
  ghost predicate QuietReadings(s: State, es: seq<Event>)
    requires Legal(s, es)
    decreases |es|
  {
    es != [] ==> !(es[0].Arrive? && s.read.Some?) && QuietReadings(After(s, es[0]), es[1..])
  }

  ghost predicate HeardBeforeRead(s: State) {
    && Remembers(s)
    && (forall id :: id in s.heard ==> s.heard[id] <= s.clock)
    && (s.read.Some? ==> forall id :: id in s.heard ==> s.heard[id] <= s.read.value)
    && forall a :: a in s.alarms ==> Genuine(a)
  }

  /** Under that condition no false alarm is ever raised. */
  lemma {:induction false} QuietReadingsRaiseNoFalseAlarm(s: State, es: seq<Event>)
    requires Legal(s, es) && HeardBeforeRead(s) && QuietReadings(s, es)
    ensures HeardBeforeRead(RunFrom(s, es))
    decreases |es|
  {
    if es != [] {
      assert AlarmsExplained(s);
      StepExplains(s, es[0]);
      if es[0].TakeTurn? { TurnAlarms(s, MAX_TRACKED); }
      QuietReadingsRaiseNoFalseAlarm(After(s, es[0]), es[1..]);
    }
  }

  lemma {:induction false} AlarmIncluded(ts: seq<Track>, n: nat, i: nat, read: nat, heard: map<uint16, nat>)
    requires WellFormed(ts) && i < n <= MAX_TRACKED
    requires ts[i].tagId in heard && Declared in Applied(ts[i], TimeOut(U32(read), true)).1
    ensures Alarm(ts[i].tagId, read, heard[ts[i].tagId]) in AlarmsOf(ts, n, read, heard)
  {
    if i < n - 1 { AlarmIncluded(ts, n - 1, i, read, heard); }
  }

  /** Without it there is one each time: a located report of a tracked tag that lands after the
      reading makes the turn declare that tag out of range, however fresh the report is. */
  lemma ReportAfterReadingIsFalseAlarm(s: State, r: Report, works: seq<bool>)
    requires Remembers(s) && |works| == MAX_TRACKED && Located(r) && PlaceFor(s.tracks, r.tagId) >= 0
    requires s.read.Some? && 0 < s.clock - s.read.value < TWO32 - OUT_OF_RANGE_MS
    ensures var s' := After(s, Arrive(r));
            WellFormed(s'.tracks)
            && Alarm(r.tagId, s.read.value, s.clock) in After(s', TakeTurn(works)).alarms
  {
    var s', p := After(s, Arrive(r)), PlaceFor(s.tracks, r.tagId);
    ReportRemembers(s, r);
    TrackingWellFormed(s.tracks, r.tagId, r.battery);
    assert s'.tracks[p].active && s'.tracks[p].tagId == r.tagId;
    assert s'.tracks[p].valid[r.scannerId - 1] && Coherent(s'.tracks[p]);
    DeclaredIff(s'.tracks[p], s.read.value, s.clock, true);
    AlarmIncluded(s'.tracks, MAX_TRACKED, p, s.read.value, s'.heard);
  }
}
