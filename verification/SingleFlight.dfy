/** The gateway's OTA tasks share one flag, taken by compare-and-swap, and one static argument.
    Starters and tasks interleave freely; each step is one access to what they share. */
module SingleFlight {
  import opened Machine
  import NodeTable

  datatype Kind = SelfUpdate | Distribute(isScan: bool, nodeType: byte)

  /** A starter goes from `Won` to `Created` or `Refused`, the task it made from `Created` on. */
  datatype Stage = Won | WroteScan | WroteType | Refused | Created | Running | Restarting | Ended

  /** One start that won the flag; `sawType` and `sawScan` are what its task has read so far. */
  datatype Flight = Flight(kind: Kind, stage: Stage, sawType: Option<byte>, sawScan: Option<bool>)

  /** `argScan` and `argType` are the shared static. */
  datatype State = State(running: bool, argScan: bool, argType: byte, flights: seq<Flight>)

  const BOOTED := State(false, false, 0, [])

  datatype Event =
    | Start(kind: Kind)
    | WriteScan(i: nat)
    | WriteType(i: nat)
    | Create(i: nat, works: bool)
    | Clear(i: nat)
    | LoadType(i: nat)
    | LoadScan(i: nat)
    | Begin(i: nat)
    | Flashed(i: nat)
    | Finish(i: nat)
    | Reboot(i: nat)
    | Reset

  predicate By(e: Event, i: nat) { !e.Start? && !e.Reset? && e.i == i }

  predicate MayStep(f: Flight, e: Event) {
    match e
    case Start(_) => false
    case WriteScan(_) => f.stage == Won && f.kind.Distribute?
    case WriteType(_) => f.stage == WroteScan && f.kind.Distribute?
    case Create(_, _) => f.stage == if f.kind.SelfUpdate? then Won else WroteType
    case Clear(_) => f.stage == Refused
    case LoadType(_) => f.stage == Created && f.kind.Distribute? && f.sawType.None?
    case LoadScan(_) => f.stage == Created && f.kind.Distribute? && f.sawScan.None?
    case Begin(_) => f.stage == Created && (f.kind.SelfUpdate? || (f.sawType.Some? && f.sawScan.Some?))
    case Flashed(_) => f.stage == Running && f.kind.SelfUpdate?
    case Finish(_) => f.stage == Running
    case Reboot(_) => f.stage == Restarting
    case Reset => false
  }

  predicate Enabled(s: State, e: Event) {
    e.Start? || e.Reset? || (e.i < |s.flights| && MayStep(s.flights[e.i], e))
  }

  function At(s: State, i: nat, stage: Stage): State
    requires i < |s.flights|
  {
    s.(flights := s.flights[i := s.flights[i].(stage := stage)])
  }

  function After(s: State, e: Event): State
    requires Enabled(s, e)
  {
    match e
    case Start(kind) =>
      if s.running then s else s.(running := true, flights := s.flights + [Flight(kind, Won, None, None)])
    case WriteScan(i) => At(s, i, WroteScan).(argScan := s.flights[i].kind.isScan)
    case WriteType(i) => At(s, i, WroteType).(argType := s.flights[i].kind.nodeType)
    case Create(i, works) => At(s, i, if works then Created else Refused)
    case Clear(i) => At(s, i, Ended).(running := false)
    case LoadType(i) => s.(flights := s.flights[i := s.flights[i].(sawType := Some(s.argType))])
    case LoadScan(i) => s.(flights := s.flights[i := s.flights[i].(sawScan := Some(s.argScan))])
    case Begin(i) => At(s, i, Running)
    case Flashed(i) => At(s, i, Restarting)
    case Finish(i) => At(s, i, Ended).(running := false)
    case Reboot(_) => BOOTED
    case Reset => BOOTED
  }

  ghost predicate Legal(s: State, es: seq<Event>)
    decreases |es|
  {
    es == [] || (Enabled(s, es[0]) && Legal(After(s, es[0]), es[1..]))
  }

  ghost function RunFrom(s: State, es: seq<Event>): State
    requires Legal(s, es)
    decreases |es|
  {
    if es == [] then s else RunFrom(After(s, es[0]), es[1..])
  }

  // ----- one flight at a time -----

  predicate Live(s: State, i: nat) {
    i < |s.flights| && s.flights[i].stage != Ended
  }

  /** What a flight relies on: the static holds what it wrote, and its task read just that. */
  predicate OwnArguments(s: State, f: Flight) {
    && (f.sawType.Some? ==> f.kind.Distribute? && f.sawType.value == f.kind.nodeType)
    && (f.sawScan.Some? ==> f.kind.Distribute? && f.sawScan.value == f.kind.isScan)
    && (f.stage == WroteScan ==> f.kind.Distribute? && s.argScan == f.kind.isScan)
    && ((f.stage in {WroteType, Created} && f.kind.Distribute?)
          ==> s.argScan == f.kind.isScan && s.argType == f.kind.nodeType)
    && (f.stage == Running && f.kind.Distribute? ==> f.sawType.Some? && f.sawScan.Some?)
    && (f.stage == Restarting ==> f.kind.SelfUpdate?)
  }

  /** A starter has not read anything, and only a distribution writes arguments. */
  predicate InMyStride(f: Flight) {
    && (f.stage in {WroteScan, WroteType} ==> f.kind.Distribute?)
    && (f.stage in {Won, WroteScan, WroteType} ==> f.sawType.None? && f.sawScan.None?)
  }

  ghost predicate Inv(s: State) {
    && (s.running <==> exists i :: Live(s, i))
    && (forall i, j :: Live(s, i) && Live(s, j) ==> i == j)
    && (forall i :: 0 <= i < |s.flights| ==> OwnArguments(s, s.flights[i]) && InMyStride(s.flights[i]))
  }

  lemma InvPreserved(s: State, e: Event)
    requires Inv(s) && Enabled(s, e)
    ensures Inv(After(s, e))
  {
    if e.Start? {
      StartPreserves(s, e.kind);
    } else if !e.Reset? && !e.Reboot? {
      StepPreserves(s, e);
    }
  }

  lemma StartPreserves(s: State, kind: Kind)
    requires Inv(s)
    ensures Inv(After(s, Start(kind)))
  {
    var s' := After(s, Start(kind));
    if !s.running {
      assert Live(s', |s.flights|);
      assert forall i: nat :: Live(s', i) ==> Live(s, i) || i == |s.flights|;
    }
  }

  lemma StepPreserves(s: State, e: Event)
    requires Inv(s) && Enabled(s, e) && !e.Start? && !e.Reset? && !e.Reboot?
    ensures Inv(After(s, e))
  {
    var s' := After(s, e);
    assert Live(s, e.i);
    assert forall j :: j != e.i ==> (Live(s', j) <==> Live(s, j));
    assert s'.running <==> Live(s', e.i);
    forall j | 0 <= j < |s'.flights| ensures OwnArguments(s', s'.flights[j]) {
      assert OwnArguments(s, s.flights[j]);
      assert Live(s, j) ==> j == e.i;
    }
  }

  lemma {:induction false} RunKeepsInv(s: State, es: seq<Event>)
    requires Inv(s) && Legal(s, es)
    ensures Inv(RunFrom(s, es))
    decreases |es|
  {
    if es != [] {
      InvPreserved(s, es[0]);
      RunKeepsInv(After(s, es[0]), es[1..]);
    }
  }

  /** In every interleaving from power-up: at most one start or task is alive, the flag is up
      exactly while one is, and every distribution runs on its own starter's arguments. */
  lemma AtMostOneFlight(es: seq<Event>)
    requires Legal(BOOTED, es)
    ensures var s := RunFrom(BOOTED, es);
            && (s.running <==> exists i :: Live(s, i))
            && (forall i, j :: Live(s, i) && Live(s, j) ==> i == j)
            && (forall f :: f in s.flights && f.stage == Running && f.kind.Distribute?
                  ==> f.sawScan == Some(f.kind.isScan) && f.sawType == Some(f.kind.nodeType))
  {
    RunKeepsInv(BOOTED, es);
    var s := RunFrom(BOOTED, es);
    forall f | f in s.flights ensures OwnArguments(s, f) {
      var i :| 0 <= i < |s.flights| && s.flights[i] == f;
    }
  }

  /** A start is refused exactly when a flight is alive; the step that ends a flight frees the
      flag, so the next start is accepted. */
  lemma StartAcceptedIffNobodyFlies(es: seq<Event>, kind: Kind)
    requires Legal(BOOTED, es)
    ensures var s := RunFrom(BOOTED, es);
            (After(s, Start(kind)) == s <==> exists i :: Live(s, i))
  {
    AtMostOneFlight(es);
    var s := RunFrom(BOOTED, es);
    if !s.running { assert |After(s, Start(kind)).flights| == |s.flights| + 1; }
  }

  lemma EndingFreesTheFlag(es: seq<Event>, e: Event)
    requires Legal(BOOTED, es) && Enabled(RunFrom(BOOTED, es), e)
    requires exists i :: Live(RunFrom(BOOTED, es), i) && !Live(After(RunFrom(BOOTED, es), e), i)
    ensures !After(RunFrom(BOOTED, es), e).running
  {
    RunKeepsInv(BOOTED, es);
    InvPreserved(RunFrom(BOOTED, es), e);
  }

  /** While a self-update has flashed and waits for its restart, no other fetch is under way and
      none can begin. */
  lemma NoFetchBeforeRestart(es: seq<Event>, i: nat, e: Event)
    requires Legal(BOOTED, es)
    requires var s := RunFrom(BOOTED, es); i < |s.flights| && s.flights[i].stage == Restarting && Enabled(s, e)
    ensures var s := RunFrom(BOOTED, es);
            && (forall j :: 0 <= j < |s.flights| && j != i ==> s.flights[j].stage == Ended)
            && (e == Reboot(i) || e.Reset? || After(s, e) == s)
  {
    RunKeepsInv(BOOTED, es);
    var s := RunFrom(BOOTED, es);
    assert Live(s, i);
    forall j: nat | j < |s.flights| && j != i ensures s.flights[j].stage == Ended {
      assert !Live(s, j);
    }
  }

  // ----- the flag is never stuck -----

  function Rank(f: Flight): nat {
    match f.stage
    case Won => 7
    case WroteScan => 6
    case WroteType => 5
    case Created =>
      if f.kind.SelfUpdate? then 3 else 2 + (if f.sawType.None? then 1 else 0) + (if f.sawScan.None? then 1 else 0)
    case Running => if f.kind.SelfUpdate? then 2 else 1
    case Restarting => 1
    case Refused => 1
    case Ended => 0
  }

  lemma HasOwnStep(s: State, i: nat)
    requires Live(s, i) && InMyStride(s.flights[i])
    ensures exists e :: By(e, i) && Enabled(s, e)
  {
    var f := s.flights[i];
    var next := match f.stage
      case Won => if f.kind.SelfUpdate? then Create(i, true) else WriteScan(i)
      case WroteScan => WriteType(i)
      case WroteType => Create(i, true)
      case Refused => Clear(i)
      case Created =>
        if f.kind.SelfUpdate? || (f.sawType.Some? && f.sawScan.Some?) then Begin(i)
        else if f.sawType.None? then LoadType(i) else LoadScan(i)
      case _ => if f.stage == Running then Finish(i) else Reboot(i);
    assert By(next, i) && Enabled(s, next);
  }

  lemma OwnStepAdvances(s: State, e: Event, i: nat)
    requires By(e, i) && !e.Reboot? && Enabled(s, e) && InMyStride(s.flights[i])
    ensures var s' := After(s, e);
            i < |s'.flights| && Rank(s'.flights[i]) < Rank(s.flights[i]) && InMyStride(s'.flights[i])
  {
  }

  function OwnSteps(es: seq<Event>, i: nat): nat {
    if es == [] then 0 else (if By(es[0], i) then 1 else 0) + OwnSteps(es[1..], i)
  }

  /** Nobody else's step sets a flight back. */
  lemma {:induction false} StepsBoundedByRank(s: State, es: seq<Event>, i: nat)
    requires Legal(s, es) && forall e :: e in es ==> !e.Reset? && !e.Reboot?
    requires i < |s.flights| && InMyStride(s.flights[i])
    ensures i < |RunFrom(s, es).flights| && OwnSteps(es, i) + Rank(RunFrom(s, es).flights[i]) <= Rank(s.flights[i]) <= 7
    decreases |es|
  {
    if es != [] {
      var e := es[0];
      assert e in es;
      if By(e, i) {
        OwnStepAdvances(s, e, i);
      } else {
        assert After(s, e).flights[i] == s.flights[i];
      }
      StepsBoundedByRank(After(s, e), es[1..], i);
    }
  }

  /** In every run from power-up a flight that is alive has a step of its own to take, ... */
  lemma FlightCanAdvance(es: seq<Event>, i: nat)
    requires Legal(BOOTED, es) && Live(RunFrom(BOOTED, es), i)
    ensures exists e :: By(e, i) && Enabled(RunFrom(BOOTED, es), e)
  {
    RunKeepsInv(BOOTED, es);
    HasOwnStep(RunFrom(BOOTED, es), i);
  }

  /** ... and between reboots it ends after at most seven steps of its own: the flag is never held
      for good. */
  lemma FlightEnds(es: seq<Event>, fs: seq<Event>, i: nat)
    requires Legal(BOOTED, es) && Legal(RunFrom(BOOTED, es), fs) && i < |RunFrom(BOOTED, es).flights|
    requires forall e :: e in fs ==> !e.Reset? && !e.Reboot?
    ensures var s := RunFrom(RunFrom(BOOTED, es), fs);
            && i < |s.flights| && OwnSteps(fs, i) + Rank(s.flights[i]) <= 7
            && (Live(s, i) <==> Rank(s.flights[i]) > 0)
  {
    RunKeepsInv(BOOTED, es);
    StepsBoundedByRank(RunFrom(BOOTED, es), fs, i);
  }

  // ----- the code of a starter and of the tasks, run without interruption -----

  datatype Status = Ok | InvalidState | NoMem
  datatype FetchResult = Success | NotFound | Failed

  /** OTA_TRIGGER messages, in the order sent. */
  datatype Trigger = Trigger(addr: uint16, target: byte)

  predicate Wanted(n: NodeTable.Node, isScan: bool) {
    n.used && n.configDone && (if isScan then n.isScan else n.isRelay)
  }

  /** Five messages to every configured node of the wanted sort, in table order. */
  function TriggersFor(nodes: seq<NodeTable.Node>, isScan: bool, target: byte): (ts: seq<Trigger>)
    ensures forall t :: t in ts <==> t.target == target && exists n :: n in nodes && Wanted(n, isScan) && n.addr == t.addr
  {
    if |nodes| == 0 then []
    else
      var n, ts := nodes[|nodes| - 1], TriggersFor(nodes[..|nodes| - 1], isScan, target);
      assert nodes == nodes[..|nodes| - 1] + [n];
      var t := Trigger(n.addr, target);
      if Wanted(n, isScan) then ts + [t, t, t, t, t] else ts
  }

  /** How many triggers go to an address. */
  function TriggersTo(ts: seq<Trigger>, a: uint16): nat {
    if |ts| == 0 then 0 else TriggersTo(ts[..|ts| - 1], a) + if ts[|ts| - 1].addr == a then 1 else 0
  }

  lemma FiveMore(ts: seq<Trigger>, t: Trigger, a: uint16)
    ensures TriggersTo(ts + [t, t, t, t, t], a) == TriggersTo(ts, a) + if t.addr == a then 5 else 0
  {
    var us := ts + [t, t, t, t, t];
    assert us[..|us| - 1] == ts + [t, t, t, t] && us[..|us| - 2] == ts + [t, t, t] && us[..|us| - 3] == ts + [t, t];
    OneMore(ts, t, a);
    OneMore(ts + [t], t, a);
    OneMore(ts + [t, t], t, a);
    OneMore(ts + [t, t, t], t, a);
    OneMore(ts + [t, t, t, t], t, a);
    assert ts + [t] + [t] == ts + [t, t] && ts + [t, t] + [t] == ts + [t, t, t];
    assert ts + [t, t, t] + [t] == ts + [t, t, t, t] && ts + [t, t, t, t] + [t] == us;
  }

  lemma OneMore(ts: seq<Trigger>, t: Trigger, a: uint16)
    ensures TriggersTo(ts + [t], a) == TriggersTo(ts, a) + if t.addr == a then 1 else 0
  {
    assert (ts + [t])[..|ts|] == ts;
  }

  lemma {:induction false} TriggersCounted(nodes: seq<NodeTable.Node>, isScan: bool, target: byte, a: uint16)
    ensures TriggersTo(TriggersFor(nodes, isScan, target), a)
         == 5 * NodeTable.Entries(nodes, (n: NodeTable.Node) =>
                  n.used && n.configDone && (if isScan then n.isScan else n.isRelay) && n.addr == a)
  {
    if |nodes| > 0 {
      var init, n := nodes[..|nodes| - 1], nodes[|nodes| - 1];
      TriggersCounted(init, isScan, target, a);
      FiveMore(TriggersFor(init, isScan, target), Trigger(n.addr, target), a);
    }
  }

  /** A distribution sends an address five triggers if a configured node of the wanted sort has it,
      and otherwise none. */
  lemma FiveTriggersEach(nodes: NodeTable.Nodes, isScan: bool, target: byte, a: uint16)
    requires NodeTable.UniqueAddrs(nodes)
    ensures TriggersTo(TriggersFor(nodes, isScan, target), a)
         == if exists n :: n in nodes && n.used && n.configDone && (if isScan then n.isScan else n.isRelay) && n.addr == a
            then 5 else 0
  {
    var wanted := (n: NodeTable.Node) =>
      n.used && n.configDone && (if isScan then n.isScan else n.isRelay) && n.addr == a;
    TriggersCounted(nodes, isScan, target, a);
    NodeTable.EntriesOfAddress(nodes, wanted, a);
  }

  lemma Cons(s: State, e: Event, es: seq<Event>)
    requires Enabled(s, e) && Legal(After(s, e), es)
    ensures Legal(s, [e] + es) && RunFrom(s, [e] + es) == RunFrom(After(s, e), es)
  {
    assert ([e] + es)[1..] == es;
  }

  /** What a starter makes of the state when nobody gets in between. */
  function Started(s: State, kind: Kind, createWorks: bool): State {
    if s.running then s
    else
      State(createWorks, if kind.Distribute? then kind.isScan else s.argScan,
            if kind.Distribute? then kind.nodeType else s.argType,
            s.flights + [Flight(kind, if createWorks then Created else Ended, None, None)])
  }

  /** What a self-update task makes of it, */
  function Updated(s: State, i: nat, fetched: FetchResult): State
    requires i < |s.flights|
  {
    if fetched == Success then BOOTED else At(s, i, Ended).(running := false)
  }

  /** and a distribution. */
  function Distributed(s: State, i: nat): State
    requires i < |s.flights|
  {
    State(false, s.argScan, s.argType, s.flights[i := Flight(s.flights[i].kind, Ended, Some(s.argType), Some(s.argScan))])
  }

  /** Each of these is a run of the machine, so all that is proved of runs holds of them. */
  ghost predicate Reaches(s: State, es: seq<Event>, s': State) {
    Legal(s, es) && RunFrom(s, es) == s'
  }

  lemma StartIsARun(s: State, kind: Kind, works: bool) returns (es: seq<Event>)
    ensures Reaches(s, es, Started(s, kind, works))
  {
    es := [];
    if s.running { return; }
    var n := |s.flights|;
    var s1 := After(s, Start(kind));
    var s2 := s1;
    if kind.Distribute? { s2 := After(After(s1, WriteScan(n)), WriteType(n)); }
    var s3 := After(s2, Create(n, works));
    if !works {
      Cons(s3, Clear(n), []);
      es := [Clear(n)] + [];
      assert After(s3, Clear(n)) == Started(s, kind, works);
    }
    assert Reaches(s3, es, Started(s, kind, works));
    Cons(s2, Create(n, works), es);
    es := [Create(n, works)] + es;
    if kind.Distribute? {
      Cons(After(s1, WriteScan(n)), WriteType(n), es);
      es := [WriteType(n)] + es;
      Cons(s1, WriteScan(n), es);
      es := [WriteScan(n)] + es;
    }
    Cons(s, Start(kind), es);
    es := [Start(kind)] + es;
  }

  lemma UpdateIsARun(s: State, i: nat, fetched: FetchResult) returns (es: seq<Event>)
    requires i < |s.flights| && s.flights[i].stage == Created && s.flights[i].kind == SelfUpdate
    ensures Reaches(s, es, Updated(s, i, fetched))
  {
    var s1 := After(s, Begin(i));
    if fetched == Success {
      var s2 := After(s1, Flashed(i));
      Cons(s2, Reboot(i), []);
      es := [Reboot(i)] + [];
      Cons(s1, Flashed(i), es);
      es := [Flashed(i)] + es;
    } else {
      assert After(s1, Finish(i)) == Updated(s, i, fetched);
      Cons(s1, Finish(i), []);
      es := [Finish(i)] + [];
    }
    Cons(s, Begin(i), es);
    es := [Begin(i)] + es;
  }

  lemma DistributionIsARun(s: State, i: nat) returns (es: seq<Event>)
    requires i < |s.flights| && s.flights[i].stage == Created && s.flights[i].kind.Distribute?
    requires s.flights[i].sawType.None? && s.flights[i].sawScan.None?
    ensures Reaches(s, es, Distributed(s, i))
  {
    var s1 := After(s, LoadType(i));
    var s2 := After(s1, LoadScan(i));
    var s3 := After(s2, Begin(i));
    assert After(s3, Finish(i)) == Distributed(s, i);
    Cons(s3, Finish(i), []);
    es := [Finish(i)] + [];
    Cons(s2, Begin(i), es);
    es := [Begin(i)] + es;
    Cons(s1, LoadScan(i), es);
    es := [LoadScan(i)] + es;
    Cons(s, LoadType(i), es);
    es := [LoadType(i)] + es;
  }

  class Gateway {
    var running: bool
    var argScan: bool
    var argType: byte
    ghost var flights: seq<Flight>

    ghost function Value(): State
      reads this
    {
      State(running, argScan, argType, flights)
    }

    constructor ()
      ensures Value() == BOOTED
    {
      running, argScan, argType, flights := false, false, 0, [];
    }

    method SelfUpdateStart(createWorks: bool) returns (r: Status)
      modifies this
      ensures r == if old(running) then InvalidState else if createWorks then Ok else NoMem
      ensures Value() == Started(old(Value()), SelfUpdate, createWorks)
    {
      if running { return InvalidState; }
      running := true;
      flights := flights + [Flight(SelfUpdate, if createWorks then Created else Ended, None, None)];
      if !createWorks {
        running := false;
        return NoMem;
      }
      r := Ok;
    }

    method StartDistribute(isScan: bool, nodeType: byte, createWorks: bool) returns (r: Status)
      modifies this
      ensures r == if old(running) then InvalidState else if createWorks then Ok else NoMem
      ensures Value() == Started(old(Value()), Distribute(isScan, nodeType), createWorks)
    {
      if running { return InvalidState; }
      running := true;
      argScan := isScan;
      argType := nodeType;
      flights := flights + [Flight(Distribute(isScan, nodeType), if createWorks then Created else Ended, None, None)];
      if !createWorks {
        running := false;
        return NoMem;
      }
      r := Ok;
    }

    method SelfUpdateTask(ghost i: nat, fetched: FetchResult)
      requires i < |flights|
      modifies this
      ensures Value() == Updated(old(Value()), i, fetched)
    {
      if fetched == Success {
        running, argScan, argType, flights := false, false, 0, [];
        return;
      }
      running := false;
      flights := flights[i := flights[i].(stage := Ended)];
    }

    /** Entry k of the table is as in `counted` when the task counts it and as in `found` when it
        gets to it later. Scanners are first tried with one beacon for all. */
    method DistributeTask(ghost i: nat, counted: NodeTable.Nodes, found: NodeTable.Nodes, beaconWorks: bool)
      returns (sent: seq<Trigger>)
      requires Inv(Value()) && i < |flights| && flights[i].stage == Created && flights[i].kind.Distribute?
      modifies this
      ensures Value() == Distributed(old(Value()), i)
      ensures var own := old(flights[i].kind);
              sent == if (forall n :: n in counted ==> !Wanted(n, own.isScan)) || (own.isScan && beaconWorks) then []
                      else TriggersFor(found, own.isScan, own.nodeType)
    {
      assert OwnArguments(Value(), flights[i]);
      var target, isScan := argType, argScan;
      flights := flights[i := Flight(flights[i].kind, Ended, Some(target), Some(isScan))];
      var count := Count(counted, isScan);
      sent := [];
      if count > 0 && !(isScan && beaconWorks) { sent := SendAll(found, isScan, target); }
      running := false;
    }
  }

  method Count(nodes: NodeTable.Nodes, isScan: bool) returns (count: nat)
    ensures count == 0 <==> forall n :: n in nodes ==> !Wanted(n, isScan)
  {
    count := 0;
    for k := 0 to NodeTable.MAX_NODES
      invariant count == 0 <==> forall n :: n in nodes[..k] ==> !Wanted(n, isScan)
    {
      assert nodes[..k + 1] == nodes[..k] + [nodes[k]];
      if Wanted(nodes[k], isScan) { count := count + 1; }
    }
    assert nodes[..NodeTable.MAX_NODES] == nodes;
  }

  method SendAll(nodes: NodeTable.Nodes, isScan: bool, target: byte) returns (sent: seq<Trigger>)
    ensures sent == TriggersFor(nodes, isScan, target)
  {
    sent := [];
    for k := 0 to NodeTable.MAX_NODES
      invariant sent == TriggersFor(nodes[..k], isScan, target)
    {
      var n := nodes[k];
      assert nodes[..k + 1][..k] == nodes[..k];
      if !Wanted(n, isScan) { continue; }
      ghost var before := sent;
      var t := Trigger(n.addr, target);
      for retry := 0 to 5
        invariant sent == before + [t, t, t, t, t][..retry]
      {
        sent := sent + [t];
      }
    }
    assert nodes[..NodeTable.MAX_NODES] == nodes;
  }
}
