/** How slow an acknowledgement may be before a live mesh is reset, exactly: with nodes only joining,
    and with nodes leaving as well. */
module HeartbeatBounds {
  import opened Machine
  import NodeTable
  import opened Heartbeat

  // ----- runs put together -----

  /** A run in which nobody leaves leads from `s` to `s'`. */
  ghost predicate Reaches(b: Bounds, s: State, s': State) {
    exists es :: NobodyLeaves(es) && Legal(b, s, es) && RunFrom(b, s, es) == s'
  }

  lemma ReachesNow(b: Bounds, s: State)
    ensures Reaches(b, s, s)
  {
    assert NobodyLeaves([]) && Legal(b, s, []) && RunFrom(b, s, []) == s;
  }

  lemma {:induction false} Follow(b: Bounds, s: State, es: seq<Event>, fs: seq<Event>)
    requires Legal(b, s, es) && Legal(b, RunFrom(b, s, es), fs)
    ensures Legal(b, s, es + fs) && RunFrom(b, s, es + fs) == RunFrom(b, RunFrom(b, s, es), fs)
    decreases |es|
  {
    if es == [] {
      assert es + fs == fs;
    } else {
      Follow(b, After(b, s, es[0]), es[1..], fs);
      assert (es + fs)[1..] == es[1..] + fs;
    }
  }

  lemma ReachesVia(b: Bounds, s: State, s1: State, s2: State)
    requires Reaches(b, s, s1) && Reaches(b, s1, s2)
    ensures Reaches(b, s, s2)
  {
    var es :| NobodyLeaves(es) && Legal(b, s, es) && RunFrom(b, s, es) == s1;
    var fs :| NobodyLeaves(fs) && Legal(b, s1, fs) && RunFrom(b, s1, fs) == s2;
    Follow(b, s, es, fs);
    assert NobodyLeaves(es + fs);
  }

  lemma ReachesBy(b: Bounds, s: State, e: Event, s': State)
    requires Enabled(s, e) && !e.Leave? && After(b, s, e) == s'
    ensures Reaches(b, s, s')
  {
    var es := [e];
    assert es[0] == e && es[1..] == [];
    assert Legal(b, s', []) && RunFrom(b, s', []) == s';
    assert Legal(b, s, es);
    assert RunFrom(b, s, es) == RunFrom(b, After(b, s, e), es[1..]);
    assert NobodyLeaves(es);
  }

  /** A step at the end of a run. */
  lemma AndThen(b: Bounds, s0: State, s: State, e: Event, s': State)
    requires Reaches(b, s0, s) && Enabled(s, e) && !e.Leave? && After(b, s, e) == s'
    ensures Reaches(b, s0, s')
  {
    ReachesBy(b, s, e, s');
    ReachesVia(b, s0, s, s');
  }

  /** Only the last entry is configured: the ping loop skips to it. */
  function LoneScanner(): NodeTable.Nodes {
    NodeTable.Erased()[NodeTable.MAX_NODES - 1 := NodeTable.BLANK.(used := true, isScan := true, configDone := true, addr := 2)]
  }

  ghost predicate NoneConfigured(nodes: NodeTable.Nodes, from: nat, to: nat) {
    to <= NodeTable.MAX_NODES && forall k :: from <= k < to ==> !nodes[k].Configured()
  }

  lemma {:induction false} ScanTo(b: Bounds, s: State, j: nat)
    requires s.ping.Scan? && s.ping.i <= j && NoneConfigured(s.nodes, s.ping.i, j) && !s.dog.Wiped?
    ensures Reaches(b, s, s.(ping := Scan(j)))
    decreases j
  {
    if j == s.ping.i {
      ReachesNow(b, s);
      assert s == s.(ping := Scan(j));
    } else {
      ScanTo(b, s, j - 1);
      AndThen(b, s, s.(ping := Scan(j - 1)), PingStep, s.(ping := Scan(j)));
    }
  }

  /** A turn begins: the mutex is asked for. */
  lemma TurnBegins(b: Bounds, s: State, j: nat)
    requires s.ping.Scan? && s.ping.i <= j < NodeTable.MAX_NODES && NoneConfigured(s.nodes, s.ping.i, j) && !s.dog.Wiped?
    requires s.nodes[j].Configured()
    ensures Reaches(b, s, s.(ping := Blocked(j, s.now + b.hold)))
  {
    ScanTo(b, s, j);
    AndThen(b, s, s.(ping := Scan(j)), PingStep, s.(ping := Blocked(j, s.now + b.hold)));
  }

  /** A turn ends `ms` after it began, with the watchdog asleep for that long; it is an
      acknowledgement if the entry is still there. */
  lemma TurnEnds(b: Bounds, s: State, ms: nat)
    requires s.ping.Blocked? && s.ping.until == s.now + b.hold && s.ping.i < NodeTable.MAX_NODES && s.dog.Watching?
    requires ms <= b.hold + b.reply && s.now + ms <= s.dog.until
    ensures Reaches(b, s, s.(now := s.now + ms, ping := Gap(s.ping.i, s.now + ms + 500),
                             received := s.received + if s.nodes[s.ping.i].Configured() then 1 else 0))
  {
    var i, held := s.ping.i, if ms < b.hold then ms else b.hold;
    var s1 := s.(now := s.now + held);
    var s2 := s1.(ping := Waiting(i, s1.now + b.reply));
    var s3 := s2.(now := s.now + ms);
    ReachesBy(b, s, Tick(held), s1);
    AndThen(b, s, s1, PingStep, s2);
    AndThen(b, s, s2, Tick(ms - held), s3);
    AndThen(b, s, s3, PingStep, After(b, s3, PingStep));
  }

  /** 500 ms after a turn the next one of the same pass begins, */
  lemma NextTurn(b: Bounds, s: State, j: nat)
    requires s.ping.Gap? && s.ping.until == s.now + 500 && s.dog.Watching? && s.now + 500 <= s.dog.until
    requires s.ping.i < j < NodeTable.MAX_NODES && NoneConfigured(s.nodes, s.ping.i + 1, j) && s.nodes[j].Configured()
    ensures Reaches(b, s, s.(now := s.now + 500, ping := Blocked(j, s.now + 500 + b.hold)))
  {
    var s1 := s.(now := s.now + 500);
    var s2 := s1.(ping := Scan(s.ping.i + 1));
    ReachesBy(b, s, Tick(500), s1);
    AndThen(b, s, s1, PingStep, s2);
    TurnBegins(b, s2, j);
    ReachesVia(b, s, s2, s2.(ping := Blocked(j, s2.now + b.hold)));
  }

  /** or the pass is over. */
  lemma Rests(b: Bounds, s: State)
    requires s.ping.Gap? && s.ping.until == s.now + 500 && s.dog.Watching? && s.now + 500 <= s.dog.until
    requires s.ping.i < NodeTable.MAX_NODES && NoneConfigured(s.nodes, s.ping.i + 1, NodeTable.MAX_NODES)
    ensures Reaches(b, s, s.(now := s.now + 500, ping := Rest(s.now + 20500)))
  {
    var s1 := s.(now := s.now + 500);
    var s2 := s1.(ping := Scan(s.ping.i + 1));
    ReachesBy(b, s, Tick(500), s1);
    AndThen(b, s, s1, PingStep, s2);
    ScanTo(b, s2, NodeTable.MAX_NODES);
    ReachesVia(b, s, s2, s2.(ping := Scan(NodeTable.MAX_NODES)));
    AndThen(b, s, s2.(ping := Scan(NodeTable.MAX_NODES)), PingStep, s2.(ping := Rest(s2.now + 20000)));
  }

  lemma TurnAfterRest(b: Bounds, s: State, j: nat)
    requires s.ping.Rest? && s.now <= s.ping.until && s.dog.Watching? && s.ping.until <= s.dog.until
    requires j < NodeTable.MAX_NODES && NoneConfigured(s.nodes, 0, j) && s.nodes[j].Configured()
    ensures Reaches(b, s, s.(now := s.ping.until, ping := Blocked(j, s.ping.until + b.hold)))
  {
    var s1 := s.(now := s.ping.until);
    ReachesBy(b, s, Tick(s.ping.until - s.now), s1);
    AndThen(b, s, s1, PingStep, s1.(ping := Scan(0)));
    TurnBegins(b, s1.(ping := Scan(0)), j);
    ReachesVia(b, s, s1.(ping := Scan(0)), s1.(ping := Blocked(j, s1.now + b.hold)));
  }

  /** A window that has counted something ends, and the next one opens. */
  lemma NextWindow(b: Bounds, s: State) returns (s': State)
    requires HasConfiguredScanner(s.nodes) && s.dog.Watching? && s.now == s.dog.until
    requires U32(s.received) != U32(s.dog.snap)
    ensures Reaches(b, s, s') && s' == s.(dog := Watching(s.now + 30000, s.received), notes := s'.notes)
  {
    var s1 := After(b, s, DogStep(false, false));
    s' := After(b, s1, DogStep(false, false));
    ReachesBy(b, s, DogStep(false, false), s1);
    AndThen(b, s, s1, DogStep(false, false), s');
  }

  /** An empty window that closes before a turn that began in it can end. */
  lemma ClosesEmpty(b: Bounds, s: State) returns (s': State)
    requires s.ping.Blocked? && s.ping.until == s.now + b.hold && s.ping.i < NodeTable.MAX_NODES
    requires s.dog.Watching? && s.received == s.dog.snap && s.now <= s.dog.until <= s.now + b.hold + b.reply
    ensures Reaches(b, s, s') && s'.dog.Resetting? && s'.received == s.received
  {
    var rest := s.dog.until - s.now;
    var held := if b.hold < rest then b.hold else rest;
    var s1 := s.(now := s.now + held);
    ReachesBy(b, s, Tick(held), s1);
    var s2 := s1;
    if held < rest {
      var waiting := s1.(ping := Waiting(s.ping.i, s1.now + b.reply));
      s2 := waiting.(now := s.dog.until);
      AndThen(b, s, s1, PingStep, waiting);
      AndThen(b, s, waiting, Tick(rest - held), s2);
    }
    s' := After(b, s2, DogStep(false, false));
    AndThen(b, s, s2, DogStep(false, false), s');
  }

  /** A window opened right after an acknowledgement: the next turn begins 20500 ms later, and when
      it takes 9500 ms or more the window closes first. */
  lemma SlowTurn(b: Bounds, s: State) returns (s': State)
    requires b.hold + b.reply >= 9500 && s.nodes == LoneScanner()
    requires s.ping == Gap(9, s.now + 500) && s.dog == Watching(s.now + 30000, s.received)
    ensures Reaches(b, s, s') && s'.dog.Resetting? && s'.received == s.received
  {
    var s1 := s.(now := s.now + 500, ping := Rest(s.now + 20500));
    var s2 := s1.(now := s.now + 20500, ping := Blocked(9, s.now + 20500 + b.hold));
    Rests(b, s);
    TurnAfterRest(b, s1, 9);
    ReachesVia(b, s, s1, s2);
    s' := ClosesEmpty(b, s2);
    ReachesVia(b, s, s2, s');
  }

  /** The bound is sharp: with the watchdog started right after the ping task, up to 5 s later, and
      turns that may take 9500 ms, a run enters the reset cycle. Its first acknowledgements are
      quick and fall into the first two windows; the third comes just before a window opens. */
  lemma SlowTurnIsReset(b: Bounds, dogStart: nat)
    requires b.hold + b.reply >= 9500 && dogStart <= 5000
    ensures exists s :: Reaches(b, Start(LoneScanner(), dogStart), s) && s.dog.Resetting? && s.received == 3
  {
    var s0 := Start(LoneScanner(), dogStart);
    var s1 := TwoWindows(b, dogStart);
    var s2 := ToThirdAck(b, dogStart, s1);
    ReachesVia(b, s0, s1, s2);
    assert IsScanner(s2.nodes[9]);
    var s3 := NextWindow(b, s2);
    ReachesVia(b, s0, s2, s3);
    var s4 := SlowTurn(b, s3);
    ReachesVia(b, s0, s3, s4);
  }

  lemma TwoWindows(b: Bounds, dogStart: nat) returns (s: State)
    requires dogStart <= 5000
    ensures Reaches(b, Start(LoneScanner(), dogStart), s)
    ensures s == State(45000 + dogStart, LoneScanner(), 1, Rest(50500), Watching(75000 + dogStart, 1), s.notes)
  {
    assert IsScanner(LoneScanner()[9]);
    var s1 := FirstWindow(b, LoneScanner(), 9, dogStart);
    s := SecondWindow(b, dogStart, s1);
    ReachesVia(b, Start(LoneScanner(), dogStart), s1, s);
  }

  /** The first window opens, and the first acknowledgement, of entry `j`, comes 30 s after the start. */
  lemma FirstWindow(b: Bounds, nodes: NodeTable.Nodes, j: nat, dogStart: nat) returns (s: State)
    requires dogStart <= 5000 && HasConfiguredScanner(nodes)
    requires j < NodeTable.MAX_NODES && NoneConfigured(nodes, 0, j) && nodes[j].Configured()
    ensures Reaches(b, Start(nodes, dogStart), s)
    ensures s == State(30000, nodes, 1, Gap(j, 30500), Watching(45000 + dogStart, 0), s.notes)
  {
    var s0 := Start(nodes, dogStart);
    var s1 := s0.(now := dogStart + 15000);
    ReachesBy(b, s0, Tick(dogStart + 15000), s1);
    AndThen(b, s0, s1, DogStep(false, false), s1.(dog := Check));
    var s2 := After(b, s1.(dog := Check), DogStep(false, false));
    AndThen(b, s0, s1.(dog := Check), DogStep(false, false), s2);
    s := FirstAck(b, j, dogStart, s2);
    ReachesVia(b, s0, s2, s);
  }

  lemma FirstAck(b: Bounds, j: nat, dogStart: nat, s: State) returns (s': State)
    requires dogStart <= 5000 && j < NodeTable.MAX_NODES && NoneConfigured(s.nodes, 0, j) && s.nodes[j].Configured()
    requires s == State(15000 + dogStart, s.nodes, 0, Boot(30000), Watching(45000 + dogStart, 0), s.notes)
    ensures Reaches(b, s, s')
    ensures s' == State(30000, s.nodes, 1, Gap(j, 30500), Watching(45000 + dogStart, 0), s.notes)
  {
    var s1 := s.(now := 30000);
    ReachesBy(b, s, Tick(15000 - dogStart), s1);
    AndThen(b, s, s1, PingStep, s1.(ping := Scan(0)));
    TurnBegins(b, s1.(ping := Scan(0)), j);
    var s2 := s1.(ping := Blocked(j, 30000 + b.hold));
    ReachesVia(b, s, s1.(ping := Scan(0)), s2);
    TurnEnds(b, s2, 0);
    s' := s2.(ping := Gap(j, 30500), received := 1);
    ReachesVia(b, s, s2, s');
  }

  lemma SecondWindow(b: Bounds, dogStart: nat, s: State) returns (s': State)
    requires dogStart <= 5000
    requires s == State(30000, LoneScanner(), 1, Gap(9, 30500), Watching(45000 + dogStart, 0), s.notes)
    ensures Reaches(b, s, s')
    ensures s' == State(45000 + dogStart, LoneScanner(), 1, Rest(50500), Watching(75000 + dogStart, 1), s'.notes)
  {
    Rests(b, s);
    var s1 := s.(now := 30500, ping := Rest(50500));
    var s2 := s1.(now := 45000 + dogStart);
    AndThen(b, s, s1, Tick(14500 + dogStart), s2);
    assert IsScanner(s2.nodes[9]);
    s' := NextWindow(b, s2);
    ReachesVia(b, s, s2, s');
  }

  /** The second acknowledgement is immediate. */
  lemma ToThirdAck(b: Bounds, dogStart: nat, s: State) returns (s': State)
    requires dogStart <= 5000 && b.hold + b.reply >= 9500
    requires s == State(45000 + dogStart, LoneScanner(), 1, Rest(50500), Watching(75000 + dogStart, 1), s.notes)
    ensures Reaches(b, s, s')
    ensures s' == State(75000 + dogStart, LoneScanner(), 3, Gap(9, 75500 + dogStart), Watching(75000 + dogStart, 1), s.notes)
  {
    var s1 := s.(now := 50500, ping := Blocked(9, 50500 + b.hold));
    TurnAfterRest(b, s, 9);
    var s2 := s1.(ping := Gap(9, 51000), received := 2);
    TurnEnds(b, s1, 0);
    ReachesVia(b, s, s1, s2);
    s' := ThirdAck(b, dogStart, s2);
    ReachesVia(b, s, s2, s');
  }

  /** The third acknowledgement takes its time, to the very end of the window. */
  lemma ThirdAck(b: Bounds, dogStart: nat, s: State) returns (s': State)
    requires dogStart <= 5000 && b.hold + b.reply >= 9500
    requires s == State(50500, LoneScanner(), 2, Gap(9, 51000), Watching(75000 + dogStart, 1), s.notes)
    ensures Reaches(b, s, s')
    ensures s' == State(75000 + dogStart, LoneScanner(), 3, Gap(9, 75500 + dogStart), Watching(75000 + dogStart, 1), s.notes)
  {
    Rests(b, s);
    var s1 := s.(now := 51000, ping := Rest(71000));
    TurnAfterRest(b, s1, 9);
    var s2 := s1.(now := 71000, ping := Blocked(9, 71000 + b.hold));
    ReachesVia(b, s, s1, s2);
    TurnEnds(b, s2, 4000 + dogStart);
    s' := s2.(now := 75000 + dogStart, ping := Gap(9, 75500 + dogStart), received := 3);
    ReachesVia(b, s, s2, s');
  }

  lemma {:induction false} FewInAll(b: Bounds, s: State, es: seq<Event>)
    requires Legal(b, s, es) && RunFrom(b, s, es).received < TWO32
    ensures FewMessages(b, s, es) && s.received <= RunFrom(b, s, es).received
    decreases |es|
  {
    if es != [] { FewInAll(b, After(b, s, es[0]), es[1..]); }
  }

  /** So for a watchdog started within 5 s of the ping task, a live mesh is never reset exactly if
      waiting for the mutex and for an acknowledgement together take less than 9500 ms. */
  lemma NeverResetIff(b: Bounds, dogStart: nat)
    requires dogStart <= 5000
    ensures b.hold + b.reply < 9500
       <==> forall nodes: NodeTable.Nodes, es ::
              Legal(b, Start(nodes, dogStart), es) && FewMessages(b, Start(nodes, dogStart), es) && NobodyLeaves(es)
              ==> Calm(RunFrom(b, Start(nodes, dogStart), es).dog)
  {
    if b.hold + b.reply < 9500 {
      forall nodes: NodeTable.Nodes, es |
        Legal(b, Start(nodes, dogStart), es) && FewMessages(b, Start(nodes, dogStart), es) && NobodyLeaves(es)
        ensures Calm(RunFrom(b, Start(nodes, dogStart), es).dog)
      {
        LiveMeshNeverReset(b, nodes, dogStart, es);
      }
    } else {
      SlowTurnIsReset(b, dogStart);
      var s :| Reaches(b, Start(LoneScanner(), dogStart), s) && s.dog.Resetting? && s.received == 3;
      var es :| NobodyLeaves(es) && Legal(b, Start(LoneScanner(), dogStart), es) && RunFrom(b, Start(LoneScanner(), dogStart), es) == s;
      FewInAll(b, Start(LoneScanner(), dogStart), es);
    }
  }

  // ----- when nodes leave -----

  /** No entry is deleted while a window is open that has counted nothing yet. */
  ghost predicate LeavesSpareEmptyWindows(b: Bounds, s: State, es: seq<Event>)
    requires Legal(b, s, es)
    decreases |es|
  {
    es != [] ==>
    && !(es[0].Leave? && s.dog.Watching? && s.received == s.dog.snap)
    && LeavesSpareEmptyWindows(b, After(b, s, es[0]), es[1..])
  }

  /** When the next acknowledgement comes at the latest, if a node stays configured: a turn may be
      lost on an entry that is deleted while it is waited for. */
  ghost function NextBeatAfterLeave(b: Bounds, s: State): nat {
    var turn := b.hold + b.reply;
    match s.ping
    case Boot(u) => u + turn
    case Rest(u) => u + turn
    case Scan(i) => s.now + turn + if SomeConfiguredFrom(s.nodes, i) then 0 else PING_INTERVAL
    case Blocked(i, u) => u + b.reply + if OnEntry(s, i) then 0 else PING_GAP + PING_INTERVAL + turn
    case Waiting(i, u) => u + if OnEntry(s, i) then 0 else PING_GAP + PING_INTERVAL + turn
    case Gap(_, u) => u + PING_INTERVAL + turn
  }

  predicate OnEntry(s: State, i: nat) { i < NodeTable.MAX_NODES && s.nodes[i].Configured() }

  ghost predicate PingTimers(b: Bounds, s: State) {
    && match s.ping {
         case Boot(u) => s.now <= u <= PING_BOOT
         case Scan(i) => i <= NodeTable.MAX_NODES
         case Blocked(i, u) => i < NodeTable.MAX_NODES && s.now <= u <= s.now + b.hold
         case Waiting(i, u) => i < NodeTable.MAX_NODES && s.now <= u <= s.now + b.reply
         case Gap(i, u) => i < NodeTable.MAX_NODES && s.now <= u <= s.now + PING_GAP
         case Rest(u) => s.now <= u <= s.now + PING_INTERVAL
       }
    && match s.dog {
         case Stabilise(u) => s.now <= u && WDG_STABILIZE <= u
         case Watching(u, _) => s.now <= u && WDG_STABILIZE <= s.now
         case _ => WDG_STABILIZE <= s.now
       }
  }

  ghost predicate EmptyWindowWillSeeBeat(b: Bounds, s: State) {
    s.dog.Watching? ==>
      && s.received >= s.dog.snap
      && (s.received == s.dog.snap ==>
            && HasConfiguredScanner(s.nodes)
            && NextBeatAfterLeave(b, s) + WDG_TIMEOUT <= s.dog.until + PING_GAP + PING_INTERVAL + 2 * (b.hold + b.reply))
  }

  lemma JoinKeepsEmptyWindow(b: Bounds, s: State, k: nat, n: NodeTable.Node)
    requires Enabled(s, Join(k, n)) && PingTimers(b, s) && EmptyWindowWillSeeBeat(b, s)
    ensures EmptyWindowWillSeeBeat(b, s.(nodes := s.nodes[k := n]))
  {
    JoinKeepsConfigured(s.nodes, k, n, if s.ping.Scan? then s.ping.i else 0);
  }

  lemma PingKeepsEmptyWindow(b: Bounds, s: State)
    requires Enabled(s, PingStep) && PingTimers(b, s) && EmptyWindowWillSeeBeat(b, s)
    ensures PingTimers(b, AfterPing(b, s)) && EmptyWindowWillSeeBeat(b, AfterPing(b, s))
  {
    if HasConfiguredScanner(s.nodes) { ConfiguredScannerIsPinged(s.nodes); }
  }

  lemma DogKeepsEmptyWindow(b: Bounds, s: State, otaRunning: bool, sendWorks: bool)
    requires 2 * (b.hold + b.reply) < WDG_TIMEOUT - PING_GAP - PING_INTERVAL
    requires Enabled(s, DogStep(otaRunning, sendWorks)) && Calm(s.dog) && PingTimers(b, s) && EmptyWindowWillSeeBeat(b, s)
    requires s.dog.Watching? ==> s.received - s.dog.snap < TWO32
    ensures var s' := AfterDog(s, otaRunning, sendWorks);
            Calm(s'.dog) && PingTimers(b, s') && EmptyWindowWillSeeBeat(b, s')
  {
    if s.dog.Watching? {
      assert NextBeatAfterLeave(b, s) >= s.now;
      assert s.received > s.dog.snap;
      CountersDiffer(s.dog.snap, s.received);
    }
  }

  lemma {:induction false} RunKeepsEmptyWindow(b: Bounds, s: State, es: seq<Event>)
    requires 2 * (b.hold + b.reply) < WDG_TIMEOUT - PING_GAP - PING_INTERVAL
    requires Calm(s.dog) && PingTimers(b, s) && EmptyWindowWillSeeBeat(b, s)
    requires Legal(b, s, es) && FewMessages(b, s, es) && LeavesSpareEmptyWindows(b, s, es)
    ensures Calm(RunFrom(b, s, es).dog)
    decreases |es|
  {
    if es != [] {
      StepKeepsEmptyWindow(b, s, es[0]);
      RunKeepsEmptyWindow(b, After(b, s, es[0]), es[1..]);
    }
  }

  lemma StepKeepsEmptyWindow(b: Bounds, s: State, e: Event)
    requires 2 * (b.hold + b.reply) < WDG_TIMEOUT - PING_GAP - PING_INTERVAL
    requires Enabled(s, e) && Calm(s.dog) && PingTimers(b, s) && EmptyWindowWillSeeBeat(b, s)
    requires s.dog.Watching? ==> s.received - s.dog.snap < TWO32
    requires !(e.Leave? && s.dog.Watching? && s.received == s.dog.snap)
    ensures var s' := After(b, s, e);
            Calm(s'.dog) && PingTimers(b, s') && EmptyWindowWillSeeBeat(b, s')
  {
    match e {
      case PingStep => PingKeepsEmptyWindow(b, s);
      case DogStep(o, w) => DogKeepsEmptyWindow(b, s, o, w);
      case Join(i, n) => JoinKeepsEmptyWindow(b, s, i, n);
      case _ =>
    }
  }

  /** With nodes joining and leaving, half the bound suffices as long as none leaves while an open
      window is still empty. */
  lemma ChangingMeshNeverReset(b: Bounds, nodes: NodeTable.Nodes, dogStart: nat, es: seq<Event>)
    requires b.hold + b.reply < 4750
    requires Legal(b, Start(nodes, dogStart), es) && FewMessages(b, Start(nodes, dogStart), es)
    requires LeavesSpareEmptyWindows(b, Start(nodes, dogStart), es)
    ensures Calm(RunFrom(b, Start(nodes, dogStart), es).dog)
  {
    RunKeepsEmptyWindow(b, Start(nodes, dogStart), es);
  }

  /** Entries 0 and 9 are configured. */
  function TwoScanners(): NodeTable.Nodes {
    LoneScanner()[0 := NodeTable.BLANK.(used := true, isScan := true, configDone := true, addr := 3)]
  }

  lemma {:induction false} NoLeavesSpare(b: Bounds, s: State, es: seq<Event>)
    requires Legal(b, s, es) && NobodyLeaves(es)
    ensures LeavesSpareEmptyWindows(b, s, es)
    decreases |es|
  {
    if es != [] {
      assert !es[0].Leave?;
      NoLeavesSpare(b, After(b, s, es[0]), es[1..]);
    }
  }

  lemma {:induction false} SpareFollow(b: Bounds, s: State, es: seq<Event>, fs: seq<Event>)
    requires Legal(b, s, es) && Legal(b, RunFrom(b, s, es), fs)
    requires LeavesSpareEmptyWindows(b, s, es) && LeavesSpareEmptyWindows(b, RunFrom(b, s, es), fs)
    ensures Legal(b, s, es + fs) && LeavesSpareEmptyWindows(b, s, es + fs)
    ensures RunFrom(b, s, es + fs) == RunFrom(b, RunFrom(b, s, es), fs)
    decreases |es|
  {
    if es == [] {
      assert es + fs == fs;
    } else {
      SpareFollow(b, After(b, s, es[0]), es[1..], fs);
      assert (es + fs)[1..] == es[1..] + fs;
    }
  }

  /** One entry leaves between two runs in which nobody does. */
  lemma LeaveBetween(b: Bounds, s0: State, s: State, i: nat, s': State) returns (es: seq<Event>)
    requires Reaches(b, s0, s) && Enabled(s, Leave(i)) && s.dog.Watching? && s.received > s.dog.snap
    requires Reaches(b, After(b, s, Leave(i)), s')
    ensures Legal(b, s0, es) && LeavesSpareEmptyWindows(b, s0, es) && RunFrom(b, s0, es) == s'
  {
    var es0 :| NobodyLeaves(es0) && Legal(b, s0, es0) && RunFrom(b, s0, es0) == s;
    var es1 :| NobodyLeaves(es1) && Legal(b, After(b, s, Leave(i)), es1) && RunFrom(b, After(b, s, Leave(i)), es1) == s';
    NoLeavesSpare(b, s0, es0);
    NoLeavesSpare(b, After(b, s, Leave(i)), es1);
    assert ([Leave(i)] + es1)[1..] == es1;
    SpareFollow(b, s0, es0, [Leave(i)] + es1);
    es := es0 + ([Leave(i)] + es1);
  }

  /** Half the bound is needed: with turns that may take 4750 ms, an entry that leaves just before a
      window opens, while its own turn has just begun, costs that window two slow turns. */
  lemma LeaveBeforeWindowIsReset(b: Bounds, dogStart: nat) returns (es: seq<Event>)
    requires b.hold + b.reply >= 4750 && dogStart <= 2000
    ensures var s0 := Start(TwoScanners(), dogStart);
            Legal(b, s0, es) && LeavesSpareEmptyWindows(b, s0, es)
            && RunFrom(b, s0, es).dog.Resetting? && RunFrom(b, s0, es).received == 5
  {
    var s0 := Start(TwoScanners(), dogStart);
    assert IsScanner(s0.nodes[0]);
    var s1 := FirstWindow(b, TwoScanners(), 0, dogStart);
    var s2 := ToLastTurn(b, dogStart, s1);
    ReachesVia(b, s0, s1, s2);
    var s3 := TwoSlowTurns(b, s2.(nodes := TwoScanners()[9 := NodeTable.BLANK]));
    es := LeaveBetween(b, s0, s2, 9, s3);
  }

  lemma ToLastTurn(b: Bounds, dogStart: nat, s: State) returns (s': State)
    requires dogStart <= 2000 && b.hold + b.reply >= 4750
    requires s == State(30000, TwoScanners(), 1, Gap(0, 30500), Watching(45000 + dogStart, 0), s.notes)
    ensures Reaches(b, s, s')
    ensures s' == State(75000 + dogStart, TwoScanners(), 5, Blocked(9, 75000 + dogStart + b.hold),
                        Watching(75000 + dogStart, 2), s'.notes)
  {
    var s1 := BothHeard(b, dogStart, s);
    var s2 := BothHeardAgain(b, dogStart, s1);
    ReachesVia(b, s, s1, s2);
    s' := LastTurnBegins(b, dogStart, s2);
    ReachesVia(b, s, s2, s');
  }

  /** The last turn of a pass, and the rest after it. */
  lemma TurnThenRest(b: Bounds, s: State, ms: nat)
    requires s.ping.Blocked? && s.ping.until == s.now + b.hold && s.ping.i < NodeTable.MAX_NODES && s.dog.Watching?
    requires ms <= b.hold + b.reply && s.now + ms + 500 <= s.dog.until
    requires NoneConfigured(s.nodes, s.ping.i + 1, NodeTable.MAX_NODES)
    ensures Reaches(b, s, s.(now := s.now + ms + 500, ping := Rest(s.now + ms + 20500),
                             received := s.received + if s.nodes[s.ping.i].Configured() then 1 else 0))
  {
    TurnEnds(b, s, ms);
    var s1 := s.(now := s.now + ms, ping := Gap(s.ping.i, s.now + ms + 500),
                 received := s.received + if s.nodes[s.ping.i].Configured() then 1 else 0);
    Rests(b, s1);
    ReachesVia(b, s, s1, s1.(now := s1.now + 500, ping := Rest(s1.now + 20500)));
  }

  /** A turn of entry 0, and the beginning of that of entry 9. */
  lemma TurnThenTurn(b: Bounds, s: State, ms: nat)
    requires s.ping == Blocked(0, s.now + b.hold) && s.nodes == TwoScanners() && s.dog.Watching?
    requires ms <= b.hold + b.reply && s.now + ms + 500 <= s.dog.until
    ensures Reaches(b, s, s.(now := s.now + ms + 500, ping := Blocked(9, s.now + ms + 500 + b.hold),
                             received := s.received + 1))
  {
    TurnEnds(b, s, ms);
    var s1 := s.(now := s.now + ms, ping := Gap(0, s.now + ms + 500), received := s.received + 1);
    NextTurn(b, s1, 9);
    ReachesVia(b, s, s1, s1.(now := s1.now + 500, ping := Blocked(9, s1.now + 500 + b.hold)));
  }

  lemma BothHeard(b: Bounds, dogStart: nat, s: State) returns (s': State)
    requires dogStart <= 2000
    requires s == State(30000, TwoScanners(), 1, Gap(0, 30500), Watching(45000 + dogStart, 0), s.notes)
    ensures Reaches(b, s, s')
    ensures s' == State(45000 + dogStart, TwoScanners(), 2, Rest(51000), Watching(75000 + dogStart, 2), s'.notes)
  {
    NextTurn(b, s, 9);
    var s1 := s.(now := 30500, ping := Blocked(9, 30500 + b.hold));
    s' := RestIntoWindow(b, dogStart, s1);
    ReachesVia(b, s, s1, s');
  }

  lemma RestIntoWindow(b: Bounds, dogStart: nat, s: State) returns (s': State)
    requires dogStart <= 2000
    requires s == State(30500, TwoScanners(), 1, Blocked(9, 30500 + b.hold), Watching(45000 + dogStart, 0), s.notes)
    ensures Reaches(b, s, s')
    ensures s' == State(45000 + dogStart, TwoScanners(), 2, Rest(51000), Watching(75000 + dogStart, 2), s'.notes)
  {
    TurnThenRest(b, s, 0);
    var s1 := s.(now := 31000, ping := Rest(51000), received := 2);
    var s2 := s1.(now := 45000 + dogStart);
    AndThen(b, s, s1, Tick(14000 + dogStart), s2);
    assert IsScanner(s2.nodes[0]);
    s' := NextWindow(b, s2);
    ReachesVia(b, s, s2, s');
  }

  lemma BothHeardAgain(b: Bounds, dogStart: nat, s: State) returns (s': State)
    requires dogStart <= 2000 && b.hold + b.reply >= 4750
    requires s == State(45000 + dogStart, TwoScanners(), 2, Rest(51000), Watching(75000 + dogStart, 2), s.notes)
    ensures Reaches(b, s, s')
    ensures s' == State(54500 + dogStart, TwoScanners(), 4, Rest(74500 + dogStart), Watching(75000 + dogStart, 2), s.notes)
  {
    TurnAfterRest(b, s, 0);
    var s1 := s.(now := 51000, ping := Blocked(0, 51000 + b.hold));
    TurnThenTurn(b, s1, 2500 + dogStart);
    var s2 := s1.(now := 54000 + dogStart, ping := Blocked(9, 54000 + dogStart + b.hold), received := 3);
    ReachesVia(b, s, s1, s2);
    TurnThenRest(b, s2, 0);
    s' := s2.(now := 54500 + dogStart, ping := Rest(74500 + dogStart), received := 4);
    ReachesVia(b, s, s2, s');
  }

  lemma LastTurnBegins(b: Bounds, dogStart: nat, s: State) returns (s': State)
    requires dogStart <= 2000
    requires s == State(54500 + dogStart, TwoScanners(), 4, Rest(74500 + dogStart), Watching(75000 + dogStart, 2), s.notes)
    ensures Reaches(b, s, s')
    ensures s' == State(75000 + dogStart, TwoScanners(), 5, Blocked(9, 75000 + dogStart + b.hold),
                        Watching(75000 + dogStart, 2), s.notes)
  {
    TurnAfterRest(b, s, 0);
    var s1 := s.(now := 74500 + dogStart, ping := Blocked(0, 74500 + dogStart + b.hold));
    TurnThenTurn(b, s1, 0);
    s' := s1.(now := 75000 + dogStart, ping := Blocked(9, 75000 + dogStart + b.hold), received := 5);
    ReachesVia(b, s, s1, s');
  }

  /** The next window opens; the turn of the departed entry runs its course, and so does the next. */
  lemma TwoSlowTurns(b: Bounds, s: State) returns (s': State)
    requires b.hold + b.reply >= 4750 && s.nodes == TwoScanners()[9 := NodeTable.BLANK]
    requires s.ping == Blocked(9, s.now + b.hold) && s.dog == Watching(s.now, 2) && s.received == 5
    ensures Reaches(b, s, s') && s'.dog.Resetting? && s'.received == 5
  {
    assert IsScanner(s.nodes[0]);
    var s1 := NextWindow(b, s);
    s' := SecondSlowTurn(b, s1);
    ReachesVia(b, s, s1, s');
  }

  lemma SecondSlowTurn(b: Bounds, s: State) returns (s': State)
    requires b.hold + b.reply >= 4750 && s.nodes == TwoScanners()[9 := NodeTable.BLANK]
    requires s.ping == Blocked(9, s.now + b.hold) && s.dog == Watching(s.now + 30000, 5) && s.received == 5
    ensures Reaches(b, s, s') && s'.dog.Resetting? && s'.received == 5
  {
    var ms := if b.hold + b.reply < 9500 then b.hold + b.reply else 9500;
    TurnThenRest(b, s, ms);
    var s1 := s.(now := s.now + ms + 500, ping := Rest(s.now + ms + 20500));
    TurnAfterRest(b, s1, 0);
    var s2 := s1.(now := s.now + ms + 20500, ping := Blocked(0, s.now + ms + 20500 + b.hold));
    ReachesVia(b, s, s1, s2);
    s' := ClosesEmpty(b, s2);
    ReachesVia(b, s, s2, s');
  }

  /** So for a watchdog started within 2 s of the ping task, a mesh in which nodes leave, though not
      while an open window is empty, is never reset exactly below half the bound. */
  lemma ChangingMeshIff(b: Bounds, dogStart: nat)
    requires dogStart <= 2000
    ensures b.hold + b.reply < 4750
       <==> forall nodes: NodeTable.Nodes, es ::
              Legal(b, Start(nodes, dogStart), es) && FewMessages(b, Start(nodes, dogStart), es)
              && LeavesSpareEmptyWindows(b, Start(nodes, dogStart), es)
              ==> Calm(RunFrom(b, Start(nodes, dogStart), es).dog)
  {
    if b.hold + b.reply < 4750 {
      forall nodes: NodeTable.Nodes, es |
        Legal(b, Start(nodes, dogStart), es) && FewMessages(b, Start(nodes, dogStart), es)
        && LeavesSpareEmptyWindows(b, Start(nodes, dogStart), es)
        ensures Calm(RunFrom(b, Start(nodes, dogStart), es).dog)
      {
        ChangingMeshNeverReset(b, nodes, dogStart, es);
      }
    } else {
      var es := LeaveBeforeWindowIsReset(b, dogStart);
      FewInAll(b, Start(TwoScanners(), dogStart), es);
    }
  }

  /** Without that condition no bound does: if the only configured node leaves right after a window
      has opened, the window stays empty, however quick the acknowledgements were. */
  lemma DepartedScannerIsReset(b: Bounds, dogStart: nat) returns (es: seq<Event>)
    requires dogStart <= 5000
    ensures Legal(b, Start(LoneScanner(), dogStart), es)
    ensures RunFrom(b, Start(LoneScanner(), dogStart), es).dog.Resetting?
  {
    var s0 := Start(LoneScanner(), dogStart);
    var s2 := TwoWindows(b, dogStart);
    var s3 := s2.(nodes := NodeTable.Erased());
    assert s2.nodes[9 := NodeTable.BLANK] == NodeTable.Erased();
    var s4 := SilentWindowEnds(b, dogStart, s3);
    var es0 :| Legal(b, s0, es0) && RunFrom(b, s0, es0) == s2;
    var es1 :| Legal(b, s3, es1) && RunFrom(b, s3, es1) == s4;
    assert ([Leave(9)] + es1)[1..] == es1;
    Follow(b, s0, es0, [Leave(9)] + es1);
    es := es0 + ([Leave(9)] + es1);
  }

  /** With an empty table the ping task rests, scans and rests again. */
  lemma EmptyTurn(b: Bounds, s: State)
    requires s.nodes == NodeTable.Erased() && s.ping.Rest? && s.now <= s.ping.until && s.dog.Watching? && s.ping.until <= s.dog.until
    ensures Reaches(b, s, s.(now := s.ping.until, ping := Rest(s.ping.until + 20000)))
  {
    var s1 := s.(now := s.ping.until);
    ReachesBy(b, s, Tick(s.ping.until - s.now), s1);
    AndThen(b, s, s1, PingStep, s1.(ping := Scan(0)));
    ScanTo(b, s1.(ping := Scan(0)), 10);
    ReachesVia(b, s, s1.(ping := Scan(0)), s1.(ping := Scan(10)));
    AndThen(b, s, s1.(ping := Scan(10)), PingStep, s1.(ping := Rest(s1.now + 20000)));
  }

  lemma SilentWindowEnds(b: Bounds, dogStart: nat, s: State) returns (s': State)
    requires dogStart <= 5000
    requires s == State(45000 + dogStart, NodeTable.Erased(), 1, Rest(50500), Watching(75000 + dogStart, 1), s.notes)
    ensures Reaches(b, s, s') && s'.dog.Resetting?
  {
    var s1 := s.(now := 50500, ping := Rest(70500));
    var s2 := s.(now := 70500, ping := Rest(90500));
    var s3 := s2.(now := 75000 + dogStart);
    EmptyTurn(b, s);
    EmptyTurn(b, s1);
    ReachesVia(b, s, s1, s2);
    AndThen(b, s, s2, Tick(4500 + dogStart), s3);
    s' := After(b, s3, DogStep(false, false));
    AndThen(b, s, s3, DogStep(false, false), s');
  }
}
