/** The ping loop that keeps the mesh counter moving and the watchdog that wipes the mesh when it
    does not, as one timed step relation. Computation takes no time; delays take exactly as long
    as they say; `hold` bounds how long the mutex is waited for and `reply` how long an
    acknowledgement takes. The table only gains nodes. */
module Heartbeat {
  import opened Machine
  import opened NodeTable

  const PING_INTERVAL := 20000
  const PING_BOOT := 30000
  const PING_GAP := 500
  const WDG_TIMEOUT := 30000
  const WDG_STABILIZE := 15000
  const RESET_TRIES := 5
  const RESET_GAP := 1500
  const NODE_WAIT := 12000

  /** Where the ping task is, with the time its current wait ends at the latest. */
  datatype Ping =
    | Boot(until: nat)
    | Scan(i: nat)
    | Blocked(i: nat, until: nat)
    | Waiting(i: nat, until: nat)
    | Gap(i: nat, until: nat)
    | Rest(until: nat)

  /** Where the watchdog is. */
  datatype Dog =
    | Stabilise(until: nat)
    | Check
    | Nap(until: nat)
    | Watching(until: nat, snap: nat)
    | Resetting(i: nat, sentOk: nat, until: nat)
    | NodeWait(until: nat)
    | Wiped

  /** What the watchdog did, in order. */
  datatype Note =
    | Opened(hadScanner: bool, snap: nat)
    | Closed(received: nat)
    | Attempt(otaRunning: bool, sent: bool)
    | MeshWiped

  /** `received` counts every message; the firmware's counter is its low 32 bits. */
  datatype State = State(now: nat, nodes: Nodes, received: nat, ping: Ping, dog: Dog, notes: seq<Note>)

  /** `hold` and `reply`, in milliseconds. */
  datatype Bounds = Bounds(hold: nat, reply: nat)

  datatype Event =
    | Tick(ms: nat)
    | PingStep
    | Report
    | Join(i: nat, n: Node)
    | Leave(i: nat)
    | DogStep(otaRunning: bool, sendWorks: bool)

  predicate IsScanner(n: Node) { n.used && n.isScan && n.configDone }

  predicate HasConfiguredScanner(nodes: Nodes) { exists i :: 0 <= i < MAX_NODES && IsScanner(nodes[i]) }

  method FindConfiguredScanner(nodes: array<Node>) returns (found: bool)
    requires nodes.Length == MAX_NODES
    ensures found == HasConfiguredScanner(nodes[..])
  {
    for i := 0 to MAX_NODES
      invariant forall j :: 0 <= j < i ==> !IsScanner(nodes[j])
    {
      if nodes[i].used && nodes[i].isScan && nodes[i].configDone {
        assert IsScanner(nodes[..][i]);
        return true;
      }
    }
    found := false;
  }

  /** The five reset broadcasts; an attempt is skipped while an OTA runs. */
  method ResetCycle(otaRunning: seq<bool>, sendWorks: seq<bool>) returns (sentOk: nat, notes: seq<Note>)
    requires |otaRunning| == |sendWorks| == RESET_TRIES
    ensures |notes| == RESET_TRIES
    ensures forall i :: 0 <= i < RESET_TRIES ==> notes[i] == Attempt(otaRunning[i], !otaRunning[i] && sendWorks[i])
    ensures sentOk == 0 <==> forall i :: 0 <= i < RESET_TRIES ==> otaRunning[i] || !sendWorks[i]
  {
    sentOk, notes := 0, [];
    for i := 0 to RESET_TRIES
      invariant |notes| == i
      invariant forall j :: 0 <= j < i ==> notes[j] == Attempt(otaRunning[j], !otaRunning[j] && sendWorks[j])
      invariant sentOk == 0 <==> forall j :: 0 <= j < i ==> otaRunning[j] || !sendWorks[j]
    {
      if otaRunning[i] {
        notes := notes + [Attempt(true, false)];
      } else {
        if sendWorks[i] { sentOk := sentOk + 1; }
        notes := notes + [Attempt(false, sendWorks[i])];
      }
    }
  }

  /** The time a task's current wait ends at the latest; 0 for one that is about to act. */
  function PingDeadline(p: Ping): nat { if p.Scan? then 0 else p.until }
  function DogDeadline(d: Dog, now: nat): nat { if d.Check? then 0 else if d.Wiped? then now else d.until }

  predicate Enabled(s: State, e: Event) {
    match e
    case Tick(ms) => s.now + ms <= PingDeadline(s.ping) && !s.dog.Wiped? && s.now + ms <= DogDeadline(s.dog, s.now)
    case PingStep =>
      !s.dog.Wiped? &&
      (match s.ping
       case Scan(i) => i <= MAX_NODES
       case Blocked(_, _) => true
       case Waiting(i, _) => i < MAX_NODES
       case _ => s.now == s.ping.until)
    case Report => !s.dog.Wiped?
    case Join(i, n) => !s.dog.Wiped? && i < MAX_NODES && !s.nodes[i].Configured()
    case Leave(i) => !s.dog.Wiped? && i < MAX_NODES
    case DogStep(_, _) => !s.dog.Wiped? && (s.dog.Check? || s.now == s.dog.until)
  }

  function AfterPing(b: Bounds, s: State): State
    requires Enabled(s, PingStep)
  {
    match s.ping
    case Boot(_) => s.(ping := Scan(0))
    case Scan(i) =>
      if i == MAX_NODES then s.(ping := Rest(s.now + PING_INTERVAL))
      else if s.nodes[i].Configured() then s.(ping := Blocked(i, s.now + b.hold))
      else s.(ping := Scan(i + 1))
    case Blocked(i, _) => s.(ping := Waiting(i, s.now + b.reply))
    case Waiting(i, _) =>
      s.(ping := Gap(i, s.now + PING_GAP), received := s.received + if s.nodes[i].Configured() then 1 else 0)
    case Gap(i, _) => s.(ping := Scan(i + 1))
    case Rest(_) => s.(ping := Scan(0))
  }

  function AfterDog(s: State, otaRunning: bool, sendWorks: bool): State
    requires Enabled(s, DogStep(otaRunning, sendWorks))
  {
    match s.dog
    case Stabilise(_) => s.(dog := Check)
    case Nap(_) => s.(dog := Check)
    case Check =>
      if HasConfiguredScanner(s.nodes) then
        s.(dog := Watching(s.now + WDG_TIMEOUT, s.received), notes := s.notes + [Opened(true, s.received)])
      else s.(dog := Nap(s.now + WDG_TIMEOUT))
    case Watching(_, snap) =>
      s.(dog := if U32(s.received) != U32(snap) then Check else Resetting(0, 0, s.now),
         notes := s.notes + [Closed(s.received)])
    case Resetting(i, ok, _) =>
      if i < RESET_TRIES then
        s.(dog := Resetting(i + 1, if !otaRunning && sendWorks then ok + 1 else ok, s.now + RESET_GAP),
           notes := s.notes + [Attempt(otaRunning, !otaRunning && sendWorks)])
      else s.(dog := if ok == 0 then Check else NodeWait(s.now + NODE_WAIT))
    case NodeWait(_) => s.(dog := Wiped, nodes := Erased(), notes := s.notes + [MeshWiped])
  }

  function After(b: Bounds, s: State, e: Event): State
    requires Enabled(s, e)
  {
    match e
    case Tick(ms) => s.(now := s.now + ms)
    case PingStep => AfterPing(b, s)
    case Report => s.(received := s.received + 1)
    case Join(i, n) => s.(nodes := s.nodes[i := n])
    case Leave(i) => s.(nodes := s.nodes[i := BLANK])
    case DogStep(otaRunning, sendWorks) => AfterDog(s, otaRunning, sendWorks)
  }

  ghost predicate Legal(b: Bounds, s: State, es: seq<Event>)
    decreases |es|
  {
    es == [] || (Enabled(s, es[0]) && Legal(b, After(b, s, es[0]), es[1..]))
  }

  ghost function RunFrom(b: Bounds, s: State, es: seq<Event>): State
    requires Legal(b, s, es)
    decreases |es|
  {
    if es == [] then s else RunFrom(b, After(b, s, es[0]), es[1..])
  }

  /** Time counts from the start of the ping task, which is started before the watchdog. */
  function Start(nodes: Nodes, dogStart: nat): State {
    State(0, nodes, 0, Boot(PING_BOOT), Stabilise(dogStart + WDG_STABILIZE), [])
  }

  // ----- a live mesh is never reset -----

  ghost predicate SomeConfiguredFrom(nodes: Nodes, i: nat) {
    exists j :: i <= j < MAX_NODES && nodes[j].Configured()
  }

  /** When the next acknowledgement comes at the latest, if some node is configured. */
  ghost function NextBeat(b: Bounds, s: State): nat {
    var turn := b.hold + b.reply;
    match s.ping
    case Boot(u) => u + turn
    case Rest(u) => u + turn
    case Scan(i) => s.now + turn + if SomeConfiguredFrom(s.nodes, i) then 0 else PING_INTERVAL
    case Blocked(_, u) => u + b.reply
    case Waiting(_, u) => u
    case Gap(_, u) => u + PING_INTERVAL + turn
  }

  /** No wait has run past its deadline, and none is longer than its kind. */
  ghost predicate Timers(b: Bounds, s: State) {
    && match s.ping {
         case Boot(u) => s.now <= u <= PING_BOOT
         case Scan(i) => i <= MAX_NODES
         case Blocked(i, u) => i < MAX_NODES && s.nodes[i].Configured() && s.now <= u <= s.now + b.hold
         case Waiting(i, u) => i < MAX_NODES && s.nodes[i].Configured() && s.now <= u <= s.now + b.reply
         case Gap(i, u) => i < MAX_NODES && s.now <= u <= s.now + PING_GAP
         case Rest(u) => s.now <= u <= s.now + PING_INTERVAL
       }
    && match s.dog {
         case Stabilise(u) => s.now <= u && WDG_STABILIZE <= u
         case Watching(u, _) => s.now <= u && WDG_STABILIZE <= s.now
         case _ => WDG_STABILIZE <= s.now
       }
  }

  /** While a window is open, a scanner is configured, and unless a message has come since it
      opened the next acknowledgement is due within 20500 ms and one turn of its opening. */
  ghost predicate WindowWillSeeBeat(b: Bounds, s: State) {
    s.dog.Watching? ==>
      && HasConfiguredScanner(s.nodes)
      && s.received >= s.dog.snap
      && (s.received == s.dog.snap ==>
            NextBeat(b, s) + WDG_TIMEOUT <= s.dog.until + PING_GAP + PING_INTERVAL + b.hold + b.reply)
  }

  /** The watchdog is in its normal loop. */
  predicate Calm(d: Dog) { d.Stabilise? || d.Check? || d.Nap? || d.Watching? }

  lemma ConfiguredScannerIsPinged(nodes: Nodes)
    requires HasConfiguredScanner(nodes)
    ensures SomeConfiguredFrom(nodes, 0)
  {
    var i :| 0 <= i < MAX_NODES && IsScanner(nodes[i]);
    assert nodes[i].Configured();
  }

  lemma JoinKeepsConfigured(nodes: Nodes, k: nat, n: Node, i: nat)
    requires k < MAX_NODES && !nodes[k].Configured()
    ensures SomeConfiguredFrom(nodes, i) ==> SomeConfiguredFrom(nodes[k := n], i)
    ensures HasConfiguredScanner(nodes) ==> HasConfiguredScanner(nodes[k := n])
  {
    if SomeConfiguredFrom(nodes, i) {
      var j :| i <= j < MAX_NODES && nodes[j].Configured();
      assert nodes[k := n][j].Configured();
    }
    if HasConfiguredScanner(nodes) {
      var j :| 0 <= j < MAX_NODES && IsScanner(nodes[j]);
      assert nodes[j].Configured() && IsScanner(nodes[k := n][j]);
    }
  }

  lemma PingKeepsBeat(b: Bounds, s: State)
    requires Enabled(s, PingStep) && Timers(b, s) && WindowWillSeeBeat(b, s)
    ensures Timers(b, AfterPing(b, s)) && WindowWillSeeBeat(b, AfterPing(b, s))
  {
    if s.dog.Watching? { ConfiguredScannerIsPinged(s.nodes); }
  }

  lemma DogKeepsBeat(b: Bounds, s: State, otaRunning: bool, sendWorks: bool)
    requires b.hold + b.reply < WDG_TIMEOUT - PING_GAP - PING_INTERVAL
    requires Enabled(s, DogStep(otaRunning, sendWorks)) && Calm(s.dog) && Timers(b, s) && WindowWillSeeBeat(b, s)
    requires s.dog.Watching? ==> s.received - s.dog.snap < TWO32
    ensures var s' := AfterDog(s, otaRunning, sendWorks);
            Calm(s'.dog) && Timers(b, s') && WindowWillSeeBeat(b, s')
  {
    if s.dog.Watching? {
      assert NextBeat(b, s) >= s.now;
      assert s.received > s.dog.snap;
      CountersDiffer(s.dog.snap, s.received);
    }
  }

  lemma CountersDiffer(snap: nat, received: nat)
    requires 0 < received - snap < TWO32
    ensures U32(received) != U32(snap)
  {
  }

  lemma StepKeepsBeat(b: Bounds, s: State, e: Event)
    requires !e.Leave?
    requires b.hold + b.reply < WDG_TIMEOUT - PING_GAP - PING_INTERVAL
    requires Enabled(s, e) && Calm(s.dog) && Timers(b, s) && WindowWillSeeBeat(b, s)
    requires s.dog.Watching? ==> s.received - s.dog.snap < TWO32
    ensures var s' := After(b, s, e);
            Calm(s'.dog) && Timers(b, s') && WindowWillSeeBeat(b, s')
  {
    match e {
      case PingStep => PingKeepsBeat(b, s);
      case DogStep(o, w) => DogKeepsBeat(b, s, o, w);
      case Join(i, n) => JoinKeepsConfigured(s.nodes, i, n, if s.ping.Scan? then s.ping.i else 0);
      case _ =>
    }
  }

  /** In no state of the run has a window seen 2^32 messages. */
  ghost predicate FewMessages(b: Bounds, s: State, es: seq<Event>)
    requires Legal(b, s, es)
    decreases |es|
  {
    && (s.dog.Watching? ==> s.received - s.dog.snap < TWO32)
    && (es != [] ==> FewMessages(b, After(b, s, es[0]), es[1..]))
  }

  /** No entry is deleted. */
  predicate NobodyLeaves(es: seq<Event>) {
    forall k :: 0 <= k < |es| ==> !es[k].Leave?
  }

  lemma {:induction false} RunKeepsBeat(b: Bounds, s: State, es: seq<Event>)
    requires b.hold + b.reply < WDG_TIMEOUT - PING_GAP - PING_INTERVAL
    requires Calm(s.dog) && Timers(b, s) && WindowWillSeeBeat(b, s)
    requires Legal(b, s, es) && FewMessages(b, s, es) && NobodyLeaves(es)
    ensures Calm(RunFrom(b, s, es).dog)
    decreases |es|
  {
    if es != [] {
      StepKeepsBeat(b, s, es[0]);
      RunKeepsBeat(b, After(b, s, es[0]), es[1..]);
    }
  }

  /** If waiting for the mutex and for an acknowledgement together take less than 9500 ms, no run
      of any table in which nodes only join ever enters the reset cycle. */
  lemma LiveMeshNeverReset(b: Bounds, nodes: Nodes, dogStart: nat, es: seq<Event>)
    requires b.hold + b.reply < 9500
    requires Legal(b, Start(nodes, dogStart), es) && FewMessages(b, Start(nodes, dogStart), es) && NobodyLeaves(es)
    ensures Calm(RunFrom(b, Start(nodes, dogStart), es).dog)
  {
    RunKeepsBeat(b, Start(nodes, dogStart), es);
  }

  // ----- how far apart the counts are -----

  /** When the counter last went up, if it last did at `last` before the run. */
  ghost function LastBeat(b: Bounds, s: State, es: seq<Event>, last: nat): nat
    requires Legal(b, s, es)
    decreases |es|
  {
    if es == [] then last
    else
      var s' := After(b, s, es[0]);
      LastBeat(b, s', es[1..], if s'.received > s.received then s'.now else last)
  }

  /** The ping task's part of `Timers`. */
  ghost predicate PingInTime(b: Bounds, s: State) {
    match s.ping {
      case Boot(u) => s.now <= u
      case Scan(i) => i <= MAX_NODES
      case Blocked(i, u) => i < MAX_NODES && s.nodes[i].Configured() && s.now <= u <= s.now + b.hold
      case Waiting(i, u) => i < MAX_NODES && s.nodes[i].Configured() && s.now <= u <= s.now + b.reply
      case Gap(i, u) => i < MAX_NODES && s.now <= u <= s.now + PING_GAP
      case Rest(u) => s.now <= u <= s.now + PING_INTERVAL
    }
  }

  /** The next acknowledgement is due within 20500 ms and one turn of the last count. */
  ghost predicate BeatDue(b: Bounds, s: State, last: nat) {
    && PingInTime(b, s) && SomeConfiguredFrom(s.nodes, 0)
    && NextBeat(b, s) <= last + PING_GAP + PING_INTERVAL + b.hold + b.reply
  }

  lemma PingKeepsDue(b: Bounds, s: State, last: nat)
    requires Enabled(s, PingStep) && last <= s.now && BeatDue(b, s, last)
    ensures var s' := AfterPing(b, s); BeatDue(b, s', if s'.received > s.received then s'.now else last)
  {
  }

  lemma JoinKeepsDue(b: Bounds, s: State, k: nat, n: Node, last: nat)
    requires Enabled(s, Join(k, n)) && BeatDue(b, s, last)
    ensures BeatDue(b, s.(nodes := s.nodes[k := n]), last)
  {
    var nodes' := s.nodes[k := n];
    forall j | 0 <= j < MAX_NODES && s.nodes[j].Configured() ensures nodes'[j].Configured() {}
    var j :| 0 <= j < MAX_NODES && s.nodes[j].Configured();
    assert nodes'[j].Configured();
    if s.ping.Scan? && SomeConfiguredFrom(s.nodes, s.ping.i) {
      var l :| s.ping.i <= l < MAX_NODES && s.nodes[l].Configured();
      assert nodes'[l].Configured();
    }
  }

  lemma StepKeepsDue(b: Bounds, s: State, e: Event, last: nat)
    requires Enabled(s, e) && !e.Leave? && last <= s.now && BeatDue(b, s, last) && !After(b, s, e).dog.Wiped?
    ensures var s' := After(b, s, e); BeatDue(b, s', if s'.received > s.received then s'.now else last)
  {
    match e {
      case PingStep => PingKeepsDue(b, s, last);
      case Join(i, n) => JoinKeepsDue(b, s, i, n, last);
      case _ =>
    }
  }

  lemma {:induction false} BeatsAreClose(b: Bounds, s: State, es: seq<Event>, last: nat)
    requires Legal(b, s, es) && NobodyLeaves(es) && last <= s.now && BeatDue(b, s, last) && !s.dog.Wiped?
    ensures RunFrom(b, s, es).now <= LastBeat(b, s, es, last) + 20500 + b.hold + b.reply
    decreases |es|
  {
    DueIsAhead(b, s);
    if es != [] {
      var s' := After(b, s, es[0]);
      if s'.dog.Wiped? {
        NothingAfterWipe(b, s', es[1..]);
      } else {
        StepKeepsDue(b, s, es[0], last);
        BeatsAreClose(b, s', es[1..], if s'.received > s.received then s'.now else last);
      }
    }
  }

  lemma DueIsAhead(b: Bounds, s: State)
    requires PingInTime(b, s)
    ensures s.now <= NextBeat(b, s)
  {
  }

  lemma NothingAfterWipe(b: Bounds, s: State, es: seq<Event>)
    requires s.dog.Wiped? && Legal(b, s, es)
    ensures RunFrom(b, s, es).now == s.now && RunFrom(b, s, es).dog.Wiped?
  {
  }

  lemma {:induction false} RunKeepsPingInTime(b: Bounds, s: State, es: seq<Event>)
    requires Legal(b, s, es) && NobodyLeaves(es) && PingInTime(b, s)
    ensures RunFrom(b, s, es).dog.Wiped? || PingInTime(b, RunFrom(b, s, es))
    decreases |es|
  {
    if es != [] {
      var s' := After(b, s, es[0]);
      if s'.dog.Wiped? {
        NothingAfterWipe(b, s', es[1..]);
      } else {
        StepKeepsPingInTime(b, s, es[0]);
        RunKeepsPingInTime(b, s', es[1..]);
      }
    }
  }

  lemma StepKeepsPingInTime(b: Bounds, s: State, e: Event)
    requires Enabled(s, e) && !e.Leave? && PingInTime(b, s) && !After(b, s, e).dog.Wiped?
    ensures PingInTime(b, After(b, s, e))
  {
  }

  /** While no entry is deleted, from any moment of a run at which the ping task has started and a
      node is configured, the counter never stands still for longer than 20500 ms and one turn:
      not until the next count, not between two counts, and not after the last. */
  lemma CountsAreClose(b: Bounds, nodes: Nodes, dogStart: nat, es: seq<Event>, fs: seq<Event>)
    requires Legal(b, Start(nodes, dogStart), es) && NobodyLeaves(es)
    requires var s := RunFrom(b, Start(nodes, dogStart), es);
             Legal(b, s, fs) && NobodyLeaves(fs) && !s.ping.Boot? && !s.dog.Wiped? && SomeConfiguredFrom(s.nodes, 0)
    ensures var s := RunFrom(b, Start(nodes, dogStart), es);
            RunFrom(b, s, fs).now <= LastBeat(b, s, fs, s.now) + 20500 + b.hold + b.reply
  {
    var s := RunFrom(b, Start(nodes, dogStart), es);
    RunKeepsPingInTime(b, Start(nodes, dogStart), es);
    BeatsAreClose(b, s, fs, s.now);
  }

  // ----- every wipe was earned -----

  /** The last seven notes: a window opened on a configured scanner, closed with the same 32-bit
      count, and five reset attempts, none sent during an OTA and at least one sent. */
  ghost predicate EarnedWipe(notes: seq<Note>) {
    && |notes| >= 7
    && SilentWindow(notes[..|notes| - 5])
    && Attempts(notes, 5)
    && exists j :: |notes| - 5 <= j < |notes| && notes[j] == Attempt(false, true)
  }

  ghost predicate SilentWindow(notes: seq<Note>) {
    && |notes| >= 2
    && notes[|notes| - 2].Opened? && notes[|notes| - 2].hadScanner
    && notes[|notes| - 1].Closed? && U32(notes[|notes| - 1].received) == U32(notes[|notes| - 2].snap)
  }

  /** The last `n` notes are attempts, and none was sent while an OTA was running. */
  ghost predicate Attempts(notes: seq<Note>, n: nat) {
    && n <= |notes|
    && forall j :: |notes| - n <= j < |notes| ==> notes[j].Attempt? && !(notes[j].otaRunning && notes[j].sent)
  }

  ghost predicate DogHistory(s: State) {
    match s.dog
    case Watching(_, snap) => |s.notes| > 0 && s.notes[|s.notes| - 1] == Opened(true, snap)
    case Resetting(i, ok, _) =>
      && i <= RESET_TRIES && |s.notes| >= i
      && SilentWindow(s.notes[..|s.notes| - i])
      && Attempts(s.notes, i)
      && (ok > 0 <==> exists j :: |s.notes| - i <= j < |s.notes| && s.notes[j] == Attempt(false, true))
    case NodeWait(_) => EarnedWipe(s.notes)
    case Wiped => |s.notes| > 0 && s.notes[|s.notes| - 1] == MeshWiped && EarnedWipe(s.notes[..|s.notes| - 1])
    case _ => true
  }

  lemma AttemptKeepsHistory(s: State, otaRunning: bool, sendWorks: bool)
    requires Enabled(s, DogStep(otaRunning, sendWorks)) && DogHistory(s)
    requires s.dog.Resetting? && s.dog.i < RESET_TRIES
    ensures DogHistory(AfterDog(s, otaRunning, sendWorks))
  {
    var s' := AfterDog(s, otaRunning, sendWorks);
    var i, n := s.dog.i, |s.notes|;
    assert s'.notes[..n + 1 - (i + 1)] == s.notes[..n - i];
    assert forall j :: 0 <= j < n ==> s'.notes[j] == s.notes[j];
    assert s'.notes[n] == Attempt(otaRunning, !otaRunning && sendWorks);
    if s.dog.sentOk > 0 {
      var j :| n - i <= j < n && s.notes[j] == Attempt(false, true);
      assert s'.notes[j] == Attempt(false, true);
    }
  }

  lemma StepKeepsHistory(b: Bounds, s: State, e: Event)
    requires Enabled(s, e) && DogHistory(s)
    ensures DogHistory(After(b, s, e))
  {
    var s' := After(b, s, e);
    if e.DogStep? {
      match s.dog {
        case Watching(_, snap) =>
          assert s'.notes[..|s'.notes| - 0] == s'.notes;
        case Resetting(i, ok, _) =>
          if i < RESET_TRIES { AttemptKeepsHistory(s, e.otaRunning, e.sendWorks); }
        case NodeWait(_) => assert s'.notes[..|s'.notes| - 1] == s.notes;
        case _ =>
      }
    }
  }

  lemma {:induction false} RunKeepsHistory(b: Bounds, s: State, es: seq<Event>)
    requires DogHistory(s) && Legal(b, s, es)
    ensures DogHistory(RunFrom(b, s, es))
    decreases |es|
  {
    if es != [] {
      StepKeepsHistory(b, s, es[0]);
      RunKeepsHistory(b, After(b, s, es[0]), es[1..]);
    }
  }

  /** In every run, whatever the timing, the mesh is wiped only right after a window that began
      with a configured scanner and counted nothing, followed by five attempts of which at least
      one RESET_CMD was sent, none of them during an OTA. */
  lemma WipeIsEarned(b: Bounds, nodes: Nodes, dogStart: nat, es: seq<Event>)
    requires Legal(b, Start(nodes, dogStart), es)
    requires RunFrom(b, Start(nodes, dogStart), es).dog.Wiped?
    ensures var notes := RunFrom(b, Start(nodes, dogStart), es).notes;
            |notes| > 0 && notes[|notes| - 1] == MeshWiped && EarnedWipe(notes[..|notes| - 1])
  {
    RunKeepsHistory(b, Start(nodes, dogStart), es);
  }

  /** And a reset cycle always ends so: the mesh is wiped after the wait exactly if an attempt of the
      cycle was sent, and otherwise watching goes on. */
  lemma CycleWipesIffSent(b: Bounds, nodes: Nodes, dogStart: nat, es: seq<Event>, otaRunning: bool, sendWorks: bool)
    requires Legal(b, Start(nodes, dogStart), es) && Enabled(RunFrom(b, Start(nodes, dogStart), es), DogStep(otaRunning, sendWorks))
    ensures var s := RunFrom(b, Start(nodes, dogStart), es);
            var s', n := AfterDog(s, otaRunning, sendWorks), |s.notes|;
            && (s.dog.Resetting? && s.dog.i == 5 ==>
                  n >= 5 && s'.nodes == s.nodes &&
                  s'.dog == if exists j :: n - 5 <= j < n && s.notes[j] == Attempt(false, true)
                            then NodeWait(s.now + 12_000) else Check)
            && (s.dog.NodeWait? ==> s'.dog == Wiped && s'.nodes == Erased())
  {
    RunKeepsHistory(b, Start(nodes, dogStart), es);
  }

  /** A scanner that has been configured; relays do not count. */
  predicate ConfiguredScanner(n: Node) { n.used && n.isScan && n.configDone }

  predicate NoScannerJoins(es: seq<Event>) {
    |es| > 0 ==> !(es[0].Join? && ConfiguredScanner(es[0].n)) && NoScannerJoins(es[1..])
  }

  /** Without a configured scanner the watchdog never opens a window, however silent the relays. */
  lemma {:induction false} RelaysAloneAreNotWatched(b: Bounds, s: State, es: seq<Event>)
    requires Legal(b, s, es) && NoScannerJoins(es)
    requires s.dog.Stabilise? || s.dog.Check? || s.dog.Nap?
    requires forall n :: n in s.nodes ==> !ConfiguredScanner(n)
    ensures var s' := RunFrom(b, s, es); s'.notes == s.notes && (s'.dog.Stabilise? || s'.dog.Check? || s'.dog.Nap?)
    decreases |es|
  {
    if es != [] {
      var s1 := After(b, s, es[0]);
      forall n | n in s1.nodes ensures !ConfiguredScanner(n) {
        var i :| 0 <= i < MAX_NODES && s1.nodes[i] == n;
        assert n == s.nodes[i] || n == BLANK || es[0].Join?;
      }
      assert forall i :: 0 <= i < MAX_NODES ==> s.nodes[i] in s.nodes;
      RelaysAloneAreNotWatched(b, s1, es[1..]);
    }
  }

  /** Only the wipe itself and a departure remove a configured node. */
  lemma OnlyWipeRemovesNodes(b: Bounds, s: State, e: Event, i: nat)
    requires Enabled(s, e) && i < MAX_NODES && s.nodes[i].Configured()
    ensures After(b, s, e).nodes[i] != s.nodes[i] ==> (e.DogStep? && s.dog.NodeWait?) || e == Leave(i)
    ensures e.DogStep? && s.dog.Resetting? && s.dog.i == RESET_TRIES && s.dog.sentOk == 0
            ==> After(b, s, e) == s.(dog := Check)
  {
  }

  /** Every reset attempt fails or is skipped. */
  predicate NothingSent(es: seq<Event>) {
    forall k :: 0 <= k < |es| && es[k].DogStep? ==> es[k].otaRunning || !es[k].sendWorks
  }

  /** Nothing was sent in the current cycle either. */
  predicate NothingSentYet(d: Dog) {
    !d.NodeWait? && !d.Wiped? && (d.Resetting? ==> d.sentOk == 0)
  }

  /** Entry `i` neither joins nor leaves. */
  predicate Untouched(es: seq<Event>, i: nat) {
    forall k :: 0 <= k < |es| ==> !((es[k].Join? || es[k].Leave?) && es[k].i == i)
  }

  /** Over any run, of however many cycles, in which every attempt fails or is skipped, the mesh is
      not wiped and every entry stays as it was but for nodes that join or leave by themselves. */
  lemma {:induction false} NothingSentNothingLost(b: Bounds, s: State, es: seq<Event>, i: nat)
    requires Legal(b, s, es) && NothingSent(es) && NothingSentYet(s.dog) && i < MAX_NODES
    ensures NothingSentYet(RunFrom(b, s, es).dog)
    ensures Untouched(es, i) ==> RunFrom(b, s, es).nodes[i] == s.nodes[i]
    decreases |es|
  {
    if es != [] {
      NothingSentStep(b, s, es[0], i);
      NothingSentNothingLost(b, After(b, s, es[0]), es[1..], i);
    }
  }

  lemma NothingSentStep(b: Bounds, s: State, e: Event, i: nat)
    requires Enabled(s, e) && NothingSentYet(s.dog) && (e.DogStep? ==> e.otaRunning || !e.sendWorks) && i < MAX_NODES
    ensures NothingSentYet(After(b, s, e).dog)
    ensures !((e.Join? || e.Leave?) && e.i == i) ==> After(b, s, e).nodes[i] == s.nodes[i]
  {
  }
}
