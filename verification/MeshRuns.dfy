/** Laws of the mesh callbacks over whole runs, stated on the table as a map from address to node:
    what is counted, what is published, and what the entries of a device are. */
module MeshRuns {
  import opened Machine
  import opened SlotTable
  import T = NodeTable
  import opened MeshControl
  import opened NodeStatus
  import HB = Heartbeat

  // ----- the reception counter -----

  /** A tag report that is long enough, or an error-free answer to a ping from a relay or scanner that
      has been configured. */
  predicate Received(c: Core, e: Event) {
    match e
    case TagStatus(_, longEnough, _, _) => longEnough
    case Cfg(m) => m.event == GetState && m.err == 0 && (match T.Lookup(c.nodes, m.addr)
                                                         case Some(n) => (n.isRelay || n.isScan) && n.configDone
                                                         case None => false)
    case _ => false
  }

  function Receptions(c: Core, es: seq<Event>): nat
    decreases |es|
  {
    if |es| == 0 then 0 else ReceivedBy(c, es[0]) + Receptions(After(c, es[0]), es[1..])
  }

  function ReceivedBy(c: Core, e: Event): nat { if Received(c, e) then 1 else 0 }

  predicate NoRestart(es: seq<Event>) { |es| > 0 ==> !es[0].Restart? && NoRestart(es[1..]) }

  /** Between reboots the counter the watchdog watches counts exactly these. */
  lemma ReceptionsAreCounted(c: Core, es: seq<Event>)
    requires NoRestart(es)
    ensures RunFrom(c, es).received == U32(c.received + Receptions(c, es))
  {
    var wraps := CountsWithWraps(c, es);
    Unwrap(RunFrom(c, es).received, wraps);
  }

  lemma Unwrap(r: uint32, wraps: nat)
    ensures U32(r + wraps * TWO32) == r
  {
  }

  lemma {:induction false} CountsWithWraps(c: Core, es: seq<Event>) returns (wraps: nat)
    requires NoRestart(es)
    ensures c.received + Receptions(c, es) == RunFrom(c, es).received + wraps * TWO32
    decreases |es|
  {
    wraps := 0;
    if |es| > 0 {
      var wrap := CountedIfReceived(c, es[0]);
      var more := CountsWithWraps(After(c, es[0]), es[1..]);
      wraps := wrap + more;
    }
  }

  lemma CountedIfReceived(c: Core, e: Event) returns (wrap: nat)
    requires !e.Restart?
    ensures c.received + ReceivedBy(c, e) == After(c, e).received + wrap * TWO32
  {
    wrap := if ReceivedBy(c, e) == 1 && c.received == TWO32 - 1 then 1 else 0;
  }

  // ----- the same counter in the timed model of ping loop and watchdog -----

  /** The same entries are configured. */
  ghost predicate Mirrors(s: HB.State, c: Core) {
    && T.UniqueAddrs(c.nodes)
    && (forall i :: 0 <= i < T.MAX_NODES ==> (s.nodes[i].Configured() <==> c.nodes[i].Configured()))
    && c.received == U32(s.received)
  }

  /** No node joins or leaves, and the mesh is not wiped. */
  predicate Steady(s: HB.State, e: HB.Event) { !e.Join? && !e.Leave? && !(e.DogStep? && s.dog.NodeWait?) }

  /** The callbacks behind a step of the timed model: the acknowledgement of a ping, a tag report. */
  function Callbacks(s: HB.State, c: Core, e: HB.Event): seq<Event> {
    match e
    case Report => [TagStatus(0, true, U32(s.now), true)]
    case PingStep =>
      (match s.ping
       case Waiting(i, _) =>
         if i < T.MAX_NODES && c.nodes[i].Configured()
         then [Cfg(CfgMsg(GetState, c.nodes[i].addr, DEFAULT_TTL_GET, 0, U32(s.now), true))] else []
       case _ => [])
    case _ => []
  }

  function Trace(b: HB.Bounds, s: HB.State, c: Core, es: seq<HB.Event>): (r: seq<Event>)
    requires HB.Legal(b, s, es)
    decreases |es|
  {
    if |es| == 0 then []
    else
      var first := Callbacks(s, c, es[0]);
      first + Trace(b, HB.After(b, s, es[0]), RunFrom(c, first), es[1..])
  }

  ghost predicate SteadyRun(b: HB.Bounds, s: HB.State, es: seq<HB.Event>)
    requires HB.Legal(b, s, es)
    decreases |es|
  {
    |es| > 0 ==> Steady(s, es[0]) && SteadyRun(b, HB.After(b, s, es[0]), es[1..])
  }

  /** In every run of the timed model in which no node joins or leaves, its counter is the one that
      these callbacks move: what is proved of it there holds of the reception counter. */
  lemma {:induction false} TimedCounterIsReceptions(b: HB.Bounds, s: HB.State, c: Core, es: seq<HB.Event>)
    requires HB.Legal(b, s, es) && SteadyRun(b, s, es) && Mirrors(s, c)
    ensures Mirrors(HB.RunFrom(b, s, es), RunFrom(c, Trace(b, s, c, es)))
    ensures RunFrom(c, Trace(b, s, c, es)).received == U32(HB.RunFrom(b, s, es).received)
    decreases |es|
  {
    if |es| > 0 {
      var first := Callbacks(s, c, es[0]);
      StepMirrors(b, s, c, es[0]);
      TimedCounterIsReceptions(b, HB.After(b, s, es[0]), RunFrom(c, first), es[1..]);
      Compose(c, first, Trace(b, HB.After(b, s, es[0]), RunFrom(c, first), es[1..]));
    }
  }

  lemma Compose(c: Core, es: seq<Event>, fs: seq<Event>)
    ensures RunFrom(c, es + fs) == RunFrom(RunFrom(c, es), fs)
  {
    SplitRun(c, es + fs, |es|);
    assert (es + fs)[..|es|] == es && (es + fs)[|es|..] == fs;
  }

  lemma StepMirrors(b: HB.Bounds, s: HB.State, c: Core, e: HB.Event)
    requires HB.Enabled(s, e) && Steady(s, e) && Mirrors(s, c)
    ensures Mirrors(HB.After(b, s, e), RunFrom(c, Callbacks(s, c, e)))
  {
    var fs := Callbacks(s, c, e);
    if |fs| == 1 {
      assert fs[1..] == [] && RunFrom(c, fs) == After(c, fs[0]);
      CallbackMirrors(c, fs[0]);
      U32Add(s.received, 1);
      if e.PingStep? { T.FindPlaces(c.nodes, s.ping.i); }
    }
  }

  lemma CallbackMirrors(c: Core, e: Event)
    requires T.UniqueAddrs(c.nodes) && (e.TagStatus? || e.Cfg?)
    ensures T.UniqueAddrs(After(c, e).nodes)
    ensures forall i :: 0 <= i < T.MAX_NODES ==> (After(c, e).nodes[i].Configured() <==> c.nodes[i].Configured())
  {
    assert T.Addrs(After(c, e).nodes) == T.Addrs(c.nodes);
  }

  // ----- the status messages -----

  predicate FitToRefresh(n: T.Node, now: uint32) {
    n.isScan && (n.lastSeenMs == 0 || U32(now - n.lastSeenMs) > 30_000)
  }

  /** The message of each event, if it has one. */
  function Announces(c: Core, e: Event): seq<Status> {
    match e
    case TagStatus(src, longEnough, now, mqtt) =>
      (match T.Lookup(c.nodes, src)
       case Some(n) => if longEnough && FitToRefresh(n, now) then [Status(src, Scan, true, mqtt)] else []
       case None => [])
    case Cfg(m) =>
      (match T.Lookup(c.nodes, m.addr)
       case Some(n) => if m.err == 0 then AnnouncedBy(n, m) else []
       case None => [])
    case PingPublish => if c.goingOffline.Some? then [c.goingOffline.value] else []
    case _ => []
  }

  /** A node is announced with the acknowledgement of MODEL_APP_BIND, in each of its roles, and with the
      first ping it answers while it counts as offline. */
  function AnnouncedBy(n: T.Node, m: CfgMsg): seq<Status> {
    match m.event
    case SetState =>
      if m.op != 0x803D then []
      else (if n.isScan then [Status(m.addr, Scan, true, m.mqtt)] else [])
           + (if n.isRelay then [Status(m.addr, Relay, true, m.mqtt)] else [])
    case GetState =>
      if (n.isScan || n.isRelay) && n.configDone && !n.online
      then [Status(m.addr, if n.isScan then Scan else Relay, true, m.mqtt)] else []
    case Timeout => []
  }

  function Announcements(c: Core, es: seq<Event>): seq<Status>
    decreases |es|
  {
    if |es| == 0 then [] else Announces(c, es[0]) + Announcements(After(c, es[0]), es[1..])
  }

  /** Over every run these and no other messages are published, in that order. */
  lemma {:induction false} PublishesAnnouncements(c: Core, es: seq<Event>)
    ensures RunFrom(c, es).published == c.published + Announcements(c, es)
    decreases |es|
  {
    if |es| > 0 {
      EventPublishes(c, es[0]);
      PublishesAnnouncements(After(c, es[0]), es[1..]);
      Regroup(c.published, Announces(c, es[0]), Announcements(After(c, es[0]), es[1..]));
    } else {
      assert c.published + [] == c.published;
    }
  }

  lemma EventPublishes(c: Core, e: Event)
    ensures After(c, e).published == c.published + Announces(c, e)
  {
    assert c.published + [] == c.published;
    if e.Cfg? { CfgPublishes(c, e.m); }
  }

  lemma CfgPublishes(c: Core, m: CfgMsg)
    ensures AfterCfg(c, m).published == c.published + Announces(c, Cfg(m))
  {
    assert c.published + [] == c.published;
    if m.event.SetState? && T.Find(c.nodes, m.addr) >= 0 {
      var n := c.nodes[T.Find(c.nodes, m.addr)];
      Regroup(c.published, if n.isScan then [Status(m.addr, Scan, true, m.mqtt)] else [],
              if n.isRelay then [Status(m.addr, Relay, true, m.mqtt)] else []);
    }
  }

  // ----- every silence is published once -----

  /** The ping task looks at an entry that is online and has been silent for over 60 s. */
  predicate FindsSilent(c: Core, e: Event) {
    e.PingMark? && e.i < T.MAX_NODES
    && var n := c.nodes[e.i]; n.online && n.lastSeenMs > 0 && U32(e.now - n.lastSeenMs) > 60_000
  }

  function Silences(c: Core, es: seq<Event>): seq<Status>
    decreases |es|
  {
    if |es| == 0 then []
    else
      var e := es[0];
      (if FindsSilent(c, e)
       then [Status(c.nodes[e.i].addr, if c.nodes[e.i].isScan then Scan else Relay, false, e.mqtt)] else [])
      + Silences(After(c, e), es[1..])
  }

  function Offlines(log: seq<Status>): seq<Status> {
    if |log| == 0 then []
    else Offlines(log[..|log| - 1]) + if log[|log| - 1].online then [] else [log[|log| - 1]]
  }

  function Going(c: Core): seq<Status> {
    if c.goingOffline.Some? then [c.goingOffline.value] else []
  }

  /** The ping task publishes what it decided before it decides again, and does not reboot. */
  ghost predicate InTurn(c: Core, es: seq<Event>)
    decreases |es|
  {
    |es| > 0 ==> (es[0].PingMark? ==> c.goingOffline.None?) && !es[0].Restart? && InTurn(After(c, es[0]), es[1..])
  }

  /** Between reboots the OFFLINE messages published, and the one still to be, are exactly one for each
      time a node is found silent, in that order. */
  lemma {:induction false} EachSilenceIsPublishedOnce(c: Core, es: seq<Event>)
    requires InTurn(c, es) && (c.goingOffline.Some? ==> !c.goingOffline.value.online)
    ensures var c' := RunFrom(c, es);
            Offlines(c'.published) + Going(c') == Offlines(c.published) + Going(c) + Silences(c, es)
    decreases |es|
  {
    if |es| == 0 {
      assert Offlines(c.published) + Going(c) + [] == Offlines(c.published) + Going(c);
    } else {
      var c1, silent := After(c, es[0]), Silences(c, [es[0]]);
      EventSilences(c, es[0]);
      EachSilenceIsPublishedOnce(c1, es[1..]);
      assert Silences(c, es) == silent + Silences(c1, es[1..]);
      Regroup(Offlines(c.published) + Going(c), silent, Silences(c1, es[1..]));
    }
  }

  lemma EventSilences(c: Core, e: Event)
    requires InTurn(c, [e]) && (c.goingOffline.Some? ==> !c.goingOffline.value.online)
    ensures var c1 := After(c, e);
            && (c1.goingOffline.Some? ==> !c1.goingOffline.value.online)
            && Offlines(c1.published) + Going(c1) == Offlines(c.published) + Going(c) + Silences(c, [e])
  {
    assert [e][1..] == [];
    EventPublishes(c, e);
    OfflinesAppend(c.published, Announces(c, e));
    if e.PingPublish? {
      if c.goingOffline.Some? { assert [c.goingOffline.value][..0] == []; }
    } else {
      OnlineOnly(c, e);
      if e.PingMark? { MarkIsSilence(c, e); } else { OthersKeepGoing(c, e); }
    }
  }

  lemma MarkIsSilence(c: Core, e: Event)
    requires e.PingMark? && c.goingOffline.None?
    ensures Going(After(c, e)) == Silences(c, [e])
    ensures After(c, e).goingOffline.Some? ==> !After(c, e).goingOffline.value.online
  {
    assert [e][1..] == [];
  }

  lemma OthersKeepGoing(c: Core, e: Event)
    requires !e.PingMark? && !e.PingPublish? && !e.Restart?
    ensures After(c, e).goingOffline == c.goingOffline && Silences(c, [e]) == []
  {
    assert [e][1..] == [];
  }

  lemma {:induction false} OfflinesAppend(log: seq<Status>, more: seq<Status>)
    ensures Offlines(log + more) == Offlines(log) + Offlines(more)
  {
    if |more| == 0 {
      assert log + more == log;
    } else {
      OfflinesAppend(log, more[..|more| - 1]);
      assert (log + more)[..|log + more| - 1] == log + more[..|more| - 1];
    }
  }

  lemma OnlineOnly(c: Core, e: Event)
    requires !e.PingPublish?
    ensures Offlines(Announces(c, e)) == []
  {
    forall s | s in Announces(c, e) ensures s.online {}
    NoOfflines(Announces(c, e));
  }

  lemma {:induction false} NoOfflines(log: seq<Status>)
    requires forall s :: s in log ==> s.online
    ensures Offlines(log) == []
  {
    if |log| > 0 { NoOfflines(log[..|log| - 1]); }
  }

  /** A reboot starts both anew: the counter at zero, and an OFFLINE that was still to be published
      never is. */
  lemma RebootStartsAnew(c: Core, blob: T.Nodes, es: seq<Event>)
    requires var c1 := After(c, Restart(blob)); NoRestart(es) && InTurn(c1, es)
    ensures var c1, c' := After(c, Restart(blob)), RunFrom(c, [Restart(blob)] + es);
            && c'.received == U32(Receptions(c1, es))
            && Offlines(c'.published) + Going(c') == Offlines(c.published) + Silences(c1, es)
  {
    var c1 := After(c, Restart(blob));
    assert ([Restart(blob)] + es)[1..] == es;
    ReceptionsAreCounted(c1, es);
    EachSilenceIsPublishedOnce(c1, es);
    assert Offlines(c.published) + [] == Offlines(c.published);
  }

  // ----- one entry for each device -----

  /** "RELAY" and "SCAN" in ASCII. */
  const RELAY: Bytes := [82, 69, 76, 65, 89]
  const SCAN: Bytes := [83, 67, 65, 78]

  predicate StartsWith(uuid: Bytes, text: Bytes) { |text| <= |uuid| && uuid[..|text|] == text }

  /** What a device is goes by its UUID. */
  predicate KindOfUuid(n: T.Node) {
    (n.isRelay <==> StartsWith(n.uuid, RELAY)) && (n.isScan <==> StartsWith(n.uuid, SCAN))
  }

  ghost predicate Holds(nodes: T.Nodes, i: nat, uuid: Bytes) {
    i < T.MAX_NODES && nodes[i].used && nodes[i].uuid == uuid
  }

  ghost predicate OneEach(nodes: T.Nodes) {
    && (forall i, j, uuid :: Holds(nodes, i, uuid) && Holds(nodes, j, uuid) ==> i == j)
    && forall i :: 0 <= i < T.MAX_NODES && nodes[i].used ==> KindOfUuid(nodes[i])
  }

  /** The devices handed to the provisioner and not provisioned yet. */
  function Handed(c: Core, handed: set<Bytes>, e: Event): set<Bytes> {
    match e
    case Beacon(uuid) => if Reprovisions(c, uuid) then handed + {uuid} else handed
    case Provisioned(_, uuid, _) => handed - {uuid}
    case Restart(_) => {}
    case _ => handed
  }

  /** The stack provisions only devices it was handed, under an address that is not in the table,
      and a reboot loads a table that was saved so. */
  ghost predicate StackObeys(c: Core, handed: set<Bytes>, es: seq<Event>)
    decreases |es|
  {
    |es| > 0 ==>
    && (match es[0]
        case Provisioned(addr, uuid, _) => uuid in handed && T.Find(c.nodes, addr) < 0
        case Restart(blob) => OneEach(blob)
        case _ => true)
    && StackObeys(After(c, es[0]), Handed(c, handed, es[0]), es[1..])
  }

  ghost predicate NoneHanded(c: Core, handed: set<Bytes>) {
    forall i, uuid :: Holds(c.nodes, i, uuid) ==> uuid !in handed
  }

  /** In every run from power-up, however often devices reset themselves and come back, no device has
      two entries, none that is handed to the provisioner has one, and each is kept as what its UUID
      says it is. */
  lemma EachDeviceHasOneEntry(es: seq<Event>)
    requires StackObeys(PowerUp(), {}, es)
    ensures OneEach(RunFrom(PowerUp(), es).nodes)
  {
    RunKeepsOneEach(PowerUp(), {}, es);
  }

  lemma {:induction false} RunKeepsOneEach(c: Core, handed: set<Bytes>, es: seq<Event>)
    requires OneEach(c.nodes) && NoneHanded(c, handed) && StackObeys(c, handed, es)
    ensures OneEach(RunFrom(c, es).nodes)
    decreases |es|
  {
    if |es| > 0 {
      EventKeepsOneEach(c, handed, es[0]);
      RunKeepsOneEach(After(c, es[0]), Handed(c, handed, es[0]), es[1..]);
    }
  }

  lemma EventKeepsOneEach(c: Core, handed: set<Bytes>, e: Event)
    requires OneEach(c.nodes) && NoneHanded(c, handed) && StackObeys(c, handed, [e])
    ensures OneEach(After(c, e).nodes) && NoneHanded(After(c, e), Handed(c, handed, e))
  {
    match e {
      case Beacon(uuid) => BeaconKeepsOneEach(c, handed, uuid);
      case Provisioned(addr, uuid, mac) => ProvisionedKeepsOneEach(c, handed, addr, uuid, mac);
      case Restart(blob) => SameDevices(blob, After(c, e).nodes);
      case _ => OthersKeepDevices(c, e);
    }
  }

  lemma OthersKeepDevices(c: Core, e: Event)
    requires OneEach(c.nodes) && !e.Beacon? && !e.Provisioned? && !e.Restart?
    ensures OneEach(After(c, e).nodes)
    ensures forall i, uuid :: Holds(After(c, e).nodes, i, uuid) ==> Holds(c.nodes, i, uuid)
  {
    var nodes' := After(c, e).nodes;
    forall i: nat | i < T.MAX_NODES && nodes'[i].used ensures SameDevice(c.nodes[i], nodes'[i]) {
      EntryKeepsDevice(c, e, i);
    }
    SameDevices(c.nodes, nodes');
  }

  predicate SameDevice(n: T.Node, n': T.Node) {
    n.used && n'.used && n.uuid == n'.uuid && n.isRelay == n'.isRelay && n.isScan == n'.isScan
  }

  lemma EntryKeepsDevice(c: Core, e: Event, i: nat)
    requires !e.Beacon? && !e.Provisioned? && !e.Restart? && i < T.MAX_NODES
    ensures After(c, e).nodes[i].used ==> SameDevice(c.nodes[i], After(c, e).nodes[i])
  {
  }

  lemma SameDevices(nodes: T.Nodes, nodes': T.Nodes)
    requires OneEach(nodes)
    requires forall i :: 0 <= i < T.MAX_NODES && nodes'[i].used ==> SameDevice(nodes[i], nodes'[i])
    ensures OneEach(nodes')
    ensures forall i, uuid :: Holds(nodes', i, uuid) ==> Holds(nodes, i, uuid)
  {
    forall i, uuid | Holds(nodes', i, uuid) ensures Holds(nodes, i, uuid) {}
  }

  /** Once a beacon is answered no entry has its UUID. */
  lemma BeaconKeepsOneEach(c: Core, handed: set<Bytes>, uuid: Bytes)
    requires OneEach(c.nodes) && NoneHanded(c, handed)
    ensures OneEach(AfterBeacon(c, uuid).nodes)
    ensures NoneHanded(AfterBeacon(c, uuid), Handed(c, handed, Beacon(uuid)))
  {
    var i, nodes' := FindUuid(c.nodes, uuid), AfterBeacon(c, uuid).nodes;
    SameDevices(c.nodes, nodes');
    forall j | Holds(nodes', j, uuid) ensures !Reprovisions(c, uuid) {
      assert Holds(c.nodes, j, uuid);
      assert i >= 0 && Holds(c.nodes, i, uuid);
    }
  }

  lemma ProvisionedKeepsOneEach(c: Core, handed: set<Bytes>, addr: uint16, uuid: Bytes, mac: Bytes)
    requires OneEach(c.nodes) && NoneHanded(c, handed) && uuid in handed && T.Find(c.nodes, addr) < 0
    ensures OneEach(AfterProvisioned(c, addr, uuid, mac).nodes)
    ensures NoneHanded(AfterProvisioned(c, addr, uuid, mac), handed - {uuid})
  {
    var p, nodes' := T.PlaceFor(c.nodes, addr), AfterProvisioned(c, addr, uuid, mac).nodes;
    KindsAreApart(uuid);
    forall i, u | Holds(nodes', i, u) && i != p ensures Holds(c.nodes, i, u) && u != uuid {
      assert Holds(c.nodes, i, u);
    }
    if p >= 0 {
      assert nodes'[p].used && nodes'[p].uuid == uuid && KindOfUuid(nodes'[p]);
    }
  }

  lemma KindsAreApart(uuid: Bytes)
    ensures IsRelayUuid(uuid) <==> StartsWith(uuid, RELAY)
    ensures IsScanUuid(uuid) <==> StartsWith(uuid, SCAN)
    ensures !(IsRelayUuid(uuid) && IsScanUuid(uuid))
  {
    if StartsWith(uuid, RELAY) { assert uuid[0] == uuid[..5][0]; }
    if StartsWith(uuid, SCAN) { assert uuid[0] == uuid[..4][0]; }
  }
}
