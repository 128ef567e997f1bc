/** The ONLINE and OFFLINE messages of a node over whole runs, across reboots. */
module NodeStatus {
  import opened Machine
  import opened SlotTable
  import opened NodeTable
  import opened MeshControl

  datatype Event =
    | Cfg(m: CfgMsg)
    | TagStatus(src: uint16, longEnough: bool, now: uint32, mqtt: bool)
    | PingMark(i: nat, now: uint32, mqtt: bool)
    | PingPublish
    | Abort(addr: uint16)
    | Beacon(uuid: Bytes)
    | Provisioned(addr: uint16, uuid: Bytes, mac: Bytes)
    | ConfigDone(addr: uint16)
    | Restart(blob: Nodes)

  function After(c: Core, e: Event): Core {
    match e
    case Cfg(m) => AfterCfg(c, m)
    case TagStatus(src, longEnough, now, mqtt) => AfterTagStatus(c, src, longEnough, now, mqtt)
    case PingMark(i, now, mqtt) => if i < MAX_NODES then AfterPingMark(c, i, now, mqtt) else c
    case PingPublish => AfterPingPublish(c)
    case Abort(addr) => AfterAbort(c, addr)
    case Beacon(uuid) => AfterBeacon(c, uuid)
    case Provisioned(addr, uuid, mac) => AfterProvisioned(c, addr, uuid, mac)
    case ConfigDone(addr) => AfterConfigDone(c, addr)
    case Restart(blob) => Core(Loaded(blob), 0, 0, false, 0, c.published, None)
  }

  function RunFrom(c: Core, es: seq<Event>): Core
    decreases |es|
  {
    if es == [] then c else RunFrom(After(c, es[0]), es[1..])
  }

  /** The node is online again by the time its OFFLINE is to be published. */
  predicate BackOnline(c: Core) {
    c.goingOffline.Some?
      && exists i :: 0 <= i < MAX_NODES && c.nodes[i].online && c.nodes[i].addr == c.goingOffline.value.addr
  }

  /** The ping task publishes what it marked before it marks again, finds no node back online when
      it publishes, and a reboot loads a blob this gateway saved. */
  ghost predicate Orderly(c: Core, es: seq<Event>)
    decreases |es|
  {
    es != [] ==>
    && TaskOrder(c, es[0])
    && !(es[0].PingPublish? && BackOnline(c))
    && Orderly(After(c, es[0]), es[1..])
  }

  /** What the ping task's own order and the boot guarantee of any step. */
  ghost predicate TaskOrder(c: Core, e: Event) {
    (e.PingMark? ==> c.goingOffline.None?) && (e.Restart? ==> Saveable(e.blob))
  }

  /** What any saved table satisfies: unique addresses, and only managed nodes online. */
  ghost predicate Saveable(nodes: Nodes) {
    UniqueAddrs(nodes) && forall i :: 0 <= i < MAX_NODES && nodes[i].online ==> nodes[i].Managed()
  }

  /** The last message published for an address. */
  function LastStatus(log: seq<Status>, addr: uint16): Option<bool> {
    if log == [] then None
    else if log[|log| - 1].addr == addr then Some(log[|log| - 1].online)
    else LastStatus(log[..|log| - 1], addr)
  }

  /** Every OFFLINE follows an ONLINE as the address's latest message. */
  ghost predicate OfflineAfterOnline(log: seq<Status>) {
    forall k :: 0 <= k < |log| && !log[k].online ==> LastStatus(log[..k], log[k].addr) == Some(true)
  }

  ghost predicate Inv(c: Core) {
    && Saveable(c.nodes)
    && OfflineAfterOnline(c.published)
    && (forall i :: 0 <= i < MAX_NODES && c.nodes[i].online ==> LastStatus(c.published, c.nodes[i].addr) == Some(true))
    && (c.goingOffline.Some? ==>
          && !c.goingOffline.value.online
          && LastStatus(c.published, c.goingOffline.value.addr) == Some(true))
  }

  lemma Append(log: seq<Status>, s: Status)
    ensures forall a :: LastStatus(log + [s], a) == if a == s.addr then Some(s.online) else LastStatus(log, a)
    ensures OfflineAfterOnline(log) && (s.online || LastStatus(log, s.addr) == Some(true))
            ==> OfflineAfterOnline(log + [s])
  {
    var log' := log + [s];
    assert log'[..|log|] == log;
    forall k | 0 <= k < |log| ensures log'[..k] == log[..k] {}
  }

  /** One entry changes in place: addresses and the other entries stay. */
  lemma ChangeEntry(nodes: Nodes, i: nat, n: Node)
    requires Saveable(nodes) && i < MAX_NODES && nodes[i].used
    requires n.used && n.addr == nodes[i].addr && (n.online ==> n.Managed())
    ensures Saveable(nodes[i := n])
    ensures forall j :: 0 <= j < MAX_NODES && j != i && nodes[j].used ==> nodes[j].addr != nodes[i].addr
  {
    assert Addrs(nodes[i := n]) == Addrs(nodes);
    forall j | 0 <= j < MAX_NODES && j != i && nodes[j].used ensures nodes[j].addr != nodes[i].addr {
      assert Addrs(nodes)[j] != Addrs(nodes)[i];
    }
  }

  lemma ClearEntry(nodes: Nodes, i: nat)
    requires Saveable(nodes) && i < MAX_NODES
    ensures Saveable(nodes[i := BLANK])
  {
    SubColumn(Addrs(nodes), Addrs(nodes[i := BLANK]));
  }

  /** An ONLINE for a node that is alive keeps the invariant, whether or not the node goes online. */
  lemma OnlinePreserves(c: Core, c': Core, i: nat, s: Status)
    requires Inv(c) && i < MAX_NODES && c.nodes[i].Managed()
    requires s.online && s.addr == c.nodes[i].addr
    requires c'.published == c.published + [s] && c'.goingOffline == c.goingOffline
    requires c'.nodes == c.nodes
             || exists now :: c'.nodes == c.nodes[i := c.nodes[i].(lastSeenMs := now, online := true)]
    ensures Inv(c')
  {
    Append(c.published, s);
    if c'.nodes != c.nodes {
      ChangeEntry(c.nodes, i, c'.nodes[i]);
    }
  }

  lemma CfgPreserves(c: Core, m: CfgMsg)
    requires Inv(c)
    ensures Inv(AfterCfg(c, m))
  {
    var i, c' := Find(c.nodes, m.addr), AfterCfg(c, m);
    if m.event == SetState && m.op == MODEL_APP_BIND && m.err == 0 && i >= 0 {
      var n := c.nodes[i];
      var mid := if n.isScan then c.(published := c.published + [Status(m.addr, Scan, true, m.mqtt)]) else c;
      if n.isScan { OnlinePreserves(c, mid, i, Status(m.addr, Scan, true, m.mqtt)); }
      if n.isRelay { OnlinePreserves(mid, c'.(ackBit := c.ackBit), i, Status(m.addr, Relay, true, m.mqtt)); }
      assert c.published + [] == c.published;
      assert c'.published == if n.isRelay then mid.published + [Status(m.addr, Relay, true, m.mqtt)] else mid.published;
    } else if m.event == GetState && m.err == 0 && i >= 0 && c.nodes[i].Configured() {
      if c.nodes[i].online {
        ChangeEntry(c.nodes, i, c'.nodes[i]);
        assert c'.published == c.published;
      } else {
        OnlinePreserves(c, c', i, Status(m.addr, RoleOf(c.nodes[i]), true, m.mqtt));
      }
    }
  }

  lemma TagStatusPreserves(c: Core, src: uint16, longEnough: bool, now: uint32, mqtt: bool)
    requires Inv(c)
    ensures Inv(AfterTagStatus(c, src, longEnough, now, mqtt))
  {
    var i, c' := Find(c.nodes, src), AfterTagStatus(c, src, longEnough, now, mqtt);
    if c'.published != c.published {
      OnlinePreserves(c, c', i, Status(src, Scan, true, mqtt));
    }
  }

  lemma PingPreserves(c: Core, i: nat, now: uint32, mqtt: bool)
    requires Inv(c) && i < MAX_NODES && c.goingOffline.None?
    ensures Inv(AfterPingMark(c, i, now, mqtt))
  {
    if AfterPingMark(c, i, now, mqtt) != c {
      ChangeEntry(c.nodes, i, c.nodes[i].(online := false));
    }
  }

  lemma ProvisionedPreserves(c: Core, addr: uint16, uuid: Bytes, mac: Bytes)
    requires Inv(c)
    ensures Inv(AfterProvisioned(c, addr, uuid, mac))
  {
    var i, nodes := PlaceFor(c.nodes, addr), Added(c.nodes, addr, uuid, mac);
    AddedPreserves(c, addr, uuid, mac);
    if i >= 0 {
      ChangeEntry(nodes, i, AfterProvisioned(c, addr, uuid, mac).nodes[i]);
    }
  }

  lemma AddedPreserves(c: Core, addr: uint16, uuid: Bytes, mac: Bytes)
    requires Inv(c)
    ensures Inv(c.(nodes := Added(c.nodes, addr, uuid, mac)))
  {
    AddKeepsUnique(c.nodes, addr, uuid, mac);
  }

  lemma StepPreserves(c: Core, e: Event)
    requires Inv(c) && Orderly(c, [e])
    ensures Inv(After(c, e))
  {
    match e {
      case Cfg(m) => CfgPreserves(c, m);
      case TagStatus(src, longEnough, now, mqtt) => TagStatusPreserves(c, src, longEnough, now, mqtt);
      case PingMark(i, now, mqtt) => if i < MAX_NODES { PingPreserves(c, i, now, mqtt); }
      case PingPublish => if c.goingOffline.Some? { Append(c.published, c.goingOffline.value); }
      case Abort(addr) => if Find(c.nodes, addr) >= 0 { ClearEntry(c.nodes, Find(c.nodes, addr)); }
      case Beacon(uuid) => if FindUuid(c.nodes, uuid) >= 0 { ClearEntry(c.nodes, FindUuid(c.nodes, uuid)); }
      case Provisioned(addr, uuid, mac) => ProvisionedPreserves(c, addr, uuid, mac);
      case ConfigDone(addr) =>
        var i := Find(c.nodes, addr);
        if i >= 0 { ChangeEntry(c.nodes, i, c.nodes[i].(configDone := true)); }
      case Restart(blob) => assert Addrs(Loaded(blob)) == Addrs(blob);
    }
  }

  lemma {:induction false} RunKeepsInv(c: Core, es: seq<Event>)
    requires Inv(c) && Orderly(c, es)
    ensures Inv(RunFrom(c, es))
    decreases |es|
  {
    if es != [] {
      StepPreserves(c, es[0]);
      RunKeepsInv(After(c, es[0]), es[1..]);
    }
  }

  function PowerUp(): Core { Core(Erased(), 0, 0, false, 0, [], None) }

  ghost predicate OnlineBetween(log: seq<Status>, i: nat, j: nat, addr: uint16)
    requires j <= |log|
  {
    exists k :: i < k < j && log[k].addr == addr && log[k].online
  }

  lemma {:induction false} LastOnlineLies(log: seq<Status>, i: nat, j: nat, addr: uint16)
    requires i < j <= |log| && log[i].addr == addr && !log[i].online && LastStatus(log[..j], addr) == Some(true)
    ensures OnlineBetween(log, i, j, addr)
    decreases j
  {
    assert log[..j][..j - 1] == log[..j - 1];
    if log[j - 1].addr != addr {
      LastOnlineLies(log, i, j - 1, addr);
      var k :| i < k < j - 1 && log[k].addr == addr && log[k].online;
    }
  }

  /** In every orderly run from power-up, between two OFFLINE messages published for a node
      there is an ONLINE message for it. */
  lemma OfflineNeverTwice(es: seq<Event>, i: nat, j: nat)
    requires Orderly(PowerUp(), es)
    requires var log := RunFrom(PowerUp(), es).published;
             i < j < |log| && !log[i].online && !log[j].online && log[i].addr == log[j].addr
    ensures var log := RunFrom(PowerUp(), es).published;
            OnlineBetween(log, i, j, log[i].addr)
  {
    assert UniqueAddrs(Erased());
    RunKeepsInv(PowerUp(), es);
    var log := RunFrom(PowerUp(), es).published;
    LastOnlineLies(log, i, j, log[i].addr);
  }

  // ----- the condition is exact -----

  /** The first event is the publication, and from there on the run is orderly. */
  ghost predicate OrderlyFromPublish(c: Core, es: seq<Event>) {
    es != [] && es[0].PingPublish? && Orderly(After(c, es[0]), es[1..])
  }

  lemma Cons(c: Core, e: Event, es: seq<Event>)
    ensures RunFrom(c, [e] + es) == RunFrom(After(c, e), es)
    ensures TaskOrder(c, e) && !(e.PingPublish? && BackOnline(c)) && Orderly(After(c, e), es) ==> Orderly(c, [e] + es)
    ensures e.PingPublish? && Orderly(After(c, e), es) ==> OrderlyFromPublish(c, [e] + es)
  {
    assert ([e] + es)[1..] == es;
  }

  /** With an OFFLINE to be published, an otherwise orderly run can follow in which an OFFLINE
      repeats one exactly if the node is back online. */
  lemma DoublesOfflineIff(c: Core)
    requires Inv(c) && c.goingOffline.Some?
    ensures BackOnline(c)
       <==> exists es :: OrderlyFromPublish(c, es) && !OfflineAfterOnline(RunFrom(c, es).published)
  {
    if BackOnline(c) {
      var i :| 0 <= i < MAX_NODES && c.nodes[i].online && c.nodes[i].addr == c.goingOffline.value.addr;
      SecondOffline(c, i, 1);
      assert OrderlyFromPublish(c, NextSilence(c, i, 1));
    }
    forall es | OrderlyFromPublish(c, es) && !BackOnline(c) ensures OfflineAfterOnline(RunFrom(c, es).published) {
      RunKeepsInv(c, es);
    }
  }

  /** Publish; the node, configured if it was not, answers one ping at `now` and falls silent for a
      minute. */
  function NextSilence(c: Core, i: nat, now: uint32): seq<Event>
    requires i < MAX_NODES
  {
    [PingPublish] + Silence(c, i, now)
  }

  function Silence(c: Core, i: nat, now: uint32): seq<Event>
    requires i < MAX_NODES
  {
    var rest := [Cfg(CfgMsg(GetState, c.nodes[i].addr, 0, 0, now, true))]
                + ([PingMark(i, U32(now + 60_001), true)] + ([PingPublish] + []));
    if c.nodes[i].configDone then rest else [ConfigDone(c.nodes[i].addr)] + rest
  }

  /** Whatever the time is, except the tick at which the 32-bit clock reads 0. */
  lemma SecondOffline(c: Core, i: nat, now: uint32)
    requires Inv(c) && c.goingOffline.Some? && i < MAX_NODES && now > 0
    requires c.nodes[i].online && c.nodes[i].addr == c.goingOffline.value.addr
    ensures OrderlyFromPublish(c, NextSilence(c, i, now))
    ensures !OfflineAfterOnline(RunFrom(c, NextSilence(c, i, now)).published)
  {
    var c1 := After(c, PingPublish);
    var second := SilentAgain(c1, i, now);
    Cons(c, PingPublish, Silence(c, i, now));
    RepeatedOffline(c.published, c.goingOffline.value, second);
  }

  lemma SilentAgain(c: Core, i: nat, now: uint32) returns (s: Status)
    requires Saveable(c.nodes) && c.goingOffline.None? && i < MAX_NODES && c.nodes[i].online && now > 0
    ensures Orderly(c, Silence(c, i, now)) && RunFrom(c, Silence(c, i, now)).published == c.published + [s]
    ensures !s.online && s.addr == c.nodes[i].addr
  {
    var a := c.nodes[i].addr;
    FindPlaces(c.nodes, i);
    var c2 := c.(nodes := c.nodes[i := c.nodes[i].(configDone := true)]);
    assert Addrs(c2.nodes) == Addrs(c.nodes);
    s := AnsweredThenSilent(c2, i, now);
    if c.nodes[i].configDone {
      assert c2.nodes == c.nodes;
    } else {
      Cons(c, ConfigDone(a), Silence(c2, i, now));
    }
  }

  lemma AnsweredThenSilent(c: Core, i: nat, now: uint32) returns (s: Status)
    requires Saveable(c.nodes) && c.goingOffline.None? && i < MAX_NODES && now > 0
    requires c.nodes[i].online && c.nodes[i].configDone
    ensures Orderly(c, Silence(c, i, now)) && RunFrom(c, Silence(c, i, now)).published == c.published + [s]
    ensures !s.online && s.addr == c.nodes[i].addr
  {
    var m := CfgMsg(GetState, c.nodes[i].addr, 0, 0, now, true);
    AnsweredPing(c, i, m);
    var c1 := After(c, Cfg(m));
    assert Addrs(c1.nodes) == Addrs(c.nodes);
    s := MarkAndPublish(c1, i, U32(now + 60_001));
    Cons(c, Cfg(m), [PingMark(i, U32(now + 60_001), true)] + ([PingPublish] + []));
  }

  lemma MinuteLater(now: uint32)
    ensures U32(U32(now + 60_001) - now) == 60_001
  {
  }

  lemma MarkAndPublish(c: Core, i: nat, now: uint32) returns (s: Status)
    requires UniqueAddrs(c.nodes) && c.goingOffline.None? && i < MAX_NODES
    requires c.nodes[i].used && c.nodes[i].online && c.nodes[i].lastSeenMs > 0 && now == U32(c.nodes[i].lastSeenMs + 60_001)
    requires forall j :: 0 <= j < MAX_NODES && c.nodes[j].online ==> c.nodes[j].used
    ensures var es := [PingMark(i, now, true)] + ([PingPublish] + []);
            Orderly(c, es) && RunFrom(c, es).published == c.published + [s]
    ensures !s.online && s.addr == c.nodes[i].addr
  {
    s := Status(c.nodes[i].addr, RoleOf(c.nodes[i]), false, true);
    MinuteLater(c.nodes[i].lastSeenMs);
    var c' := After(c, PingMark(i, now, true));
    assert c' == c.(nodes := c.nodes[i := c.nodes[i].(online := false)], goingOffline := Some(s));
    assert Addrs(c'.nodes) == Addrs(c.nodes);
    OnlyOneEntry(c'.nodes, i);
    assert !BackOnline(c');
    Cons(c', PingPublish, []);
    Cons(c, PingMark(i, now, true), [PingPublish] + []);
  }

  lemma AnsweredPing(c: Core, i: nat, m: CfgMsg)
    requires UniqueAddrs(c.nodes) && i < MAX_NODES && c.nodes[i].Configured() && c.nodes[i].online
    requires m.event == GetState && m.err == 0 && m.addr == c.nodes[i].addr
    ensures var c' := AfterCfg(c, m);
            && c'.nodes == c.nodes[i := c.nodes[i].(lastSeenMs := m.now)]
            && c'.published == c.published && c'.goingOffline == c.goingOffline
  {
    FindPlaces(c.nodes, i);
    assert c.published + [] == c.published;
    assert c.nodes[i].(lastSeenMs := m.now, online := true) == c.nodes[i].(lastSeenMs := m.now);
  }

  lemma OnlyOneEntry(nodes: Nodes, i: nat)
    requires UniqueAddrs(nodes) && i < MAX_NODES && nodes[i].used && !nodes[i].online
    ensures forall j :: 0 <= j < MAX_NODES && nodes[j].used && nodes[j].online ==> nodes[j].addr != nodes[i].addr
  {
    forall j | 0 <= j < MAX_NODES && nodes[j].used && nodes[j].online ensures nodes[j].addr != nodes[i].addr {
      assert Addrs(nodes)[j] == Some(nodes[j].addr);
      assert Addrs(nodes)[i] == Some(nodes[i].addr);
    }
  }

  lemma RepeatedOffline(log: seq<Status>, first: Status, second: Status)
    requires !first.online && !second.online && first.addr == second.addr
    ensures !OfflineAfterOnline(log + [first] + [second])
  {
    var log' := log + [first] + [second];
    assert log'[..|log| + 1] == log + [first];
    assert log'[|log| + 1] == second;
    Append(log, first);
  }

  /** Such a run from power-up: a scanner is provisioned, configured and heard; marked silent; heard
      again before the publication; and silent once more. */
  lemma HeardInBetweenDoublesOffline(mac: Bytes)
    ensures RunFrom(PowerUp(), ReturningScanner(mac)).published
         == [Status(2, Scan, true, true), Status(2, Scan, true, true),
             Status(2, Scan, false, true), Status(2, Scan, false, true)]
  {
    var es := ReturningScanner(mac);
    var c3 := HeardOnce(mac);
    var c5 := HeardAgain(mac, c3);
    FellSilentAgain(mac, c5);
    assert es[3..][..2] == es[3..5] && es[3..][2..] == es[5..];
    SplitRun(c3, es[3..], 2);
    SplitRun(PowerUp(), es, 3);
  }

  /** And on to the second OFFLINE. */
  lemma FellSilentAgain(mac: Bytes, c5: Core)
    requires c5 == MarkedAndHeard(mac)
    ensures RunFrom(c5, ReturningScanner(mac)[5..]).published
         == [Status(2, Scan, true, true), Status(2, Scan, true, true),
             Status(2, Scan, false, true), Status(2, Scan, false, true)]
  {
    var es := ReturningScanner(mac)[5..];
    var c6 := After(c5, es[0]);
    var c7 := After(c6, es[1]);
    assert c7.goingOffline == Some(Status(2, Scan, false, true));
    RunThrough(es, [c5, c6, c7, After(c7, es[2])]);
  }

  /** On to the second report, which comes between mark and publication. */
  lemma HeardAgain(mac: Bytes, c3: Core) returns (c5: Core)
    requires c3 == OnceHeard(mac)
    ensures c5 == RunFrom(c3, ReturningScanner(mac)[3..5])
    ensures c5 == MarkedAndHeard(mac)
  {
    var es := ReturningScanner(mac)[3..5];
    var c4 := After(c3, es[0]);
    LoneEntry(c4.nodes);
    c5 := After(c4, es[1]);
    RunThrough(es, [c3, c4, c5]);
  }

  function OnceHeard(mac: Bytes): Core {
    PowerUp().(nodes := Erased()[0 := Node(true, false, true, true, true, 1, 2, SCAN_UUID, mac)],
               received := 1, published := [Status(2, Scan, true, true)])
  }

  function MarkedAndHeard(mac: Bytes): Core {
    PowerUp().(nodes := Erased()[0 := Node(true, false, true, true, true, 100_000, 2, SCAN_UUID, mac)],
               received := 2, published := [Status(2, Scan, true, true), Status(2, Scan, true, true)],
               goingOffline := Some(Status(2, Scan, false, true)))
  }

  /** The run up to the first report. */
  lemma HeardOnce(mac: Bytes) returns (c: Core)
    ensures c == RunFrom(PowerUp(), ReturningScanner(mac)[..3])
    ensures c == OnceHeard(mac)
  {
    var es := ReturningScanner(mac)[..3];
    var c1 := After(PowerUp(), es[0]);
    FirstProvisioned(SCAN_UUID, mac);
    LoneEntry(c1.nodes);
    var c2 := LoneConfigured(mac);
    assert After(c1, es[1]) == c2;
    HearsFirst(mac, c2);
    c := OnceHeard(mac);
    RunThrough(es, [PowerUp(), c1, c2, c]);
  }

  function LoneConfigured(mac: Bytes): Core {
    PowerUp().(nodes := Erased()[0 := Node(true, false, true, true, false, 0, 2, SCAN_UUID, mac)])
  }

  lemma HearsFirst(mac: Bytes, c: Core)
    requires c == LoneConfigured(mac)
    ensures After(c, TagStatus(2, true, 1, true)) == OnceHeard(mac)
  {
    LoneEntry(c.nodes);
  }

  lemma {:induction false} SplitRun(c: Core, es: seq<Event>, k: nat)
    requires k <= |es|
    ensures RunFrom(c, es) == RunFrom(RunFrom(c, es[..k]), es[k..])
    ensures Orderly(c, es[..k]) && Orderly(RunFrom(c, es[..k]), es[k..]) ==> Orderly(c, es)
    decreases k
  {
    if k > 0 {
      SplitRun(After(c, es[0]), es[1..], k - 1);
      assert es[1..][..k - 1] == es[..k][1..] && es[1..][k - 1..] == es[k..];
    } else {
      assert es[0..] == es;
    }
  }

  const SCAN_UUID: Bytes := [0x53, 0x43, 0x41, 0x4E]

  function ReturningScanner(mac: Bytes): seq<Event> {
    [Provisioned(2, SCAN_UUID, mac), ConfigDone(2), TagStatus(2, true, 1, true),
     PingMark(0, 100_000, true), TagStatus(2, true, 100_000, true), PingPublish,
     PingMark(0, 200_000, true), PingPublish]
  }

  lemma FirstProvisioned(uuid: Bytes, mac: Bytes)
    requires uuid == SCAN_UUID
    ensures AfterProvisioned(PowerUp(), 2, uuid, mac)
         == PowerUp().(nodes := Erased()[0 := BLANK.(used := true, isScan := true, addr := 2, uuid := uuid, mac := mac)])
  {
    var ids := Addrs(Erased());
    assert forall i :: 0 <= i < MAX_NODES ==> ids[i] == None;
    IndexOfIs(ids, Some(2 as uint16), MAX_NODES);
    IndexOfIs(ids, None, 0);
    assert PlaceFor(Erased(), 2) == 0;
    assert !IsRelayUuid(uuid) && IsScanUuid(uuid);
  }

  lemma LoneEntry(nodes: Nodes)
    requires nodes[0].used && nodes[0].addr == 2
    ensures Find(nodes, 2) == 0
  {
    IndexOfIs(Addrs(nodes), Some(2 as uint16), 0);
  }

  lemma {:induction false} RunThrough(es: seq<Event>, cs: seq<Core>)
    requires |cs| == |es| + 1 && forall k :: 0 <= k < |es| ==> cs[k + 1] == After(cs[k], es[k])
    ensures RunFrom(cs[0], es) == cs[|es|]
    ensures (forall k :: 0 <= k < |es| ==> TaskOrder(cs[k], es[k]) && !(es[k].PingPublish? && BackOnline(cs[k])))
            ==> Orderly(cs[0], es)
    decreases |es|
  {
    if es != [] { RunThrough(es[1..], cs[1..]); }
  }

  // ----- what reaches the server -----

  /** The messages that were not dropped. */
  function Sent(log: seq<Status>): seq<Status> {
    if log == [] then []
    else Sent(log[..|log| - 1]) + if log[|log| - 1].sent then [log[|log| - 1]] else []
  }

  predicate SentOnline(s: Status, addr: uint16) { s.sent && s.online && s.addr == addr }
  predicate SentOffline(s: Status, addr: uint16) { s.sent && !s.online && s.addr == addr }

  /** Before position k, message i is a sent ONLINE of the address with no sent OFFLINE since. */
  ghost predicate OnlineSince(log: seq<Status>, k: nat, addr: uint16, i: nat)
    requires k <= |log|
  {
    0 <= i < k && SentOnline(log[i], addr) && forall j :: i < j < k ==> !SentOffline(log[j], addr)
  }

  ghost predicate KnownOnline(log: seq<Status>, k: nat, addr: uint16)
    requires k <= |log|
  {
    exists i :: OnlineSince(log, k, addr, i)
  }

  /** Message k is an OFFLINE that was sent, and every ONLINE since the address's previous such
      message was dropped. */
  ghost predicate OnlinesDropped(log: seq<Status>, k: nat)
    requires k < |log|
  {
    SentOffline(log[k], log[k].addr) && !KnownOnline(log, k, log[k].addr)
  }

  lemma KnownOnlineStep(log: seq<Status>, k: nat, addr: uint16)
    requires k < |log|
    ensures KnownOnline(log, k + 1, addr)
       <==> SentOnline(log[k], addr) || (KnownOnline(log, k, addr) && !SentOffline(log[k], addr))
  {
    if SentOnline(log[k], addr) {
      assert OnlineSince(log, k + 1, addr, k);
    } else if KnownOnline(log, k, addr) && !SentOffline(log[k], addr) {
      var i :| OnlineSince(log, k, addr, i);
      assert OnlineSince(log, k + 1, addr, i);
    }
    if KnownOnline(log, k + 1, addr) && !SentOnline(log[k], addr) {
      var i :| OnlineSince(log, k + 1, addr, i);
      assert OnlineSince(log, k, addr, i);
    }
  }

  lemma LastStatusOf(log: seq<Status>, s: Status, a: uint16)
    ensures LastStatus(log + [s], a) == if a == s.addr then Some(s.online) else LastStatus(log, a)
  {
    assert (log + [s])[..|log|] == log;
  }

  lemma SentStep(log: seq<Status>, k: nat)
    requires k < |log|
    ensures Sent(log[..k + 1]) == Sent(log[..k]) + if log[k].sent then [log[k]] else []
  {
    assert log[..k + 1][..k] == log[..k];
  }

  /** What the server last heard of a node. */
  lemma {:induction false} ServerKnows(log: seq<Status>, k: nat, a: uint16)
    requires k <= |log|
    ensures LastStatus(Sent(log[..k]), a) == Some(true) <==> KnownOnline(log, k, a)
    decreases k
  {
    if k > 0 {
      ServerKnows(log, k - 1, a);
      SentStep(log, k - 1);
      KnownOnlineStep(log, k - 1, a);
      LastStatusOf(Sent(log[..k - 1]), log[k - 1], a);
      assert !log[k - 1].sent ==> Sent(log[..k]) == Sent(log[..k - 1]);
    }
  }

  lemma AppendIff(log: seq<Status>, s: Status)
    ensures OfflineAfterOnline(log + [s])
       <==> OfflineAfterOnline(log) && (s.online || LastStatus(log, s.addr) == Some(true))
  {
    var log' := log + [s];
    assert forall k :: 0 <= k <= |log| ==> log'[..k] == log[..k];
    assert forall k :: 0 <= k < |log| ==> log'[k] == log[k];
    if OfflineAfterOnline(log') {
      assert log'[|log|] == s;
    }
  }

  /** On the server every OFFLINE follows an ONLINE exactly if no OFFLINE was sent while all the
      ONLINE messages since the previous one were dropped for want of an MQTT connection. */
  lemma SentAlternatesIff(log: seq<Status>)
    ensures OfflineAfterOnline(Sent(log)) <==> forall k :: 0 <= k < |log| ==> !OnlinesDropped(log, k)
  {
    SentAlternatesTo(log, |log|);
    assert log[..|log|] == log;
  }

  lemma {:induction false} SentAlternatesTo(log: seq<Status>, n: nat)
    requires n <= |log|
    ensures OfflineAfterOnline(Sent(log[..n])) <==> forall k :: 0 <= k < n ==> !OnlinesDropped(log, k)
    decreases n
  {
    if n > 0 {
      SentAlternatesTo(log, n - 1);
      SentAlternatesStep(log, n - 1);
    }
  }

  lemma SentAlternatesStep(log: seq<Status>, k: nat)
    requires k < |log|
    ensures OfflineAfterOnline(Sent(log[..k + 1])) <==> OfflineAfterOnline(Sent(log[..k])) && !OnlinesDropped(log, k)
  {
    var s, before := log[k], Sent(log[..k]);
    SentStep(log, k);
    ServerKnows(log, k, s.addr);
    if s.sent {
      AppendIff(before, s);
    } else {
      assert Sent(log[..k + 1]) == before;
    }
  }

  predicate NoOnlineDropped(log: seq<Status>) {
    forall k :: 0 <= k < |log| && log[k].online ==> log[k].sent
  }

  /** In particular it holds if the log alternates and no ONLINE is dropped at all. */
  lemma SentAlternates(log: seq<Status>)
    requires OfflineAfterOnline(log) && NoOnlineDropped(log)
    ensures OfflineAfterOnline(Sent(log))
  {
    forall k | 0 <= k < |log| ensures !OnlinesDropped(log, k) {
      if !log[k].online {
        var i := LastMessage(log[..k], log[k].addr);
        assert log[..k][i] == log[i];
        assert forall j :: i < j < k ==> log[j] == log[..k][j];
        assert OnlineSince(log, k, log[k].addr, i);
      }
    }
    SentAlternatesIff(log);
  }

  lemma {:induction false} LastMessage(log: seq<Status>, a: uint16) returns (i: nat)
    requires LastStatus(log, a) == Some(true)
    ensures i < |log| && log[i].addr == a && log[i].online && forall j :: i < j < |log| ==> log[j].addr != a
  {
    if log[|log| - 1].addr == a {
      i := |log| - 1;
    } else {
      i := LastMessage(log[..|log| - 1], a);
    }
  }

  /** Over whole runs: what the server hears alternates exactly if ... */
  lemma ServerAlternatesIff(es: seq<Event>)
    ensures var log := RunFrom(PowerUp(), es).published;
            OfflineAfterOnline(Sent(log)) <==> forall k :: 0 <= k < |log| ==> !OnlinesDropped(log, k)
  {
    SentAlternatesIff(RunFrom(PowerUp(), es).published);
  }

  /** ... and it does in every orderly run in which no ONLINE is dropped. */
  lemma ServerAlternates(es: seq<Event>)
    requires Orderly(PowerUp(), es) && NoOnlineDropped(RunFrom(PowerUp(), es).published)
    ensures OfflineAfterOnline(Sent(RunFrom(PowerUp(), es).published))
  {
    assert UniqueAddrs(Erased());
    RunKeepsInv(PowerUp(), es);
    SentAlternates(RunFrom(PowerUp(), es).published);
  }

  /** A scanner is configured and heard, falls silent, is heard again while MQTT is down, and falls
      silent again. */
  function HeardWhileDown(mac: Bytes): seq<Event> {
    [Provisioned(2, SCAN_UUID, mac), ConfigDone(2), TagStatus(2, true, 1, true),
     PingMark(0, 100_000, true), PingPublish, TagStatus(2, true, 100_001, false),
     PingMark(0, 200_000, true), PingPublish]
  }

  /** That run is orderly, and yet the server hears OFFLINE twice in a row. */
  lemma DroppedOnlineBreaksAlternation(mac: Bytes)
    ensures var es := HeardWhileDown(mac);
            && Orderly(PowerUp(), es)
            && Sent(RunFrom(PowerUp(), es).published)
                 == [Status(2, Scan, true, true), Status(2, Scan, false, true), Status(2, Scan, false, true)]
            && !OfflineAfterOnline(Sent(RunFrom(PowerUp(), es).published))
  {
    var es := HeardWhileDown(mac);
    var c3 := HeardOnce(mac);
    assert es[..3] == ReturningScanner(mac)[..3];
    FirstThreeOrderly(mac);
    var c5 := SilentOnce(mac, c3);
    var c8 := SilentTwice(mac, c5);
    SplitRun(c3, es[3..], 2);
    assert es[3..][..2] == es[3..5] && es[3..][2..] == es[5..];
    SplitRun(PowerUp(), es, 3);
    TwoSentOfflines(c8.published);
  }

  lemma FirstThreeOrderly(mac: Bytes)
    ensures Orderly(PowerUp(), HeardWhileDown(mac)[..3])
  {
    var es := HeardWhileDown(mac)[..3];
    var c1 := After(PowerUp(), es[0]);
    var c2 := After(c1, es[1]);
    RunThrough(es, [PowerUp(), c1, c2, After(c2, es[2])]);
  }

  function SilentCore(mac: Bytes): Core {
    OnceHeard(mac).(nodes := Erased()[0 := Node(true, false, true, true, false, 1, 2, SCAN_UUID, mac)],
                    published := [Status(2, Scan, true, true), Status(2, Scan, false, true)])
  }

  lemma SilentOnce(mac: Bytes, c3: Core) returns (c5: Core)
    requires c3 == OnceHeard(mac)
    ensures c5 == RunFrom(c3, HeardWhileDown(mac)[3..5]) == SilentCore(mac) && Orderly(c3, HeardWhileDown(mac)[3..5])
  {
    var es := HeardWhileDown(mac)[3..5];
    var c4 := After(c3, es[0]);
    c5 := After(c4, es[1]);
    RunThrough(es, [c3, c4, c5]);
  }

  lemma SilentTwice(mac: Bytes, c5: Core) returns (c8: Core)
    requires c5 == SilentCore(mac)
    ensures c8 == RunFrom(c5, HeardWhileDown(mac)[5..]) && Orderly(c5, HeardWhileDown(mac)[5..])
    ensures c8.published == [Status(2, Scan, true, true), Status(2, Scan, false, true),
                             Status(2, Scan, true, false), Status(2, Scan, false, true)]
  {
    var es := HeardWhileDown(mac)[5..];
    LoneEntry(c5.nodes);
    var c6 := After(c5, es[0]);
    var c7 := After(c6, es[1]);
    c8 := After(c7, es[2]);
    RunThrough(es, [c5, c6, c7, c8]);
  }

  lemma TwoSentOfflines(log: seq<Status>)
    requires log == [Status(2, Scan, true, true), Status(2, Scan, false, true),
                     Status(2, Scan, true, false), Status(2, Scan, false, true)]
    ensures Sent(log) == [log[0], log[1], log[3]] && !OfflineAfterOnline(Sent(log))
  {
    assert log[..3][..2] == log[..2] && log[..2][..1] == log[..1] && log[..1][..0] == log[..0];
    assert Sent(log[..1]) == [log[0]] && Sent(log[..2]) == [log[0], log[1]] && Sent(log[..3]) == [log[0], log[1]];
    assert Sent(log) == [log[0], log[1], log[3]];
    assert Sent(log)[..2] == log[..2];
  }
}
