/** The gateway's mesh callbacks: what each does to the node table, the wait slot, the
    reception counter and the status messages published for a node. Each is one atomic step. */
module MeshControl {
  import opened Machine
  import opened NodeTable

  const OFFLINE_TIMEOUT_MS := 60000
  const STATUS_REFRESH_MS := 30000

  /** Opcodes of the Configuration Model, section 4.3.4.1 of the Mesh Profile 1.0.1. APP_KEY_ADD
      is zero, the value the wait slot also holds when nobody waits. */
  const APP_KEY_ADD := 0x00
  const DEFAULT_TTL_GET := 0x800C
  const MODEL_APP_BIND := 0x803D

  datatype Role = Scan | Relay

  /** A status message for a node; `sent` is false when MQTT was down and it was dropped. */
  datatype Status = Status(addr: uint16, role: Role, online: bool, sent: bool)

  datatype CfgEvent = SetState | GetState | Timeout

  /** A callback of the configuration client. */
  datatype CfgMsg = CfgMsg(event: CfgEvent, addr: uint16, op: nat, err: int, now: uint32, mqtt: bool)

  /** `goingOffline` is the offline message the ping task has decided on but not yet published. */
  datatype Core = Core(
    nodes: Nodes, waitAddr: uint16, waitOp: nat, ackBit: bool, received: uint32,
    published: seq<Status>, goingOffline: Option<Status>)

  function RoleOf(n: Node): Role { if n.isScan then Scan else Relay }

  predicate IsRelayUuid(uuid: Bytes) { [0x52, 0x45, 0x4C, 0x41, 0x59] <= uuid }
  predicate IsScanUuid(uuid: Bytes) { [0x53, 0x43, 0x41, 0x4E] <= uuid }

  /** An error-free callback for what the slot holds. */
  predicate FillsSlot(c: Core, m: CfgMsg) {
    !m.event.Timeout? && m.err == 0 && m.addr == c.waitAddr && m.op == c.waitOp
  }

  function AfterCfg(c: Core, m: CfgMsg): Core {
    var i := Find(c.nodes, m.addr);
    var c1 := if FillsSlot(c, m) then c.(ackBit := true) else c;
    match m.event
    case Timeout => c1
    case SetState =>
      if m.op == MODEL_APP_BIND && m.err == 0 && i >= 0 then
        c1.(published := c.published
              + (if c.nodes[i].isScan then [Status(m.addr, Scan, true, m.mqtt)] else [])
              + (if c.nodes[i].isRelay then [Status(m.addr, Relay, true, m.mqtt)] else []))
      else c1
    case GetState =>
      if m.err == 0 && i >= 0 && c.nodes[i].Configured() then
        c1.(nodes := c.nodes[i := c.nodes[i].(lastSeenMs := m.now, online := true)],
            received := U32(c.received + 1),
            published := c.published + if c.nodes[i].online then []
                                       else [Status(m.addr, RoleOf(c.nodes[i]), true, m.mqtt)])
      else c1
  }

  /** A tag report from `src`; too short a one is dropped. */
  function AfterTagStatus(c: Core, src: uint16, longEnough: bool, now: uint32, mqtt: bool): Core {
    if !longEnough then c
    else
      var i := Find(c.nodes, src);
      var c1 := c.(received := U32(c.received + 1));
      if i >= 0 && c.nodes[i].isScan
         && (c.nodes[i].lastSeenMs == 0 || U32(now - c.nodes[i].lastSeenMs) > STATUS_REFRESH_MS) then
        c1.(nodes := c.nodes[i := c.nodes[i].(lastSeenMs := now, online := true)],
            published := c.published + [Status(src, Scan, true, mqtt)])
      else c1
  }

  /** The ping task finds entry `i` silent and marks it offline ... */
  function AfterPingMark(c: Core, i: nat, now: uint32, mqtt: bool): Core
    requires i < MAX_NODES
  {
    var n := c.nodes[i];
    if n.lastSeenMs > 0 && U32(now - n.lastSeenMs) > OFFLINE_TIMEOUT_MS && n.online then
      c.(nodes := c.nodes[i := n.(online := false)],
         goingOffline := Some(Status(n.addr, RoleOf(n), false, mqtt)))
    else c
  }

  /** ... and then publishes that. */
  function AfterPingPublish(c: Core): Core {
    match c.goingOffline
    case Some(s) => c.(published := c.published + [s], goingOffline := None)
    case None => c
  }

  function AfterAbort(c: Core, addr: uint16): Core {
    var i := Find(c.nodes, addr);
    if i >= 0 then c.(nodes := c.nodes[i := BLANK]) else c
  }

  function FindUuid(nodes: seq<Node>, uuid: Bytes): (r: int)
    ensures -1 <= r < |nodes|
    ensures r >= 0 ==> nodes[r].used && nodes[r].uuid == uuid
    ensures forall j :: 0 <= j < (if r < 0 then |nodes| else r) ==> !(nodes[j].used && nodes[j].uuid == uuid)
  {
    if |nodes| == 0 then -1
    else if nodes[0].used && nodes[0].uuid == uuid then 0
    else
      var r := FindUuid(nodes[1..], uuid);
      assert forall j :: 1 <= j < |nodes| ==> nodes[j] == nodes[1..][j - 1];
      if r < 0 then -1 else r + 1
  }

  /** An unprovisioned beacon in automatic mode deletes the configured entry of its UUID. */
  function AfterBeacon(c: Core, uuid: Bytes): Core {
    var i := FindUuid(c.nodes, uuid);
    if i >= 0 && c.nodes[i].configDone then c.(nodes := c.nodes[i := BLANK]) else c
  }

  /** It is then provisioned, unless its UUID is still being configured. */
  predicate Reprovisions(c: Core, uuid: Bytes) {
    var i := FindUuid(c.nodes, uuid); i < 0 || c.nodes[i].configDone
  }

  /** Provisioning finished: the entry is added and marked as being configured. */
  function AfterProvisioned(c: Core, addr: uint16, uuid: Bytes, mac: Bytes): Core {
    var i := PlaceFor(c.nodes, addr);
    var nodes := Added(c.nodes, addr, uuid, mac);
    if i < 0 then c
    else if IsRelayUuid(uuid) || IsScanUuid(uuid) then
      c.(nodes := nodes[i := nodes[i].(isRelay := IsRelayUuid(uuid),
                                       isScan := !IsRelayUuid(uuid) && IsScanUuid(uuid), configDone := false)])
    else c.(nodes := nodes)
  }

  /** Whether a configuration task is then launched. */
  predicate Launches(c: Core, addr: uint16, uuid: Bytes) {
    PlaceFor(c.nodes, addr) >= 0 && (IsRelayUuid(uuid) || IsScanUuid(uuid))
  }

  function AfterConfigDone(c: Core, addr: uint16): Core {
    var i := Find(c.nodes, addr);
    if i >= 0 then c.(nodes := c.nodes[i := c.nodes[i].(configDone := true)]) else c
  }

  class Gateway {
    const table: Table
    var waitAddr: uint16
    var waitOp: nat
    var ackBit: bool
    var received: uint32
    var published: seq<Status>
    var goingOffline: Option<Status>

    ghost predicate Valid()
    {
      table.Valid()
    }

    ghost function Value(): Core
      reads this, table.nodes
      requires Valid()
    {
      Core(table.nodes[..], waitAddr, waitOp, ackBit, received, published, goingOffline)
    }

    constructor ()
      ensures Valid() && fresh(table) && fresh(table.nodes)
      ensures Value() == Core(Erased(), 0, 0, false, 0, [], None)
    {
      table := new Table();
      waitAddr, waitOp, ackBit, received, published, goingOffline := 0, 0, false, 0, [], None;
    }

    method PublishStatus(addr: uint16, role: Role, online: bool, mqtt: bool)
      modifies `published
      ensures published == old(published) + [Status(addr, role, online, mqtt)]
    {
      published := published + [Status(addr, role, online, mqtt)];
    }

    method NoteAck(m: CfgMsg)
      requires m.event != Timeout
      modifies `ackBit
      ensures ackBit == (old(ackBit) || (m.err == 0 && m.addr == waitAddr && m.op == waitOp))
    {
      if m.err == 0 && m.addr == waitAddr && m.op == waitOp { ackBit := true; }
    }

    method CfgClientCb(m: CfgMsg)
      requires Valid()
      modifies this, table.nodes
      ensures Value() == AfterCfg(old(Value()), m)
    {
      var idx := table.FindAddr(m.addr);
      var n := if idx >= 0 then table.nodes[idx] else BLANK;
      if m.event == SetState {
        NoteAck(m);
        if m.op == MODEL_APP_BIND && m.err == 0 {
          if idx >= 0 && n.isScan { PublishStatus(m.addr, Scan, true, m.mqtt); }
          if idx >= 0 && n.isRelay { PublishStatus(m.addr, Relay, true, m.mqtt); }
        }
      } else if m.event == GetState {
        NoteAck(m);
        if m.err != 0 { return; }
        if idx >= 0 && n.configDone && (n.isScan || n.isRelay) {
          received := U32(received + 1);
          table.nodes[idx] := n.(lastSeenMs := m.now, online := true);
          if !n.online { PublishStatus(m.addr, RoleOf(n), true, m.mqtt); }
        }
      }
    }

    method TagStatusCb(src: uint16, len: nat, now: uint32, mqtt: bool)
      requires Valid()
      modifies this, table.nodes
      ensures Value() == AfterTagStatus(old(Value()), src, len >= 8, now, mqtt)
    {
      if len < 8 { return; }
      received := U32(received + 1);
      var idx := table.FindAddr(src);
      if idx >= 0 && table.nodes[idx].isScan {
        var due := table.nodes[idx].lastSeenMs == 0 || U32(now - table.nodes[idx].lastSeenMs) > STATUS_REFRESH_MS;
        if due {
          table.nodes[idx] := table.nodes[idx].(lastSeenMs := now);
          table.nodes[idx] := table.nodes[idx].(online := true);
          PublishStatus(src, Scan, true, mqtt);
        }
      }
    }

    method PingMark(i: nat, now: uint32, mqtt: bool)
      requires Valid() && i < MAX_NODES
      modifies `goingOffline, table.nodes
      ensures Value() == AfterPingMark(old(Value()), i, now, mqtt)
    {
      var n := table.nodes[i];
      if n.lastSeenMs > 0 && U32(now - n.lastSeenMs) > OFFLINE_TIMEOUT_MS {
        if n.online {
          table.nodes[i] := n.(online := false);
          goingOffline := Some(Status(n.addr, RoleOf(n), false, mqtt));
        }
      }
    }

    method AbortCleanup(addr: uint16, saveWorks: bool)
      requires Valid()
      modifies table.nodes, table`nvs
      ensures Value() == AfterAbort(old(Value()), addr)
    {
      var idx := table.FindAddr(addr);
      if idx >= 0 {
        table.nodes[idx] := BLANK;
        table.Save(saveWorks);
      }
    }

    /** The automatic-mode part of the beacon callback; `add` is whether the device is handed
        to the provisioner. */
    method BeaconCb(uuid: Bytes, saveWorks: bool) returns (add: bool)
      requires Valid()
      modifies table.nodes, table`nvs
      ensures Value() == AfterBeacon(old(Value()), uuid)
      ensures add == Reprovisions(old(Value()), uuid)
    {
      var stale := -1;
      for i := 0 to MAX_NODES
        invariant stale == -1
        invariant forall j :: 0 <= j < i ==> !(table.nodes[j].used && table.nodes[j].uuid == uuid)
        invariant table.nodes[..] == old(table.nodes[..])
      {
        if table.nodes[i].used && table.nodes[i].uuid == uuid {
          stale := i;
          break;
        }
      }
      FindUuidIs(table.nodes[..], uuid, if stale < 0 then MAX_NODES else stale);
      if stale >= 0 {
        if !table.nodes[stale].configDone { return false; }
        table.nodes[stale] := BLANK;
        table.Save(saveWorks);
      }
      add := true;
    }

    /** `mac` is what the MAC cache holds for the UUID, or zeros. */
    method ProvisionedCb(addr: uint16, uuid: Bytes, mac: Bytes, saveWorks: bool) returns (launch: bool)
      requires Valid()
      modifies table.nodes, table`nvs
      ensures Value() == AfterProvisioned(old(Value()), addr, uuid, mac)
      ensures launch == Launches(old(Value()), addr, uuid)
    {
      var idx := table.Add(addr, uuid, mac);
      if idx < 0 { return false; }
      var isRelay := IsRelayUuid(uuid);
      var isScan := !isRelay && IsScanUuid(uuid);
      if isRelay || isScan {
        table.nodes[idx] := table.nodes[idx].(isRelay := isRelay, isScan := isScan);
        table.nodes[idx] := table.nodes[idx].(configDone := false);
        table.Save(saveWorks);
        return true;
      }
      table.Save(saveWorks);
      launch := false;
    }

    method MarkConfigDone(addr: uint16, saveWorks: bool)
      requires Valid()
      modifies table.nodes, table`nvs
      ensures Value() == AfterConfigDone(old(Value()), addr)
    {
      var idx := table.FindAddr(addr);
      if idx >= 0 {
        table.nodes[idx] := table.nodes[idx].(configDone := true);
        table.Save(saveWorks);
      }
    }
  }

  lemma FindUuidIs(nodes: seq<Node>, uuid: Bytes, i: nat)
    requires i <= |nodes| && forall j :: 0 <= j < i ==> !(nodes[j].used && nodes[j].uuid == uuid)
    ensures i < |nodes| && nodes[i].used && nodes[i].uuid == uuid ==> FindUuid(nodes, uuid) == i
    ensures i == |nodes| ==> FindUuid(nodes, uuid) == -1
  {
  }
}
