/** The gateway's table of provisioned nodes, in RAM and as the blob saved in NVS. */
module NodeTable {
  import opened Machine
  import opened SlotTable

  const MAX_NODES := 10

  datatype Node = Node(
    used: bool, isRelay: bool, isScan: bool, configDone: bool, online: bool,
    lastSeenMs: uint32, addr: uint16, uuid: Bytes, mac: Bytes)
  {
    /** Nodes the gateway configures and pings. */
    predicate Managed() { used && (isScan || isRelay) }
    predicate Configured() { Managed() && configDone }
  }

  const BLANK := Node(false, false, false, false, false, 0, 0, [], [])

  type Nodes = ns: seq<Node> | |ns| == MAX_NODES
    witness [BLANK, BLANK, BLANK, BLANK, BLANK, BLANK, BLANK, BLANK, BLANK, BLANK]

  function Addrs(nodes: Nodes): Column<uint16> {
    seq(MAX_NODES, i requires 0 <= i < MAX_NODES => if nodes[i].used then Some(nodes[i].addr) else None)
  }

  function Find(nodes: Nodes, addr: uint16): (r: int)
    ensures -1 <= r < MAX_NODES
    ensures r >= 0 ==> nodes[r].used && nodes[r].addr == addr
  {
    var r := IndexOf(Addrs(nodes), Some(addr));
    assert r >= 0 ==> Addrs(nodes)[r] == if nodes[r].used then Some(nodes[r].addr) else None;
    r
  }

  /** The index an added node ends up at, and the table with it. */
  function PlaceFor(nodes: Nodes, addr: uint16): int {
    var i := Find(nodes, addr);
    if i >= 0 then i else IndexOf(Addrs(nodes), None)
  }

  function Added(nodes: Nodes, addr: uint16, uuid: Bytes, mac: Bytes): Nodes {
    var p := PlaceFor(nodes, addr);
    if p < 0 then nodes
    else if nodes[p].used then nodes[p := nodes[p].(uuid := uuid, mac := mac)]
    else nodes[p := BLANK.(used := true, addr := addr, uuid := uuid, mac := mac)]
  }

  /** What a boot makes of a saved blob: no managed node counts as online. */
  function Loaded(blob: Nodes): Nodes {
    seq(MAX_NODES, i requires 0 <= i < MAX_NODES =>
      if blob[i].Managed() then blob[i].(online := false, lastSeenMs := 0) else blob[i])
  }

  function Erased(): Nodes { seq(MAX_NODES, _ => BLANK) }

  class Table {
    const nodes: array<Node>
    var nvs: Option<Nodes>

    ghost predicate Valid() { nodes.Length == MAX_NODES }

    constructor ()
      ensures Valid() && fresh(nodes) && nodes[..] == Erased() && nvs == None
    {
      nodes := new Node[MAX_NODES](_ => BLANK);
      nvs := None;
    }

    method FindAddr(addr: uint16) returns (r: int)
      requires Valid()
      ensures r == Find(nodes[..], addr)
    {
      ghost var ids := Addrs(nodes[..]);
      for i := 0 to MAX_NODES
        invariant forall j :: 0 <= j < i ==> ids[j] != Some(addr)
      {
        IndexOfIs(ids, Some(addr), i);
        if nodes[i].used && nodes[i].addr == addr { return i; }
      }
      IndexOfIs(ids, Some(addr), MAX_NODES);
      r := -1;
    }

    method Add(addr: uint16, uuid: Bytes, mac: Bytes) returns (idx: int)
      requires Valid()
      modifies nodes
      ensures nodes[..] == Added(old(nodes[..]), addr, uuid, mac)
      ensures idx == PlaceFor(old(nodes[..]), addr)
    {
      idx := FindAddr(addr);
      if idx >= 0 {
        nodes[idx] := nodes[idx].(uuid := uuid);
        nodes[idx] := nodes[idx].(mac := mac);
        return;
      }
      ghost var ids := Addrs(nodes[..]);
      for i := 0 to MAX_NODES
        invariant forall j :: 0 <= j < i ==> ids[j] != None
        invariant nodes[..] == old(nodes[..])
      {
        IndexOfIs(ids, None, i);
        if !nodes[i].used {
          nodes[i] := BLANK;
          nodes[i] := nodes[i].(used := true);
          nodes[i] := nodes[i].(addr := addr, uuid := uuid, mac := mac);
          return i;
        }
      }
      IndexOfIs(ids, None, MAX_NODES);
      idx := -1;
    }

    /** A failed write leaves the previous blob. */
    method Save(writeWorks: bool)
      requires Valid()
      modifies `nvs
      ensures nvs == if writeWorks then Some(nodes[..]) else old(nvs)
    {
      if writeWorks { nvs := Some(nodes[..]); }
    }

    method Load(readWorks: bool)
      requires Valid()
      modifies nodes
      ensures nodes[..] == if readWorks && nvs.Some? then Loaded(nvs.value) else old(nodes[..])
    {
      if nvs.None? || !readWorks { return; }
      ghost var blob := nvs.value;
      for i := 0 to MAX_NODES
        invariant forall j :: 0 <= j < i ==> nodes[j] == blob[j]
        invariant forall j :: i <= j < MAX_NODES ==> nodes[j] == old(nodes[j])
      {
        nodes[i] := nvs.value[i];
      }
      for i := 0 to MAX_NODES
        invariant forall j :: 0 <= j < i ==> nodes[j] == Loaded(blob)[j]
        invariant forall j :: i <= j < MAX_NODES ==> nodes[j] == blob[j]
      {
        if !nodes[i].used { continue; }
        if nodes[i].isRelay || nodes[i].isScan {
          nodes[i] := nodes[i].(online := false);
          nodes[i] := nodes[i].(lastSeenMs := 0);
        }
      }
    }

    method Clear(eraseWorks: bool)
      requires Valid()
      modifies nodes, `nvs
      ensures nodes[..] == Erased() && nvs == if eraseWorks then None else old(nvs)
    {
      if eraseWorks { nvs := None; }
      for i := 0 to MAX_NODES
        invariant forall j :: 0 <= j < i ==> nodes[j] == BLANK
        invariant nvs == if eraseWorks then None else old(nvs)
      {
        nodes[i] := BLANK;
      }
    }
  }

  // ----- the table as a map from address to node -----

  ghost predicate UniqueAddrs(nodes: Nodes) { Unique(Addrs(nodes)) }

  /** The table read as a partial map. */
  function Lookup(nodes: Nodes, addr: uint16): Option<Node> {
    var i := Find(nodes, addr);
    if i >= 0 then Some(nodes[i]) else None
  }

  lemma FindPlaces(nodes: Nodes, i: nat)
    requires UniqueAddrs(nodes) && i < MAX_NODES && nodes[i].used
    ensures Find(nodes, nodes[i].addr) == i
  {
    IndexOfUnique(Addrs(nodes), i);
  }

  /** How many entries satisfy a condition. */
  function Entries(nodes: seq<Node>, p: Node -> bool): nat {
    if |nodes| == 0 then 0 else Entries(nodes[..|nodes| - 1], p) + if p(nodes[|nodes| - 1]) then 1 else 0
  }

  lemma {:induction false} EntriesNone(nodes: seq<Node>, p: Node -> bool)
    ensures Entries(nodes, p) == 0 <==> forall n :: n in nodes ==> !p(n)
  {
    if |nodes| > 0 {
      EntriesNone(nodes[..|nodes| - 1], p);
      assert nodes == nodes[..|nodes| - 1] + [nodes[|nodes| - 1]];
    }
  }

  /** With unique addresses at most one entry can satisfy a condition on an address in use. */
  lemma EntriesOfAddress(nodes: Nodes, p: Node -> bool, a: uint16)
    requires UniqueAddrs(nodes) && forall n :: p(n) ==> n.used && n.addr == a
    ensures Entries(nodes, p) == if exists n :: n in nodes && p(n) then 1 else 0
  {
    assert nodes[..MAX_NODES] == nodes;
    EntriesTo(nodes, MAX_NODES, p, a);
  }

  lemma {:induction false} EntriesTo(nodes: Nodes, k: nat, p: Node -> bool, a: uint16)
    requires UniqueAddrs(nodes) && k <= MAX_NODES && forall n :: p(n) ==> n.used && n.addr == a
    ensures Entries(nodes[..k], p) == if exists n :: n in nodes[..k] && p(n) then 1 else 0
  {
    EntriesNone(nodes[..k], p);
    if k > 0 {
      EntriesTo(nodes, k - 1, p, a);
      EntriesNone(nodes[..k - 1], p);
      assert nodes[..k][..k - 1] == nodes[..k - 1];
      if p(nodes[k - 1]) {
        forall n | n in nodes[..k - 1] ensures !p(n) {
          var j :| 0 <= j < k - 1 && nodes[j] == n;
          assert Addrs(nodes)[j] != Addrs(nodes)[k - 1] || Addrs(nodes)[j].None?;
        }
      }
    }
  }

  lemma AddKeepsUnique(nodes: Nodes, addr: uint16, uuid: Bytes, mac: Bytes)
    requires UniqueAddrs(nodes)
    ensures UniqueAddrs(Added(nodes, addr, uuid, mac))
    ensures Addrs(Added(nodes, addr, uuid, mac)) == Claim(Addrs(nodes), addr)
  {
    var ids, p := Addrs(nodes), PlaceFor(nodes, addr);
    assert Addrs(Added(nodes, addr, uuid, mac)) == Claim(ids, addr);
    if Find(nodes, addr) < 0 && p >= 0 { PutNew(ids, p, addr); }
  }

  /** Adding a node is a map update at its address that only a full table of other addresses
      refuses. */
  lemma AddIsMapUpdate(nodes: Nodes, addr: uint16, uuid: Bytes, mac: Bytes, a: uint16)
    requires UniqueAddrs(nodes)
    ensures PlaceFor(nodes, addr) < 0 <==> Lookup(nodes, addr).None? && |Keys(Addrs(nodes))| == MAX_NODES
    ensures Lookup(Added(nodes, addr, uuid, mac), a)
         == if a != addr || PlaceFor(nodes, addr) < 0 then Lookup(nodes, a)
            else match Lookup(nodes, a)
                 case Some(n) => Some(n.(uuid := uuid, mac := mac))
                 case None => Some(BLANK.(used := true, addr := addr, uuid := uuid, mac := mac))
  {
    FullIffAllUsed(Addrs(nodes));
    AddKeepsUnique(nodes, addr, uuid, mac);
    ClaimPlaces(Addrs(nodes), addr, a);
  }

  lemma FindAfterDelete(nodes: Nodes, i: nat, a: uint16)
    requires UniqueAddrs(nodes) && i < MAX_NODES && nodes[i].used
    ensures Find(nodes[i := BLANK], a) == if a == nodes[i].addr then -1 else Find(nodes, a)
  {
    var ids' := Addrs(nodes[i := BLANK]);
    assert ids' == Addrs(nodes)[i := None];
    FindPlaces(nodes, i);
    if a != nodes[i].addr && Find(nodes, a) >= 0 {
      IndexOfIs(ids', Some(a), Find(nodes, a));
    }
    if a == nodes[i].addr {
      assert forall j :: 0 <= j < MAX_NODES && j != i ==> Addrs(nodes)[j] != Addrs(nodes)[i];
    }
  }

  /** Zeroing an entry removes its address from the map and touches no other. */
  lemma DeleteIsMapRemove(nodes: Nodes, i: nat, a: uint16)
    requires UniqueAddrs(nodes) && i < MAX_NODES && nodes[i].used
    ensures UniqueAddrs(nodes[i := BLANK])
    ensures Lookup(nodes[i := BLANK], a) == if a == nodes[i].addr then None else Lookup(nodes, a)
  {
    SubColumn(Addrs(nodes), Addrs(nodes[i := BLANK]));
    FindAfterDelete(nodes, i, a);
  }

  // ----- whole histories, across reboots -----

  datatype Event =
    | AddNode(addr: uint16, uuid: Bytes, mac: Bytes)
    | Delete(i: nat)
    | Change(i: nat, node: Node)
    | SaveBlob(writeWorks: bool)
    | Reboot(readWorks: bool)
    | Wipe(eraseWorks: bool)

  datatype Memory = Memory(ram: Nodes, nvs: Option<Nodes>)

  /** RAM is zero at power-up, then the blob is loaded. `Change` stands for any update of an
      entry's flags or contents that keeps it in use under its address. */
  function After(m: Memory, e: Event): Memory {
    match e
    case AddNode(addr, uuid, mac) => m.(ram := Added(m.ram, addr, uuid, mac))
    case Delete(i) => if i < MAX_NODES then m.(ram := m.ram[i := BLANK]) else m
    case Change(i, n) =>
      if i < MAX_NODES && n.used == m.ram[i].used && n.addr == m.ram[i].addr then m.(ram := m.ram[i := n]) else m
    case SaveBlob(works) => if works then m.(nvs := Some(m.ram)) else m
    case Reboot(works) => m.(ram := if works && m.nvs.Some? then Loaded(m.nvs.value) else Erased())
    case Wipe(works) => Memory(Erased(), if works then None else m.nvs)
  }

  function Run(es: seq<Event>): Memory {
    if es == [] then Memory(Erased(), None) else After(Run(es[..|es| - 1]), es[|es| - 1])
  }

  /** In every history no two used entries share an address, in RAM or in the saved blob. */
  lemma {:induction false} AddressesStayUnique(es: seq<Event>)
    ensures UniqueAddrs(Run(es).ram)
    ensures Run(es).nvs.Some? ==> UniqueAddrs(Run(es).nvs.value)
  {
    if es != [] {
      AddressesStayUnique(es[..|es| - 1]);
      var m, e := Run(es[..|es| - 1]), es[|es| - 1];
      match e {
        case AddNode(addr, uuid, mac) => AddKeepsUnique(m.ram, addr, uuid, mac);
        case Delete(i) => if i < MAX_NODES { SubColumn(Addrs(m.ram), Addrs(m.ram[i := BLANK])); }
        case Change(i, n) =>
          if i < MAX_NODES && n.used == m.ram[i].used && n.addr == m.ram[i].addr {
            assert Addrs(m.ram[i := n]) == Addrs(m.ram);
          }
        case Reboot(works) =>
          if works && m.nvs.Some? { assert Addrs(Loaded(m.nvs.value)) == Addrs(m.nvs.value); }
        case _ =>
      }
    }
  }

  /** The table at the last save that worked, unless it was wiped since. */
  function LastSaved(es: seq<Event>): Option<Nodes> {
    if es == [] then None
    else
      var init := es[..|es| - 1];
      match es[|es| - 1]
      case SaveBlob(works) => if works then Some(Run(init).ram) else LastSaved(init)
      case Wipe(works) => if works then None else LastSaved(init)
      case _ => LastSaved(init)
  }

  lemma {:induction false} FlashHoldsLastSave(es: seq<Event>)
    ensures Run(es).nvs == LastSaved(es)
  {
    if es != [] { FlashHoldsLastSave(es[..|es| - 1]); }
  }

  /** After any history a reboot brings back exactly the nodes of the last save that worked, those
      the gateway manages as offline. */
  lemma RebootRestoresLastSave(es: seq<Event>, addr: uint16)
    ensures var nodes, saved := Run(es + [Reboot(true)]).ram, LastSaved(es);
            Lookup(nodes, addr)
              == if saved.None? || Lookup(saved.value, addr).None? then None
                 else var n := Lookup(saved.value, addr).value;
                      Some(if n.Managed() then n.(online := false, lastSeenMs := 0) else n)
  {
    var es' := es + [Reboot(true)];
    assert es'[..|es|] == es;
    FlashHoldsLastSave(es);
    var nodes := Run(es').ram;
    if LastSaved(es).Some? {
      assert nodes == Loaded(LastSaved(es).value);
      assert Addrs(nodes) == Addrs(LastSaved(es).value);
    } else {
      assert Addrs(nodes)[0] == None;
      IndexOfIs(Addrs(nodes), Some(addr), MAX_NODES);
    }
  }
}
