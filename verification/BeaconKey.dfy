/** The gateway's OTA-beacon key: RAM copy, NVS copy, and its rotation. */
module BeaconKey {
  import opened Machine
  import opened NodeTable

  /** A random 16-byte key with the position at which it was generated; keys never repeat. */
  datatype Key = Key(generation: nat, bytes: Bytes)

  datatype Keys = Keys(ram: Option<Key>, nvs: Option<Key>)

  /** One OTA_KEY_PUSH message. */
  datatype Push = Push(addr: uint16, key: Key, sent: bool)

  predicate WantsKey(n: Node) { n.used && n.isScan && n.configDone }

  /** The pushes of one pass over the table: one to each configured scanner, in table order. */
  function PushesOf(nodes: seq<Node>, key: Key, works: uint16 -> bool): (ps: seq<Push>)
    ensures forall p :: p in ps ==> p.key == key && p.sent == works(p.addr)
    ensures forall n :: n in nodes && WantsKey(n) ==> Push(n.addr, key, works(n.addr)) in ps
  {
    if |nodes| == 0 then []
    else
      var ps, n := PushesOf(nodes[..|nodes| - 1], key, works), nodes[|nodes| - 1];
      if WantsKey(n) then ps + [Push(n.addr, key, works(n.addr))] else ps
  }

  /** How many pushes go to an address. */
  function PushesTo(ps: seq<Push>, a: uint16): nat {
    if |ps| == 0 then 0 else PushesTo(ps[..|ps| - 1], a) + if ps[|ps| - 1].addr == a then 1 else 0
  }

  /** The pushes that were sent. */
  function SentOf(ps: seq<Push>): nat {
    if |ps| == 0 then 0 else SentOf(ps[..|ps| - 1]) + if ps[|ps| - 1].sent then 1 else 0
  }

  lemma OneMorePush(ps: seq<Push>, p: Push, a: uint16)
    ensures PushesTo(ps + [p], a) == PushesTo(ps, a) + if p.addr == a then 1 else 0
    ensures SentOf(ps + [p]) == SentOf(ps) + if p.sent then 1 else 0
  {
    assert (ps + [p])[..|ps|] == ps;
  }

  lemma {:induction false} PushesCounted(nodes: seq<Node>, key: Key, works: uint16 -> bool, a: uint16)
    ensures PushesTo(PushesOf(nodes, key, works), a)
         == Entries(nodes, (n: Node) => n.used && n.isScan && n.configDone && n.addr == a)
  {
    if |nodes| > 0 {
      var init, n := nodes[..|nodes| - 1], nodes[|nodes| - 1];
      PushesCounted(init, key, works, a);
      OneMorePush(PushesOf(init, key, works), Push(n.addr, key, works(n.addr)), a);
    }
  }

  /** A pass pushes to an address exactly if some configured scanner has it, and with unique
      addresses exactly once: relays and nodes still being configured get no key. */
  lemma EachScannerIsPushedOnce(nodes: Nodes, key: Key, works: uint16 -> bool, a: uint16)
    ensures PushesTo(PushesOf(nodes, key, works), a) > 0
       <==> exists n :: n in nodes && n.used && n.isScan && n.configDone && n.addr == a
    ensures UniqueAddrs(nodes) ==> PushesTo(PushesOf(nodes, key, works), a) <= 1
  {
    var served := (n: Node) => n.used && n.isScan && n.configDone && n.addr == a;
    PushesCounted(nodes, key, works, a);
    EntriesNone(nodes, served);
    if UniqueAddrs(nodes) { EntriesOfAddress(nodes, served, a); }
  }

  /** The push to one scanner; without a key there is none. */
  function PushTo(ram: Option<Key>, addr: uint16, works: bool): Option<Push> {
    if ram.Some? then Some(Push(addr, ram.value, works)) else None
  }

  /** What a boot makes of the stored key: a stored key is loaded; without one a random key is
      stored first and then imported. */
  function AfterInit(nvs: Option<Key>, random: Key, psaWorks: bool, readWorks: bool, writeWorks: bool, importWorks: bool): Keys {
    if !psaWorks then Keys(None, nvs)
    else if readWorks && nvs.Some? then Keys(if importWorks then nvs else None, nvs)
    else Keys(if importWorks then Some(random) else None, if writeWorks then Some(random) else nvs)
  }

  /** A boot puts a stored key out of flash exactly if it cannot read it and can write: the key it
      then makes up replaces it. Whatever key RAM ends up with is the one in flash, unless that was
      not read and not written. */
  lemma BootReplacesStoredKeyIff(stored: Key, random: Key, psa: bool, read: bool, write: bool, imports: bool)
    requires random != stored
    ensures var after := AfterInit(Some(stored), random, psa, read, write, imports);
            && (after.nvs != Some(stored) <==> psa && !read && write)
            && (after.ram.Some? <==> psa && imports)
            && (after.ram.Some? ==> (after.ram == after.nvs <==> read || write))
  {
  }

  /** A first boot makes up a key, and uses it even if it cannot be stored. */
  lemma FirstBootUsesRandomKey(random: Key, psa: bool, read: bool, write: bool, imports: bool)
    ensures var after := AfterInit(None, random, psa, read, write, imports);
            && after.ram == (if psa && imports then Some(random) else None)
            && after.nvs == (if psa && write then Some(random) else None)
  {
  }

  class KeyStore {
    var ram: Option<Key>
    var nvs: Option<Key>

    ghost function Value(): Keys
      reads this
    {
      Keys(ram, nvs)
    }

    /** Power-up: RAM holds no key, flash whatever it held. */
    constructor (stored: Option<Key>)
      ensures Value() == Keys(None, stored)
    {
      ram, nvs := None, stored;
    }

    method Persist(key: Key, writeWorks: bool)
      modifies `nvs
      ensures nvs == if writeWorks then Some(key) else old(nvs)
    {
      if writeWorks { nvs := Some(key); }
    }

    /** The new key is imported beside the old one, which is only replaced on success. */
    method Import(key: Key, importWorks: bool) returns (ok: bool)
      modifies `ram
      ensures ok == importWorks
      ensures ram == if importWorks then Some(key) else old(ram)
    {
      if !importWorks { return false; }
      ram := Some(key);
      ok := true;
    }

    method Init(random: Key, psaWorks: bool, readWorks: bool, writeWorks: bool, importWorks: bool)
      requires ram == None
      modifies this
      ensures Value() == AfterInit(old(nvs), random, psaWorks, readWorks, writeWorks, importWorks)
    {
      if !psaWorks { return; }
      if readWorks && nvs.Some? {
        var _ := Import(nvs.value, importWorks);
        return;
      }
      Persist(random, writeWorks);
      var _ := Import(random, importWorks);
    }

    /** The loop over the table: RAM's key goes to every configured scanner, whatever fails. */
    method PushToAll(nodes: array<Node>, sendWorks: uint16 -> bool) returns (pushes: seq<Push>, pushed: nat)
      requires nodes.Length == MAX_NODES && ram.Some?
      ensures pushes == PushesOf(nodes[..], ram.value, sendWorks) && pushed == SentOf(pushes)
    {
      pushes, pushed := [], 0;
      for i := 0 to MAX_NODES
        invariant pushes == PushesOf(nodes[..i], ram.value, sendWorks) && pushed == SentOf(pushes)
      {
        assert nodes[..i + 1][..i] == nodes[..i];
        var n := nodes[i];
        if !n.used || !n.isScan || !n.configDone { continue; }
        var push := Push(n.addr, ram.value, sendWorks(n.addr));
        OneMorePush(pushes, push, 0);
        pushes := pushes + [push];
        if sendWorks(n.addr) { pushed := pushed + 1; }
      }
      assert nodes[..MAX_NODES] == nodes[..];
    }

    /** An undisturbed rotation. A failed import changes neither RAM nor flash and pushes
        nothing; otherwise every configured scanner is sent the new key, whatever fails. */
    method RotateAndPush(key: Key, nodes: array<Node>, importWorks: bool, writeWorks: bool, sendWorks: uint16 -> bool)
      returns (pushes: seq<Push>, pushed: nat)
      requires nodes.Length == MAX_NODES
      modifies this
      ensures !importWorks ==> Value() == old(Value()) && pushes == []
      ensures importWorks ==>
        && Value() == Keys(Some(key), if writeWorks then Some(key) else old(nvs))
        && pushes == PushesOf(nodes[..], key, sendWorks)
      ensures pushed == SentOf(pushes)
    {
      var imported := Import(key, importWorks);
      if !imported { return [], 0; }
      Persist(key, writeWorks);
      pushes, pushed := PushToAll(nodes, sendWorks);
    }

    /** The push to a freshly configured scanner. */
    method PushToNode(addr: uint16, sendWorks: bool) returns (push: Option<Push>)
      ensures push == PushTo(ram, addr, sendWorks)
    {
      if ram.None? { return None; }
      push := Some(Push(addr, ram.value, sendWorks));
    }
  }
}
