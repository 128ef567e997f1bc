/** Rotations of the OTA-beacon key interleaved with configuration tasks, provisioning and
    deletion of nodes, failing sends and crashes. Sends that succeed arrive in order. */
module KeyRotation {
  import opened Machine
  import opened NodeTable
  import opened BeaconKey

  /** Where the rotation task is. `AwaitPersist` is the gap between import and flash write. */
  datatype Phase = Idle | AwaitPersist | Pushing(i: nat)

  /** `awaiting` is the scanner whose configuration task has set `config_done` but not yet pushed
      the key; `last` is the last key sent to an address, `missed` the addresses whose last push
      failed. `gap` observes the addresses whose last key was sent inside a gap that no flash
      write has closed since, `recent` those sent a key in the current gap, and `held` those last
      sent the key that flash holds. */
  datatype State = State(
    keys: Keys, generated: nat, phase: Phase, nodes: Nodes, awaiting: Option<uint16>,
    last: map<uint16, Key>, missed: set<uint16>, gap: set<uint16>, recent: set<uint16>, held: set<uint16>)

  datatype Event =
    | Rotate(bytes: Bytes, importWorks: bool)
    | PersistNew(writeWorks: bool)
    | PushNext(sendWorks: bool)
    | Configured(i: nat, addr: uint16)
    | ConfigPush(sendWorks: bool)
    | Provision(i: nat, n: Node)
    | Forget(i: nat)
    | Crash(nodes: Nodes, bytes: Bytes, writeWorks: bool, importWorks: bool)

  predicate Enabled(s: State, e: Event) {
    match e
    case Rotate(_, _) => s.phase.Idle?
    case PersistNew(_) => s.phase.AwaitPersist? && s.keys.ram.Some?
    case PushNext(_) => s.phase.Pushing? && s.phase.i <= MAX_NODES && s.keys.ram.Some?
    case Configured(i, addr) =>
      i < MAX_NODES && s.nodes[i].used && s.nodes[i].isScan && s.nodes[i].addr == addr && s.awaiting.None?
    case ConfigPush(_) => s.awaiting.Some?
    case Provision(i, n) =>
      i < MAX_NODES && !s.nodes[i].used && n.used && !n.configDone
      && forall j :: 0 <= j < MAX_NODES && s.nodes[j].used ==> s.nodes[j].addr != n.addr
    case Forget(i) => i < MAX_NODES
    case Crash(_, _, _, _) => true
  }

  /** One push: a success replaces what the scanner last got. */
  function Sent(s: State, p: Push): State {
    if !p.sent then s.(missed := s.missed + {p.addr})
    else
      var s' := s.(last := s.last[p.addr := p.key], missed := s.missed - {p.addr});
      if s.phase.AwaitPersist? then
        s'.(gap := s.gap + {p.addr}, recent := s.recent + {p.addr}, held := s.held - {p.addr})
      else s'.(gap := s.gap - {p.addr}, held := s.held + {p.addr})
  }

  /** A freshly provisioned device has been sent nothing. */
  function Unsent(s: State, a: uint16): State {
    s.(last := s.last - {a}, missed := s.missed - {a}, gap := s.gap - {a}, recent := s.recent - {a}, held := s.held - {a})
  }

  function After(s: State, e: Event): State
    requires Enabled(s, e)
  {
    match e
    case Rotate(bytes, works) =>
      if works then s.(keys := s.keys.(ram := Some(Key(s.generated, bytes))), generated := s.generated + 1,
                       phase := AwaitPersist, recent := {})
      else s.(generated := s.generated + 1)
    case PersistNew(works) =>
      if works then s.(keys := s.keys.(nvs := s.keys.ram), phase := Pushing(0), gap := {}, held := s.recent)
      else s.(phase := Pushing(0))
    case PushNext(works) =>
      var i := s.phase.i;
      if i == MAX_NODES then s.(phase := Idle)
      else
        var n, s' := s.nodes[i], s.(phase := Pushing(i + 1));
        if WantsKey(n) then Sent(s', Push(n.addr, s.keys.ram.value, works)) else s'
    case Configured(i, addr) => s.(nodes := s.nodes[i := s.nodes[i].(configDone := true)], awaiting := Some(addr))
    case ConfigPush(works) =>
      var s' := s.(awaiting := None);
      (match PushTo(s.keys.ram, s.awaiting.value, works)
       case Some(push) => Sent(s', push)
       case None => s')
    case Provision(i, n) => Unsent(s, n.addr).(nodes := s.nodes[i := n])
    case Forget(i) => s.(nodes := s.nodes[i := BLANK])
    case Crash(nodes, bytes, write, imports) =>
      State(AfterInit(s.keys.nvs, Key(s.generated, bytes), true, true, write, imports), s.generated + 1,
            Idle, nodes, None, s.last, s.missed, s.gap, s.recent, s.held)
  }

  ghost predicate Legal(s: State, es: seq<Event>)
    decreases |es|
  {
    es == [] || (Enabled(s, es[0]) && Legal(After(s, es[0]), es[1..]))
  }

  ghost function RunFrom(s: State, es: seq<Event>): State
    requires Legal(s, es)
    decreases |es|
  {
    if es == [] then s else RunFrom(After(s, es[0]), es[1..])
  }

  // ----- only configured scanners are sent a key -----

  predicate ScannerAt(nodes: Nodes, a: uint16) {
    exists i :: 0 <= i < MAX_NODES && nodes[i].used && nodes[i].isScan && nodes[i].configDone && nodes[i].addr == a
  }

  /** In no state of the run a configured scanner has the address. */
  ghost predicate NeverScanner(s: State, es: seq<Event>, a: uint16)
    requires Legal(s, es)
    decreases |es|
  {
    !ScannerAt(s.nodes, a) && (es != [] ==> NeverScanner(After(s, es[0]), es[1..], a))
  }

  /** In every run, with crashes anywhere, an address that has never been that of a configured scanner
      is sent no key, and none was tried: not a relay's, nor that of a node still being configured. */
  lemma {:induction false} OnlyScannersAreSentKeys(s: State, es: seq<Event>, a: uint16)
    requires Legal(s, es) && NeverScanner(s, es, a)
    requires a !in s.last && a !in s.missed && s.awaiting != Some(a)
    ensures var s' := RunFrom(s, es); a !in s'.last && a !in s'.missed
    decreases |es|
  {
    if es != [] {
      NotSent(s, es[0], a);
      OnlyScannersAreSentKeys(After(s, es[0]), es[1..], a);
    }
  }

  lemma NotSent(s: State, e: Event, a: uint16)
    requires Enabled(s, e) && !ScannerAt(s.nodes, a) && !ScannerAt(After(s, e).nodes, a)
    requires a !in s.last && a !in s.missed && s.awaiting != Some(a)
    ensures var s' := After(s, e); a !in s'.last && a !in s'.missed && s'.awaiting != Some(a)
  {
    if e.Configured? {
      var n := After(s, e).nodes[e.i];
      assert n.used && n.isScan && n.configDone;
    }
  }

  // ----- without crashes: nobody is left behind -----

  /** Entry `i` has been sent the current key, or its last push failed, or it still will be. */
  ghost predicate UpToDate(s: State, i: nat)
    requires i < MAX_NODES && s.keys.ram.Some?
  {
    var a := s.nodes[i].addr;
    || (a in s.last && s.last[a] == s.keys.ram.value)
    || a in s.missed
    || s.awaiting == Some(a)
    || s.phase.AwaitPersist?
    || (s.phase.Pushing? && s.phase.i <= i)
  }

  ghost predicate Served(s: State) {
    s.keys.ram.Some? ==> forall i :: 0 <= i < MAX_NODES && WantsKey(s.nodes[i]) ==> UpToDate(s, i)
  }

  lemma ServedPreserved(s: State, e: Event)
    requires Served(s) && Enabled(s, e) && !e.Crash?
    ensures Served(After(s, e))
  {
    var s' := After(s, e);
    if s'.keys.ram.Some? {
      forall i | 0 <= i < MAX_NODES && WantsKey(s'.nodes[i]) ensures UpToDate(s', i) {
        if s.keys.ram.Some? && WantsKey(s.nodes[i]) { assert UpToDate(s, i); }
      }
    }
  }

  lemma {:induction false} RunKeepsServed(s: State, es: seq<Event>)
    requires Served(s) && Legal(s, es) && forall i :: 0 <= i < |es| ==> !es[i].Crash?
    ensures Served(RunFrom(s, es))
    decreases |es|
  {
    if es != [] {
      ServedPreserved(s, es[0]);
      RunKeepsServed(After(s, es[0]), es[1..]);
    }
  }

  /** Nobody is owed a push at a first boot without configured scanners, nor right after any
      successful import: a pass over the table is then still to come. */
  lemma ServedAtFirst(nodes: Nodes, first: Bytes, works: bool, s: State, bytes: Bytes)
    requires forall i :: 0 <= i < MAX_NODES ==> !WantsKey(nodes[i])
    requires s.phase.Idle?
    ensures Served(FirstBoot(nodes, first, works))
    ensures Served(After(s, Rotate(bytes, true)))
  {
  }

  /** In every interleaving of rotations with configuration tasks: once neither has a push
      outstanding, the last key sent to each configured scanner is the gateway's newest, unless
      the last push to that scanner failed. */
  lemma NoScannerLeftBehind(s: State, es: seq<Event>, i: nat)
    requires Served(s) && Legal(s, es) && forall j :: 0 <= j < |es| ==> !es[j].Crash?
    requires var s' := RunFrom(s, es);
             s'.phase.Idle? && s'.awaiting.None? && s'.keys.ram.Some?
             && i < MAX_NODES && WantsKey(s'.nodes[i]) && s'.nodes[i].addr !in s'.missed
    ensures var s', a := RunFrom(s, es), RunFrom(s, es).nodes[i].addr;
            a in s'.last && s'.last[a] == s'.keys.ram.value
  {
    RunKeepsServed(s, es);
    assert UpToDate(RunFrom(s, es), i);
  }

  // ----- with crashes: the gateway is never behind a scanner -----

  /** The scanner at `a` holds a newer key than the gateway would boot with. */
  ghost predicate AheadOfFlash(s: State, a: uint16) {
    a in s.last && s.keys.nvs.Some? && s.last[a].generation > s.keys.nvs.value.generation
  }

  /** A key sent with the generation of `key` is `key`. */
  ghost predicate OneKeyEach(s: State, key: Key) {
    forall a :: a in s.last && s.last[a].generation == key.generation ==> s.last[a] == key
  }

  ghost predicate Consistent(s: State) {
    && s.keys.nvs.Some? && s.keys.nvs.value.generation < s.generated
    && (s.keys.ram.Some? ==> s.keys.ram.value.generation < s.generated)
    && (s.keys.ram.Some? && !s.phase.AwaitPersist? ==> s.keys.ram == s.keys.nvs)
    && (s.phase.AwaitPersist? ==>
          s.keys.ram.Some? && s.keys.nvs.value.generation < s.keys.ram.value.generation == s.generated - 1)
    && (forall a :: a in s.last ==> s.last[a].generation < s.generated)
    && OneKeyEach(s, s.keys.nvs.value)
    && (s.keys.ram.Some? ==> OneKeyEach(s, s.keys.ram.value))
    && (forall a: uint16 :: AheadOfFlash(s, a) <==> a in s.gap)
    && (forall a: uint16 :: a in s.held <==> a in s.last && s.last[a] == s.keys.nvs.value)
    && (s.phase.AwaitPersist? ==>
          forall a: uint16 :: a in s.recent <==> a in s.last && s.last[a] == s.keys.ram.value)
  }

  /** Every flash write works. */
  predicate FlashWorks(e: Event) {
    match e
    case PersistNew(works) => works
    case Crash(_, _, works, _) => works
    case _ => true
  }

  lemma SentConsistent(s: State, a: uint16, works: bool)
    requires Consistent(s) && s.keys.ram.Some?
    ensures Consistent(Sent(s, Push(a, s.keys.ram.value, works)))
  {
  }

  lemma UnsentConsistent(s: State, a: uint16)
    requires Consistent(s)
    ensures Consistent(Unsent(s, a))
  {
  }

  lemma PushConsistent(s: State, e: Event)
    requires Consistent(s) && Enabled(s, e) && (e.PushNext? || e.ConfigPush?)
    ensures Consistent(After(s, e))
  {
    if e.PushNext? && s.phase.i < MAX_NODES {
      SentConsistent(s.(phase := Pushing(s.phase.i + 1)), s.nodes[s.phase.i].addr, e.sendWorks);
    } else if e.ConfigPush? && s.keys.ram.Some? {
      SentConsistent(s.(awaiting := None), s.awaiting.value, e.sendWorks);
    }
  }

  lemma RotateConsistent(s: State, bytes: Bytes, works: bool)
    requires Consistent(s) && s.phase.Idle?
    ensures Consistent(After(s, Rotate(bytes, works)))
  {
  }

  lemma PersistConsistent(s: State)
    requires Consistent(s) && s.phase.AwaitPersist? && s.keys.ram.Some?
    ensures Consistent(After(s, PersistNew(true)))
  {
  }

  lemma ConsistentPreserved(s: State, e: Event)
    requires Consistent(s) && Enabled(s, e) && FlashWorks(e)
    ensures Consistent(After(s, e))
  {
    match e {
      case Rotate(bytes, works) => RotateConsistent(s, bytes, works);
      case PersistNew(_) => PersistConsistent(s);
      case PushNext(_) => PushConsistent(s, e);
      case ConfigPush(_) => PushConsistent(s, e);
      case Provision(i, n) => UnsentConsistent(s, n.addr);
      case _ =>
    }
  }

  lemma {:induction false} RunKeepsConsistent(s: State, es: seq<Event>)
    requires Consistent(s) && Legal(s, es) && forall i :: 0 <= i < |es| ==> FlashWorks(es[i])
    ensures Consistent(RunFrom(s, es))
    decreases |es|
  {
    if es != [] {
      ConsistentPreserved(s, es[0]);
      RunKeepsConsistent(After(s, es[0]), es[1..]);
    }
  }

  /** The first boot of a gateway with empty flash. */
  function FirstBoot(nodes: Nodes, bytes: Bytes, importWorks: bool): State {
    State(AfterInit(None, Key(0, bytes), true, true, true, importWorks), 1, Idle, nodes, None, map[], {}, {}, {}, {})
  }

  /** With flash writes succeeding, a crash at any step of any run, with any crashes before it,
      leaves scanner `a` with a newer key than the gateway then boots with exactly if the last key
      sent to `a` was pushed between import and flash write of a rotation that a crash cut off
      there. */
  lemma CrashLeavesScannerAheadIff(nodes: Nodes, bytes: Bytes, works: bool, es: seq<Event>, crash: Event, a: uint16)
    requires Legal(FirstBoot(nodes, bytes, works), es) && forall i :: 0 <= i < |es| ==> FlashWorks(es[i])
    requires Enabled(RunFrom(FirstBoot(nodes, bytes, works), es), crash)
    requires crash.Crash? && crash.writeWorks && crash.importWorks
    ensures var s := RunFrom(FirstBoot(nodes, bytes, works), es);
            var booted := After(s, crash);
            booted.keys.ram.Some?
            && (a in booted.last && booted.last[a].generation > booted.keys.ram.value.generation <==> a in s.gap)
  {
    RunKeepsConsistent(FirstBoot(nodes, bytes, works), es);
    var s := RunFrom(FirstBoot(nodes, bytes, works), es);
    assert AheadOfFlash(s, a) <==> a in s.gap;
  }

  /** What every run from a first boot leads to. */
  lemma RunFromFirstBoot(nodes: Nodes, bytes: Bytes, works: bool, es: seq<Event>)
    requires Legal(FirstBoot(nodes, bytes, works), es) && forall i :: 0 <= i < |es| ==> FlashWorks(es[i])
    ensures Consistent(RunFrom(FirstBoot(nodes, bytes, works), es))
  {
    RunKeepsConsistent(FirstBoot(nodes, bytes, works), es);
  }

  /** Such a crash leaves scanner `a` on an older key, or on none, exactly if its last successful
      push came neither with the key that flash holds nor inside such a gap. */
  lemma CrashLeavesScannerBehindIff(nodes: Nodes, bytes: Bytes, works: bool, es: seq<Event>, crash: Event, a: uint16)
    requires Legal(FirstBoot(nodes, bytes, works), es) && forall i :: 0 <= i < |es| ==> FlashWorks(es[i])
    requires Enabled(RunFrom(FirstBoot(nodes, bytes, works), es), crash)
    requires crash.Crash? && crash.writeWorks && crash.importWorks
    ensures var s := RunFrom(FirstBoot(nodes, bytes, works), es);
            var booted := After(s, crash);
            booted.keys.ram.Some?
            && ((a !in booted.last || booted.last[a].generation < booted.keys.ram.value.generation)
                <==> a !in s.held && a !in s.gap)
  {
    RunFromFirstBoot(nodes, bytes, works, es);
    var s := RunFrom(FirstBoot(nodes, bytes, works), es);
    assert AheadOfFlash(s, a) <==> a in s.gap;
  }

  /** Outside a gap, a configured scanner whose last push did not carry the key in flash is one
      whose push failed, or was still to come: from its configuration task, or from the pass that
      had not reached it. */
  lemma BehindOnlyIfOwed(s: State, i: nat)
    requires Consistent(s) && Served(s) && s.keys.ram.Some? && !s.phase.AwaitPersist?
    requires i < MAX_NODES && WantsKey(s.nodes[i]) && s.nodes[i].addr !in s.held
    ensures var a := s.nodes[i].addr;
            a in s.missed || s.awaiting == Some(a) || (s.phase.Pushing? && s.phase.i <= i)
  {
    assert UpToDate(s, i);
  }

  /** A crash in the push loop really leaves a configured scanner on the old key, with nothing
      outstanding and no failed push. */
  lemma PushLoopCanBeCutOff(s: State, i: nat, bytes: Bytes, other: Bytes)
    requires Consistent(s) && s.phase.Idle? && i < MAX_NODES && WantsKey(s.nodes[i]) && s.nodes[i].addr !in s.missed
    ensures var es := [Rotate(bytes, true), PersistNew(true), Crash(s.nodes, other, true, true)];
            Legal(s, es)
            && var s', a := RunFrom(s, es), s.nodes[i].addr;
               && s'.phase.Idle? && s'.awaiting.None? && WantsKey(s'.nodes[i]) && a !in s'.missed
               && s'.keys.ram.Some? && !(a in s'.last && s'.last[a] == s'.keys.ram.value)
  {
    var es := [Rotate(bytes, true), PersistNew(true), Crash(s.nodes, other, true, true)];
    var s1 := After(s, es[0]);
    var s2 := After(s1, es[1]);
    var s3 := After(s2, es[2]);
    Cons(s2, es[2], []);
    Cons(s1, es[1], [es[2]] + []);
    Cons(s, es[0], [es[1]] + ([es[2]] + []));
    assert es == [es[0]] + ([es[1]] + ([es[2]] + []));
  }

  lemma Cons(s: State, e: Event, es: seq<Event>)
    requires Enabled(s, e) && Legal(After(s, e), es)
    ensures Legal(s, [e] + es) && RunFrom(s, [e] + es) == RunFrom(After(s, e), es)
  {
    assert ([e] + es)[1..] == es;
  }

  /** The next rotation makes up for it: whatever crashes came before, after a successful import
      without a further crash, once no push is outstanding each configured scanner whose last push
      worked has the newest key. */
  lemma NextRotationServes(s: State, bytes: Bytes, es: seq<Event>, i: nat)
    requires s.phase.Idle? && Legal(After(s, Rotate(bytes, true)), es) && forall j :: 0 <= j < |es| ==> !es[j].Crash?
    requires var s' := RunFrom(After(s, Rotate(bytes, true)), es);
             s'.phase.Idle? && s'.awaiting.None? && s'.keys.ram.Some?
             && i < MAX_NODES && WantsKey(s'.nodes[i]) && s'.nodes[i].addr !in s'.missed
    ensures var s' := RunFrom(After(s, Rotate(bytes, true)), es);
            var a := s'.nodes[i].addr;
            a in s'.last && s'.last[a] == s'.keys.ram.value
  {
    NoScannerLeftBehind(After(s, Rotate(bytes, true)), es, i);
  }

  /** With flash writes succeeding, the key in RAM survives a crash exactly outside the gap between
      import and flash write. */
  lemma CrashKeepsKeyIff(s: State, crash: Event)
    requires Consistent(s) && s.keys.ram.Some? && crash.Crash? && crash.importWorks
    ensures After(s, crash).keys.ram == s.keys.ram <==> !s.phase.AwaitPersist?
    ensures After(s, crash).keys.ram == s.keys.nvs
  {
  }

  /** No configuration task pushes inside a gap. */
  ghost predicate NoGapPush(s: State, es: seq<Event>)
    requires Legal(s, es)
    decreases |es|
  {
    es != [] ==> !(es[0].ConfigPush? && s.phase.AwaitPersist?) && NoGapPush(After(s, es[0]), es[1..])
  }

  /** Without such pushes the gateway is never behind a scanner, whenever it crashes. */
  lemma {:induction false} GatewayNeverBehind(s: State, es: seq<Event>)
    requires Consistent(s) && s.gap == {} && Legal(s, es) && NoGapPush(s, es)
    requires forall i :: 0 <= i < |es| ==> FlashWorks(es[i])
    ensures RunFrom(s, es).gap == {}
    ensures forall a: uint16 :: !AheadOfFlash(RunFrom(s, es), a)
    decreases |es|
  {
    if es != [] {
      ConsistentPreserved(s, es[0]);
      GatewayNeverBehind(After(s, es[0]), es[1..]);
    }
  }

  /** The gap can be hit: import, a configuration finishing and pushing, a crash. */
  lemma GapCanBeHit(s: State, i: nat, addr: uint16, bytes: Bytes)
    requires Consistent(s) && s.phase.Idle? && s.keys.nvs.Some?
    requires Enabled(s, Configured(i, addr))
    ensures var es := [Rotate(bytes, true), Configured(i, addr), ConfigPush(true)];
            Legal(s, es) && AheadOfFlash(RunFrom(s, es), addr)
  {
    var es := [Rotate(bytes, true), Configured(i, addr), ConfigPush(true)];
    var s1 := After(s, es[0]);
    var s2 := After(s1, es[1]);
    Cons(s2, es[2], []);
    Cons(s1, es[1], [es[2]] + []);
    Cons(s, es[0], [es[1]] + ([es[2]] + []));
    assert es == [es[0]] + ([es[1]] + ([es[2]] + []));
  }

  /** While imports fail, any number of rotations change no key in RAM or flash, and whatever is
      sent meanwhile is the key that was there. */
  lemma {:induction false} FailedImportsChangeNoKey(s: State, es: seq<Event>)
    requires s.phase.Idle? && Legal(s, es)
    requires forall i :: 0 <= i < |es| ==> !es[i].Crash? && (es[i].Rotate? ==> !es[i].importWorks)
    ensures RunFrom(s, es).keys == s.keys && RunFrom(s, es).phase.Idle?
    ensures forall a :: a in RunFrom(s, es).last ==>
              (a in s.last && RunFrom(s, es).last[a] == s.last[a]) || Some(RunFrom(s, es).last[a]) == s.keys.ram
    decreases |es|
  {
    if es != [] { FailedImportsChangeNoKey(After(s, es[0]), es[1..]); }
  }
}
