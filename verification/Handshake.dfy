/** The configuration handshake of the gateway as a step relation: configuration tasks and the
    ping task share one mutex, one wait slot and one event bit with the mesh callbacks.

    Each access to the mutex, the slot and the bit is a step of its own, and so is each look of the
    ping task at its entry, so callbacks land between any two of them. Looking an entry up and
    changing it are one step, and so is a callback. Callbacks carry a unicast (non-zero) address,
    and the stack never hands out an address that is still in the node table. */
module Handshake {
  import opened Machine
  import opened SlotTable
  import opened NodeTable
  import opened MeshControl
  import NodeStatus

  const RETRIES := 3

  type Tid = nat

  /** Where a task is in `node_config_task` or the ping loop. In `Checked` and `Ready` the ping task
      has found a configured entry and read its address. `Clear` to `UnsetOp` are the lines of
      `wait_cfg_ack`. */
  datatype Pc =
    | Start
    | Checked
    | Ready
    | Send(op: nat, attempt: nat)
    | Clear(op: nat, attempt: nat)
    | SetAddr(op: nat, attempt: nat)
    | SetOp(op: nat, attempt: nat)
    | Wait(op: nat, attempt: nat)
    | UnsetAddr(op: nat, attempt: nat, got: bool)
    | UnsetOp(op: nat, attempt: nat, got: bool)
    | Cleanup
    | Finish
    | Release
    | Exited
  {
    predicate HasOp() { Send? || Clear? || SetAddr? || SetOp? || Wait? || UnsetAddr? || UnsetOp? }
    /** The slot may hold the task's address. */
    predicate Open() { SetOp? || Wait? || UnsetAddr? }
    predicate Idle() { Start? || Checked? || Ready? || Exited? }
  }

  /** `entry` is the table index the ping task is at. */
  datatype Task = Task(addr: uint16, ping: bool, entry: nat, pc: Pc)
  {
    /** A configuration task that has not reached its verdict. */
    predicate Configuring() { !ping && !pc.Release? && !pc.Exited? }
  }

  datatype State = State(core: Core, holder: Option<Tid>, tasks: map<Tid, Task>)

  datatype Event =
    | Step(t: Tid, sent: bool, entry: nat)
    | Callback(m: CfgMsg)
    | Traffic(e: NodeStatus.Event)
    | Unprovisioned(uuid: Bytes)
    | ProvisionDone(addr: uint16, uuid: Bytes, mac: Bytes, t: Tid)

  predicate Enabled(s: State, e: Event) {
    match e
    case Step(t, _, i) =>
      t in s.tasks && !s.tasks[t].pc.Exited? &&
      (match s.tasks[t].pc
       case Start => if s.tasks[t].ping then i < MAX_NODES && s.core.nodes[i].Configured() else s.holder.None?
       case Checked => s.tasks[t].ping && s.tasks[t].entry < MAX_NODES
       case Ready => s.holder.None?
       case _ => true)
    case Callback(m) => m.addr != 0
    case Traffic(e) => e.TagStatus? || e.PingMark? || e.PingPublish?
    case Unprovisioned(_) => true
    case ProvisionDone(addr, _, _, t) => addr != 0 && Find(s.core.nodes, addr) < 0 && t !in s.tasks
  }

  /** After an attempt: what a task does next. */
  function Continue(k: Task, op: nat, attempt: nat, acked: bool): Pc {
    if k.ping then Release
    else if acked then (if op == APP_KEY_ADD then Send(MODEL_APP_BIND, 1) else Finish)
    else if attempt < RETRIES then Send(op, attempt + 1)
    else Cleanup
  }

  function At(s: State, t: Tid, core: Core, k: Task): State { s.(core := core, tasks := s.tasks[t := k]) }

  function AfterStep(s: State, t: Tid, sent: bool, entry: nat): State
    requires Enabled(s, Step(t, sent, entry))
  {
    var c, k := s.core, s.tasks[t];
    match k.pc
    case Start =>
      if k.ping then At(s, t, c, k.(entry := entry, pc := Checked))
      else At(s, t, c, k.(pc := Send(APP_KEY_ADD, 1))).(holder := Some(t))
    case Checked => At(s, t, c, k.(addr := c.nodes[k.entry].addr, pc := Ready))
    case Ready => At(s, t, c, k.(pc := Send(DEFAULT_TTL_GET, 1))).(holder := Some(t))
    case Send(op, a) =>
      At(s, t, c, if !sent then k.(pc := Continue(k, op, a, false))
                  else k.(pc := Clear(op, a),
                          addr := if k.ping && k.entry < MAX_NODES then c.nodes[k.entry].addr else k.addr))
    case Clear(op, a) => At(s, t, c.(ackBit := false), k.(pc := SetAddr(op, a)))
    case SetAddr(op, a) => At(s, t, c.(waitAddr := k.addr), k.(pc := SetOp(op, a)))
    case SetOp(op, a) => At(s, t, c.(waitOp := op), k.(pc := Wait(op, a)))
    case Wait(op, a) => At(s, t, c.(ackBit := false), k.(pc := UnsetAddr(op, a, c.ackBit)))
    case UnsetAddr(op, a, got) => At(s, t, c.(waitAddr := 0), k.(pc := UnsetOp(op, a, got)))
    case UnsetOp(op, a, got) => At(s, t, c.(waitOp := 0), k.(pc := Continue(k, op, a, got)))
    case Cleanup => At(s, t, AfterAbort(c, k.addr), k.(pc := Release))
    case Finish => At(s, t, AfterConfigDone(c, k.addr), k.(pc := Release))
    case Release => At(s, t, c, k.(pc := if k.ping then Start else Exited)).(holder := None)
    case Exited => s
  }

  function After(s: State, e: Event): State
    requires Enabled(s, e)
  {
    match e
    case Step(t, sent, i) => AfterStep(s, t, sent, i)
    case Callback(m) => s.(core := AfterCfg(s.core, m))
    case Traffic(e) => s.(core := NodeStatus.After(s.core, e))
    case Unprovisioned(uuid) => s.(core := AfterBeacon(s.core, uuid))
    case ProvisionDone(addr, uuid, mac, t) =>
      State(AfterProvisioned(s.core, addr, uuid, mac), s.holder,
            if Launches(s.core, addr, uuid) then s.tasks[t := Task(addr, false, 0, Start)] else s.tasks)
  }

  // ----- mutual exclusion and the wait slot -----

  /** What the slot holds at each point of its holder. */
  ghost predicate SlotIs(c: Core, k: Task) {
    && c.waitAddr == (if k.pc.Open() then k.addr else 0)
    && c.waitOp == (if k.pc.Wait? || k.pc.UnsetAddr? || k.pc.UnsetOp? then k.pc.op else 0)
  }

  ghost predicate Exclusive(s: State) {
    && (forall t :: t in s.tasks ==> (s.tasks[t].pc.Idle() <==> s.holder != Some(t)))
    && (s.holder.Some? ==> s.holder.value in s.tasks)
    && if s.holder.Some? then SlotIs(s.core, s.tasks[s.holder.value]) else s.core.waitAddr == 0 && s.core.waitOp == 0
  }

  lemma CallbacksKeepSlot(c: Core, m: CfgMsg)
    ensures AfterCfg(c, m).waitAddr == c.waitAddr && AfterCfg(c, m).waitOp == c.waitOp
    ensures AfterCfg(c, m).ackBit == (c.ackBit || FillsSlot(c, m))
  {
  }

  lemma StepKeepsSlot(s: State, t: Tid, sent: bool, entry: nat)
    requires Exclusive(s) && Enabled(s, Step(t, sent, entry))
    ensures var s' := AfterStep(s, t, sent, entry);
            && t in s'.tasks
            && (s'.tasks[t].pc.Idle() <==> s'.holder != Some(t))
            && if s.tasks[t].pc.Idle() && s'.tasks[t].pc.Idle() then s'.core == s.core && s'.holder == s.holder
               else if s'.holder == Some(t) then SlotIs(s'.core, s'.tasks[t])
               else s'.holder == None && s'.core.waitAddr == 0 && s'.core.waitOp == 0
  {
    assert s.tasks[t].pc.Idle() || s.holder == Some(t);
  }

  lemma StepKeepsExclusive(s: State, t: Tid, sent: bool, entry: nat)
    requires Exclusive(s) && Enabled(s, Step(t, sent, entry))
    ensures Exclusive(AfterStep(s, t, sent, entry))
  {
    var s' := AfterStep(s, t, sent, entry);
    StepKeepsSlot(s, t, sent, entry);
    forall u | u in s'.tasks && u != t ensures u in s.tasks && s'.tasks[u] == s.tasks[u] {
      OthersKeepTask(s, Step(t, sent, entry), u);
    }
    assert s.tasks[t].pc.Idle() || s.holder == Some(t);
  }

  lemma ExclusivePreserved(s: State, e: Event)
    requires Exclusive(s) && Enabled(s, e)
    ensures Exclusive(After(s, e))
  {
    match e {
      case Step(t, sent, i) => StepKeepsExclusive(s, t, sent, i);
      case Callback(m) => CallbacksKeepSlot(s.core, m);
      case _ =>
    }
  }

  /** A task that holds the mutex can always take its next step. */
  lemma HolderNeverBlocks(s: State, sent: bool, entry: nat)
    requires Exclusive(s) && s.holder.Some?
    ensures Enabled(s, Step(s.holder.value, sent, entry))
  {
  }

  /** An acknowledgement that comes before its wait has set the whole slot is lost: the bit stays
      as it was, so the wait runs to its end or to a repetition. */
  lemma EarlyAckIsLost(s: State, t: Tid, m: CfgMsg)
    requires Exclusive(s) && s.holder == Some(t) && Enabled(s, Callback(m))
    requires var pc := s.tasks[t].pc;
             m.addr == s.tasks[t].addr
             && (pc.Clear? || pc.SetAddr? || (pc.SetOp? && pc.op != APP_KEY_ADD)) && m.op == pc.op
    ensures After(s, Callback(m)).core.ackBit == s.core.ackBit
    ensures After(s, Callback(m)).tasks == s.tasks
  {
    CallbacksKeepSlot(s.core, m);
  }

  // ----- bounded retries -----

  /** Own steps a configuration task can still take. */
  function Rank(pc: Pc): int {
    match pc
    case Start => 46
    case Checked => 46
    case Ready => 46
    case Send(op, a) => 7 * AttemptsLeft(op, a) + 9
    case Clear(op, a) => 7 * AttemptsLeft(op, a) + 8
    case SetAddr(op, a) => 7 * AttemptsLeft(op, a) + 7
    case SetOp(op, a) => 7 * AttemptsLeft(op, a) + 6
    case Wait(op, a) => 7 * AttemptsLeft(op, a) + 5
    case UnsetAddr(op, a, _) => 7 * AttemptsLeft(op, a) + 4
    case UnsetOp(op, a, _) => 7 * AttemptsLeft(op, a) + 3
    case Cleanup => 2
    case Finish => 2
    case Release => 1
    case Exited => 0
  }

  /** Attempts a task may still make after its current one. */
  function AttemptsLeft(op: nat, attempt: nat): int {
    RETRIES - attempt + if op == APP_KEY_ADD then RETRIES else 0
  }

  ghost predicate BoundedTask(k: Task) {
    && (k.pc.HasOp() ==>
          && 1 <= k.pc.attempt <= RETRIES
          && (!k.ping ==> k.pc.op in {APP_KEY_ADD, MODEL_APP_BIND}))
    && (if k.ping then !k.pc.Cleanup? && !k.pc.Finish? && !k.pc.Exited? else !k.pc.Checked? && !k.pc.Ready?)
  }

  ghost predicate Bounded(s: State) {
    forall t :: t in s.tasks ==> BoundedTask(s.tasks[t])
  }

  /** Each step of a configuration task lowers its rank, which starts at 46 and is never
      negative: with at most three attempts for each of its two messages it ends, and its last
      step gives the mutex back. */
  lemma TasksEnd(s: State, t: Tid, sent: bool, entry: nat)
    requires Bounded(s) && Enabled(s, Step(t, sent, entry)) && !s.tasks[t].ping
    ensures var s' := After(s, Step(t, sent, entry));
            0 <= Rank(s'.tasks[t].pc) < Rank(s.tasks[t].pc) <= 46
            && (s'.tasks[t].pc.Exited? ==> s'.holder.None?)
  {
  }

  lemma BoundedPreserved(s: State, e: Event)
    requires Bounded(s) && Enabled(s, e)
    ensures Bounded(After(s, e))
  {
    if e.Step? { StepBounded(s, e.t, e.sent, e.entry); }
    var s' := After(s, e);
    forall t | t in s'.tasks ensures BoundedTask(s'.tasks[t]) {
      if t in s.tasks && !(e.Step? && e.t == t) { OthersKeepTask(s, e, t); }
    }
  }

  lemma StepBounded(s: State, t: Tid, sent: bool, entry: nat)
    requires Enabled(s, Step(t, sent, entry)) && BoundedTask(s.tasks[t])
    ensures t in AfterStep(s, t, sent, entry).tasks && BoundedTask(AfterStep(s, t, sent, entry).tasks[t])
  {
  }

  lemma OthersKeepTask(s: State, e: Event, t: Tid)
    requires Enabled(s, e) && t in s.tasks && !(e.Step? && e.t == t)
    ensures t in After(s, e).tasks && After(s, e).tasks[t] == s.tasks[t]
  {
  }

  // ----- the order of acknowledgements -----

  datatype Seen = Nothing | KeySeen | BindSeen

  /** An observer of callbacks: how far each task's own acknowledgements have come, and the tasks
      whose slot was half set when an APP_KEY_ADD acknowledgement came for their address. */
  datatype World = World(s: State, seen: map<Tid, Seen>, half: set<Tid>)

  function SeenBy(w: World, t: Tid): Seen { if t in w.seen then w.seen[t] else Nothing }

  predicate ErrorFree(m: CfgMsg) { !m.event.Timeout? && m.err == 0 }

  /** The callback acknowledges, without error, what its holder is waiting for. */
  predicate Acknowledges(s: State, m: CfgMsg) {
    && s.holder.Some? && s.holder.value in s.tasks
    && var k := s.tasks[s.holder.value];
       k.pc.Open() && ErrorFree(m) && m.addr == k.addr && m.op == k.pc.op
  }

  predicate HitsHalfSlot(s: State, m: CfgMsg) {
    && s.holder.Some? && s.holder.value in s.tasks
    && var k := s.tasks[s.holder.value];
       k.pc.SetOp? && k.pc.op != APP_KEY_ADD && ErrorFree(m) && m.addr == k.addr && m.op == APP_KEY_ADD
  }

  function Advance(seen: Seen, op: nat): Seen {
    if seen == Nothing && op == APP_KEY_ADD then KeySeen
    else if seen == KeySeen && op == MODEL_APP_BIND then BindSeen
    else seen
  }

  function Observe(w: World, e: Event): World
    requires Enabled(w.s, e)
  {
    var s' := After(w.s, e);
    if e.Callback? && Acknowledges(w.s, e.m) then
      World(s', w.seen[w.s.holder.value := Advance(SeenBy(w, w.s.holder.value), e.m.op)], w.half)
    else if e.Callback? && HitsHalfSlot(w.s, e.m) then
      World(s', w.seen, w.half + {w.s.holder.value})
    else World(s', w.seen, w.half)
  }

  /** The acknowledgement of `op` has come for task `t`. */
  ghost predicate Answered(w: World, t: Tid, op: nat) {
    if op == APP_KEY_ADD then SeenBy(w, t) != Nothing else SeenBy(w, t) == BindSeen || t in w.half
  }

  ghost predicate Ordered(w: World, t: Tid)
    requires t in w.s.tasks
  {
    var k := w.s.tasks[t];
    !k.ping ==>
      && (k.pc.HasOp() && k.pc.op == MODEL_APP_BIND ==> SeenBy(w, t) != Nothing)
      && (k.pc.SetAddr? ==> !w.s.core.ackBit)
      && ((k.pc.SetOp? || k.pc.Wait?) && w.s.core.ackBit ==> Answered(w, t, k.pc.op))
      && ((k.pc.UnsetAddr? || k.pc.UnsetOp?) && k.pc.got ==> Answered(w, t, k.pc.op))
      && (k.pc.Finish? ==> Answered(w, t, MODEL_APP_BIND))
  }

  ghost predicate Inv(w: World) {
    && Exclusive(w.s) && Bounded(w.s)
    && forall t :: t in w.s.tasks ==> Ordered(w, t)
  }

  lemma OrderedPreserved(w: World, e: Event, t: Tid)
    requires Inv(w) && Enabled(w.s, e) && t in w.s.tasks
    ensures Ordered(Observe(w, e), t)
  {
    if e.Step? && e.t == t {
      OwnStepOrdered(w, t, e.sent, e.entry);
    } else {
      OthersKeepTask(w.s, e, t);
      if w.s.tasks[t].pc.Idle() {
        IdleOrdered(Observe(w, e), t);
      } else if e.Callback? {
        CallbackOrdered(w, e.m, t);
      } else {
        OthersKeepBit(w, e, t);
        SameOrdered(w, Observe(w, e), t);
      }
    }
  }

  /** Outside the mutex there is nothing to order. */
  lemma IdleOrdered(w: World, t: Tid)
    requires t in w.s.tasks && w.s.tasks[t].pc.Idle()
    ensures Ordered(w, t)
  {
  }

  lemma SameOrdered(w: World, w': World, t: Tid)
    requires t in w.s.tasks && Ordered(w, t) && t in w'.s.tasks && w'.s.tasks[t] == w.s.tasks[t]
    requires w'.s.core.ackBit == w.s.core.ackBit && w'.seen == w.seen && w'.half == w.half
    ensures Ordered(w', t)
  {
  }

  /** While a task holds the mutex, no step of another and no other event touches the bit. */
  lemma OthersKeepBit(w: World, e: Event, t: Tid)
    requires Inv(w) && Enabled(w.s, e) && w.s.holder == Some(t) && !e.Callback? && !(e.Step? && e.t == t)
    ensures After(w.s, e).core.ackBit == w.s.core.ackBit
    ensures Observe(w, e).seen == w.seen && Observe(w, e).half == w.half
  {
    if e.Step? {
      assert w.s.tasks[e.t].pc.Idle();
      StepKeepsSlot(w.s, e.t, e.sent, e.entry);
    }
  }

  /** Own steps: into a wait, inside it, out of it, and all others. */
  lemma OwnStepOrdered(w: World, t: Tid, sent: bool, entry: nat)
    requires Inv(w) && Enabled(w.s, Step(t, sent, entry))
    ensures Ordered(Observe(w, Step(t, sent, entry)), t)
  {
    var pc := w.s.tasks[t].pc;
    assert Ordered(w, t);
    if pc.Send? || pc.Clear? || pc.SetAddr? || pc.SetOp? {
      IntoWaitOrdered(w, t, sent, entry);
    } else if pc.Wait? || pc.UnsetAddr? || pc.UnsetOp? {
      OutOfWaitOrdered(w, t, sent, entry);
    }
  }

  lemma IntoWaitOrdered(w: World, t: Tid, sent: bool, entry: nat)
    requires t in w.s.tasks && Ordered(w, t) && BoundedTask(w.s.tasks[t]) && Enabled(w.s, Step(t, sent, entry))
    requires var pc := w.s.tasks[t].pc; pc.Send? || pc.Clear? || pc.SetAddr? || pc.SetOp?
    ensures Ordered(Observe(w, Step(t, sent, entry)), t)
  {
  }

  lemma OutOfWaitOrdered(w: World, t: Tid, sent: bool, entry: nat)
    requires t in w.s.tasks && Ordered(w, t) && BoundedTask(w.s.tasks[t]) && Enabled(w.s, Step(t, sent, entry))
    requires var pc := w.s.tasks[t].pc; pc.Wait? || pc.UnsetAddr? || pc.UnsetOp?
    ensures Ordered(Observe(w, Step(t, sent, entry)), t)
  {
  }

  lemma CallbackOrdered(w: World, m: CfgMsg, t: Tid)
    requires Inv(w) && Enabled(w.s, Callback(m)) && t in w.s.tasks && w.s.holder == Some(t)
    ensures Ordered(Observe(w, Callback(m)), t)
  {
    CallbacksKeepSlot(w.s.core, m);
  }

  lemma InvPreserved(w: World, e: Event)
    requires Inv(w) && Enabled(w.s, e)
    ensures Inv(Observe(w, e))
  {
    ExclusivePreserved(w.s, e);
    BoundedPreserved(w.s, e);
    var w' := Observe(w, e);
    forall t | t in w'.s.tasks ensures Ordered(w', t) {
      if t in w.s.tasks { OrderedPreserved(w, e, t); }
    }
  }

  // ----- entries and their tasks -----

  ghost predicate UnderConfiguration(n: Option<Node>) { n.Some? && n.value.Managed() && !n.value.configDone }

  /** A task before its verdict has its entry, not yet configured, to itself; an entry not yet
      configured has such a task, or is one of `stranded`, which have none. */
  ghost predicate Owned(s: State, stranded: set<uint16>) {
    && UniqueAddrs(s.core.nodes)
    && (forall t :: t in s.tasks && s.tasks[t].Configuring() ==>
          UnderConfiguration(Lookup(s.core.nodes, s.tasks[t].addr)))
    && (forall t, u :: t in s.tasks && u in s.tasks && t != u && s.tasks[t].Configuring() && s.tasks[u].Configuring() ==>
          s.tasks[t].addr != s.tasks[u].addr)
    && (forall a: uint16 :: UnderConfiguration(Lookup(s.core.nodes, a)) && a !in stranded ==> HasTask(s, a))
    && (forall a: uint16 :: a in stranded ==> UnderConfiguration(Lookup(s.core.nodes, a)) && !HasTask(s, a))
  }

  ghost predicate HasTask(s: State, a: uint16) {
    exists t :: t in s.tasks && s.tasks[t].Configuring() && s.tasks[t].addr == a
  }

  /** Only the liveness fields of entries differ. */
  ghost predicate SameEntries(a: Nodes, b: Nodes) {
    forall i :: 0 <= i < MAX_NODES ==> b[i] == a[i].(online := b[i].online, lastSeenMs := b[i].lastSeenMs)
  }

  lemma SameEntriesSameLookup(a: Nodes, b: Nodes, addr: uint16)
    requires SameEntries(a, b)
    ensures Addrs(a) == Addrs(b)
    ensures Lookup(a, addr).Some? <==> Lookup(b, addr).Some?
    ensures UnderConfiguration(Lookup(a, addr)) <==> UnderConfiguration(Lookup(b, addr))
  {
    assert Addrs(a) == Addrs(b);
  }

  lemma CallbacksKeepEntries(c: Core, m: CfgMsg)
    ensures SameEntries(c.nodes, AfterCfg(c, m).nodes)
  {
    var i, nodes' := Find(c.nodes, m.addr), AfterCfg(c, m).nodes;
    assert nodes' == c.nodes || (i >= 0 && nodes' == c.nodes[i := c.nodes[i].(lastSeenMs := m.now, online := true)]);
  }

  lemma TrafficKeepsEntries(c: Core, e: NodeStatus.Event)
    requires e.TagStatus? || e.PingMark? || e.PingPublish?
    ensures SameEntries(c.nodes, NodeStatus.After(c, e).nodes)
  {
    if e.TagStatus? { TagStatusKeepsEntries(c, e.src, e.longEnough, e.now, e.mqtt); }
  }

  lemma TagStatusKeepsEntries(c: Core, src: uint16, longEnough: bool, now: uint32, mqtt: bool)
    ensures SameEntries(c.nodes, AfterTagStatus(c, src, longEnough, now, mqtt).nodes)
  {
    var i, nodes' := Find(c.nodes, src), AfterTagStatus(c, src, longEnough, now, mqtt).nodes;
    assert nodes' == c.nodes || (i >= 0 && nodes' == c.nodes[i := c.nodes[i].(lastSeenMs := now, online := true)]);
  }

  lemma OwnedIfSameEntries(s: State, s': State, stranded: set<uint16>)
    requires Owned(s, stranded) && SameEntries(s.core.nodes, s'.core.nodes)
    requires s'.tasks.Keys == s.tasks.Keys
    requires forall t :: t in s.tasks ==>
               s'.tasks[t].Configuring() == s.tasks[t].Configuring()
               && (s.tasks[t].Configuring() ==> s'.tasks[t].addr == s.tasks[t].addr)
    ensures Owned(s', stranded)
  {
    forall a: uint16
      ensures UnderConfiguration(Lookup(s.core.nodes, a)) <==> UnderConfiguration(Lookup(s'.core.nodes, a))
    {
      SameEntriesSameLookup(s.core.nodes, s'.core.nodes, a);
    }
    SameEntriesSameLookup(s.core.nodes, s'.core.nodes, 0);
    forall a: uint16 ensures HasTask(s', a) <==> HasTask(s, a) {
      SameTask(s, s', a);
      SameTask(s', s, a);
    }
  }

  lemma SameTask(s: State, s': State, a: uint16)
    requires s'.tasks.Keys == s.tasks.Keys
    requires forall t :: t in s.tasks && s.tasks[t].Configuring() && s.tasks[t].addr == a ==>
               s'.tasks[t].Configuring() && s'.tasks[t].addr == a
    ensures HasTask(s, a) ==> HasTask(s', a)
  {
  }

  /** The verdict of task `t` settles the entry of its address and no other. */
  lemma VerdictPreservesOwned(s: State, s': State, t: Tid, stranded: set<uint16>)
    requires Owned(s, stranded) && t in s.tasks && s.tasks[t].Configuring()
    requires t in s'.tasks && s'.tasks == s.tasks[t := s'.tasks[t]] && !s'.tasks[t].Configuring()
    requires UniqueAddrs(s'.core.nodes)
    requires forall a: uint16 ::
               if a == s.tasks[t].addr then !UnderConfiguration(Lookup(s'.core.nodes, a))
               else Lookup(s'.core.nodes, a) == Lookup(s.core.nodes, a)
    ensures Owned(s', stranded)
  {
    assert HasTask(s, s.tasks[t].addr);
    forall a: uint16 | a != s.tasks[t].addr ensures HasTask(s', a) <==> HasTask(s, a) {
      SameTask(s, s', a);
      SameTask(s', s, a);
    }
  }

  lemma CleanupPreservesOwned(s: State, t: Tid, stranded: set<uint16>)
    requires Owned(s, stranded) && t in s.tasks && !s.tasks[t].ping && s.tasks[t].pc == Cleanup
    ensures Owned(AfterStep(s, t, true, 0), stranded)
    ensures Lookup(AfterStep(s, t, true, 0).core.nodes, s.tasks[t].addr).None?
  {
    var nodes, s' := s.core.nodes, AfterStep(s, t, true, 0);
    var i := Find(nodes, s.tasks[t].addr);
    forall a: uint16 ensures Lookup(s'.core.nodes, a) == if a == s.tasks[t].addr then None else Lookup(nodes, a) {
      DeleteIsMapRemove(nodes, i, a);
    }
    DeleteIsMapRemove(nodes, i, 0);
    VerdictPreservesOwned(s, s', t, stranded);
  }

  lemma ConfigDoneLookup(c: Core, addr: uint16, a: uint16)
    ensures Addrs(AfterConfigDone(c, addr).nodes) == Addrs(c.nodes)
    ensures Lookup(AfterConfigDone(c, addr).nodes, a)
         == if a == addr && Lookup(c.nodes, a).Some? then Some(Lookup(c.nodes, a).value.(configDone := true))
            else Lookup(c.nodes, a)
  {
    assert Addrs(AfterConfigDone(c, addr).nodes) == Addrs(c.nodes);
  }

  lemma FinishPreservesOwned(s: State, t: Tid, stranded: set<uint16>)
    requires Owned(s, stranded) && t in s.tasks && !s.tasks[t].ping && s.tasks[t].pc == Finish
    ensures Owned(AfterStep(s, t, true, 0), stranded)
    ensures var n := Lookup(AfterStep(s, t, true, 0).core.nodes, s.tasks[t].addr); n.Some? && n.value.configDone
  {
    var s' := AfterStep(s, t, true, 0);
    forall a: uint16
      ensures Lookup(s'.core.nodes, a)
           == if a == s.tasks[t].addr && Lookup(s.core.nodes, a).Some?
              then Some(Lookup(s.core.nodes, a).value.(configDone := true)) else Lookup(s.core.nodes, a)
    {
      ConfigDoneLookup(s.core, s.tasks[t].addr, a);
    }
    ConfigDoneLookup(s.core, s.tasks[t].addr, 0);
    VerdictPreservesOwned(s, s', t, stranded);
  }

  lemma BeaconPreservesOwned(s: State, uuid: Bytes, stranded: set<uint16>)
    requires Owned(s, stranded)
    ensures Owned(After(s, Unprovisioned(uuid)), stranded)
  {
    var s', i := After(s, Unprovisioned(uuid)), FindUuid(s.core.nodes, uuid);
    if i >= 0 && s.core.nodes[i].configDone {
      FindPlaces(s.core.nodes, i);
      forall a: uint16
        ensures Lookup(s'.core.nodes, a) == if a == s.core.nodes[i].addr then None else Lookup(s.core.nodes, a)
      {
        DeleteIsMapRemove(s.core.nodes, i, a);
      }
      DeleteIsMapRemove(s.core.nodes, i, 0);
      forall a: uint16 ensures HasTask(s', a) <==> HasTask(s, a) {}
    }
  }

  lemma ProvisionedLookup(c: Core, addr: uint16, uuid: Bytes, mac: Bytes, a: uint16)
    requires UniqueAddrs(c.nodes) && Find(c.nodes, addr) < 0
    ensures var nodes' := AfterProvisioned(c, addr, uuid, mac).nodes;
            && UniqueAddrs(nodes')
            && (a != addr ==> Lookup(nodes', a) == Lookup(c.nodes, a))
            && (UnderConfiguration(Lookup(nodes', addr)) <==> Launches(c, addr, uuid))
            && (Lookup(nodes', addr).Some? ==> !Lookup(nodes', addr).value.configDone)
  {
    var added, nodes' := Added(c.nodes, addr, uuid, mac), AfterProvisioned(c, addr, uuid, mac).nodes;
    AddKeepsUnique(c.nodes, addr, uuid, mac);
    AddIsMapUpdate(c.nodes, addr, uuid, mac, a);
    AddIsMapUpdate(c.nodes, addr, uuid, mac, addr);
    assert PlaceFor(c.nodes, addr) >= 0 ==> Addrs(nodes') == Addrs(added);
  }

  lemma ProvisionPreservesOwned(s: State, addr: uint16, uuid: Bytes, mac: Bytes, t: Tid,
                                stranded: set<uint16>)
    requires Owned(s, stranded) && Enabled(s, ProvisionDone(addr, uuid, mac, t))
    ensures Owned(After(s, ProvisionDone(addr, uuid, mac, t)), stranded)
  {
    var s' := After(s, ProvisionDone(addr, uuid, mac, t));
    ProvisionedLookup(s.core, addr, uuid, mac, 0);
    forall a: uint16
      ensures a != addr ==> Lookup(s'.core.nodes, a) == Lookup(s.core.nodes, a)
      ensures UnderConfiguration(Lookup(s'.core.nodes, addr)) <==> Launches(s.core, addr, uuid)
    {
      ProvisionedLookup(s.core, addr, uuid, mac, a);
    }
    ProvisionKeepsTasks(s, addr, uuid, mac, t, stranded);
  }

  /** Of the tasks only that of the new address can be new. */
  lemma ProvisionKeepsTasks(s: State, addr: uint16, uuid: Bytes, mac: Bytes, t: Tid, stranded: set<uint16>)
    requires Owned(s, stranded) && Enabled(s, ProvisionDone(addr, uuid, mac, t))
    ensures forall u :: u in s.tasks && s.tasks[u].Configuring() ==> s.tasks[u].addr != addr
    ensures var s' := After(s, ProvisionDone(addr, uuid, mac, t));
            && (HasTask(s', addr) <==> Launches(s.core, addr, uuid))
            && forall a: uint16 :: a != addr ==> (HasTask(s', a) <==> HasTask(s, a))
  {
    var s' := After(s, ProvisionDone(addr, uuid, mac, t));
    forall u | u in s.tasks && s.tasks[u].Configuring() ensures s.tasks[u].addr != addr {
      assert Lookup(s.core.nodes, s.tasks[u].addr).Some?;
    }
    if Launches(s.core, addr, uuid) {
      assert s'.tasks[t].Configuring() && s'.tasks[t].addr == addr;
    }
    forall a: uint16 | a != addr ensures HasTask(s', a) <==> HasTask(s, a) {
      if HasTask(s, a) {
        var u :| u in s.tasks && s.tasks[u].Configuring() && s.tasks[u].addr == a;
        assert s'.tasks[u] == s.tasks[u];
      }
    }
  }

  lemma QuietStepPreservesOwned(s: State, t: Tid, sent: bool, i: nat, stranded: set<uint16>)
    requires Owned(s, stranded) && Enabled(s, Step(t, sent, i))
    requires !s.tasks[t].pc.Cleanup? && !s.tasks[t].pc.Finish?
    ensures Owned(AfterStep(s, t, sent, i), stranded)
  {
    var s' := AfterStep(s, t, sent, i);
    QuietStep(s, t, sent, i);
    forall u | u in s.tasks
      ensures s'.tasks[u].Configuring() == s.tasks[u].Configuring()
      ensures s.tasks[u].Configuring() ==> s'.tasks[u].addr == s.tasks[u].addr
    {
      if u != t { assert s'.tasks[u] == s.tasks[u]; }
    }
    OwnedIfSameEntries(s, s', stranded);
  }

  lemma QuietStep(s: State, t: Tid, sent: bool, i: nat)
    requires Enabled(s, Step(t, sent, i)) && !s.tasks[t].pc.Cleanup? && !s.tasks[t].pc.Finish?
    ensures var s' := AfterStep(s, t, sent, i);
            && s'.core.nodes == s.core.nodes
            && t in s'.tasks && s'.tasks == s.tasks[t := s'.tasks[t]]
            && s'.tasks[t].Configuring() == s.tasks[t].Configuring()
            && (s.tasks[t].Configuring() ==> s'.tasks[t].addr == s.tasks[t].addr)
  {
  }

  lemma OwnedPreserved(s: State, e: Event, stranded: set<uint16>)
    requires Owned(s, stranded) && Bounded(s) && Enabled(s, e)
    ensures Owned(After(s, e), stranded)
  {
    match e {
      case Step(t, sent, i) =>
        if s.tasks[t].pc.Cleanup? { CleanupPreservesOwned(s, t, stranded); }
        else if s.tasks[t].pc.Finish? { FinishPreservesOwned(s, t, stranded); }
        else { QuietStepPreservesOwned(s, t, sent, i, stranded); }
      case Callback(m) =>
        CallbacksKeepEntries(s.core, m);
        OwnedIfSameEntries(s, After(s, e), stranded);
      case Traffic(e0) =>
        TrafficKeepsEntries(s.core, e0);
        OwnedIfSameEntries(s, After(s, e), stranded);
      case Unprovisioned(uuid) => BeaconPreservesOwned(s, uuid, stranded);
      case ProvisionDone(addr, uuid, mac, t) => ProvisionPreservesOwned(s, addr, uuid, mac, t, stranded);
    }
  }

  // ----- whole runs of one boot -----

  /** A boot: some loaded table, an empty slot, and the ping task about to start. */
  function Booted(nodes: Nodes): World {
    World(State(Core(nodes, 0, 0, false, 0, [], None), None, map[0 := Task(0, true, 0, Start)]), map[], {})
  }

  ghost predicate Legal(w: World, es: seq<Event>)
    decreases |es|
  {
    es == [] || (Enabled(w.s, es[0]) && Legal(Observe(w, es[0]), es[1..]))
  }

  ghost function RunFrom(w: World, es: seq<Event>): World
    requires Legal(w, es)
    decreases |es|
  {
    if es == [] then w else RunFrom(Observe(w, es[0]), es[1..])
  }

  ghost predicate Reaches(w: World, es: seq<Event>, w': World) {
    Legal(w, es) && RunFrom(w, es) == w'
  }

  /** The entries a table holds that were being configured when it was saved. */
  ghost function Unfinished(nodes: Nodes): set<uint16> {
    set a: uint16 | UnderConfiguration(Lookup(nodes, a))
  }

  // ----- bounded retries, over runs -----

  /** Sends of `op` a configuration task at `pc` may still attempt. */
  function SendsLeft(pc: Pc, op: nat): int {
    if pc.Start? then RETRIES
    else if !pc.HasOp() then 0
    else if pc.op == op then RETRIES - pc.attempt + if pc.Send? then 1 else 0
    else if op == MODEL_APP_BIND && pc.op == APP_KEY_ADD then RETRIES
    else 0
  }

  /** Steps task `t` takes in a run, and how many of them send `op`. */
  ghost function StepsOf(es: seq<Event>, t: Tid): nat {
    if es == [] then 0 else (if es[0].Step? && es[0].t == t then 1 else 0) + StepsOf(es[1..], t)
  }

  ghost function SendsOf(w: World, es: seq<Event>, t: Tid, op: nat): nat
    requires Legal(w, es)
    decreases |es|
  {
    if es == [] then 0
    else
      var sends := es[0].Step? && es[0].t == t && w.s.tasks[t].pc.Send? && w.s.tasks[t].pc.op == op;
      (if sends then 1 else 0) + SendsOf(Observe(w, es[0]), es[1..], t, op)
  }

  lemma OwnStepUsesUp(s: State, t: Tid, sent: bool, entry: nat, op: nat)
    requires Bounded(s) && Enabled(s, Step(t, sent, entry)) && !s.tasks[t].ping
    requires op in {APP_KEY_ADD, MODEL_APP_BIND}
    ensures var pc, pc' := s.tasks[t].pc, AfterStep(s, t, sent, entry).tasks[t].pc;
            0 <= SendsLeft(pc', op) <= SendsLeft(pc, op) - if pc.Send? && pc.op == op then 1 else 0
    ensures !AfterStep(s, t, sent, entry).tasks[t].ping
  {
  }

  /** In every run a configuration task sends each of its two messages at most three times and
      takes at most 46 steps. */
  lemma {:induction false} AtMostThreeAttempts(w: World, es: seq<Event>, t: Tid, op: nat)
    requires Bounded(w.s) && Legal(w, es) && t in w.s.tasks && !w.s.tasks[t].ping
    requires op in {APP_KEY_ADD, MODEL_APP_BIND}
    ensures SendsOf(w, es, t, op) <= SendsLeft(w.s.tasks[t].pc, op) <= 3
    ensures StepsOf(es, t) <= Rank(w.s.tasks[t].pc) <= 46
    decreases |es|
  {
    if es != [] {
      var w' := Observe(w, es[0]);
      BoundedPreserved(w.s, es[0]);
      if es[0].Step? && es[0].t == t {
        OwnStepUsesUp(w.s, t, es[0].sent, es[0].entry, op);
        TasksEnd(w.s, t, es[0].sent, es[0].entry);
      } else {
        OthersKeepTask(w.s, es[0], t);
      }
      AtMostThreeAttempts(w', es[1..], t, op);
    }
  }

  /** How often a configuration task at `pc` has sent its two messages since its start, as far as its
      place tells. */
  predicate SentSoFar(pc: Pc, keys: nat, binds: nat) {
    if pc.HasOp() then
      var n := pc.attempt - (if pc.Send? then 1 else 0);
      if pc.op == APP_KEY_ADD then keys == n && binds == 0 else binds == n
    else
      && (pc.Start? ==> keys == 0 && binds == 0)
      && (pc.Cleanup? ==> (keys == RETRIES && binds == 0) || binds == RETRIES)
  }

  predicate SendsBy(s: State, e: Event, t: Tid, op: nat) {
    e.Step? && e.t == t && t in s.tasks && s.tasks[t].pc.Send? && s.tasks[t].pc.op == op
  }

  function Tick(n: nat, more: bool): nat { if more then n + 1 else n }

  lemma OwnStepCountsSends(s: State, t: Tid, sent: bool, entry: nat, keys: nat, binds: nat)
    requires Enabled(s, Step(t, sent, entry)) && BoundedTask(s.tasks[t]) && !s.tasks[t].ping
    requires SentSoFar(s.tasks[t].pc, keys, binds)
    ensures var e, k' := Step(t, sent, entry), AfterStep(s, t, sent, entry).tasks[t];
            !k'.ping && SentSoFar(k'.pc, Tick(keys, SendsBy(s, e, t, APP_KEY_ADD)), Tick(binds, SendsBy(s, e, t, MODEL_APP_BIND)))
  {
  }

  lemma EventCountsSends(w: World, e: Event, t: Tid, keys: nat, binds: nat)
    requires Bounded(w.s) && Enabled(w.s, e) && t in w.s.tasks && !w.s.tasks[t].ping
    requires SentSoFar(w.s.tasks[t].pc, keys, binds)
    ensures var w' := Observe(w, e);
            && Bounded(w'.s) && t in w'.s.tasks && !w'.s.tasks[t].ping
            && SentSoFar(w'.s.tasks[t].pc, Tick(keys, SendsBy(w.s, e, t, APP_KEY_ADD)), Tick(binds, SendsBy(w.s, e, t, MODEL_APP_BIND)))
  {
    BoundedPreserved(w.s, e);
    if e.Step? && e.t == t {
      OwnStepCountsSends(w.s, t, e.sent, e.entry, keys, binds);
    } else {
      OthersKeepTask(w.s, e, t);
    }
  }

  lemma FirstSends(w: World, es: seq<Event>, t: Tid, op: nat)
    requires Legal(w, es) && es != []
    ensures SendsOf(w, es, t, op) == Tick(SendsOf(Observe(w, es[0]), es[1..], t, op), SendsBy(w.s, es[0], t, op))
  {
  }

  lemma {:induction false} SendsAreCounted(w: World, es: seq<Event>, t: Tid, keys: nat, binds: nat)
    requires Bounded(w.s) && Legal(w, es) && t in w.s.tasks && !w.s.tasks[t].ping
    requires SentSoFar(w.s.tasks[t].pc, keys, binds)
    ensures t in RunFrom(w, es).s.tasks
    ensures SentSoFar(RunFrom(w, es).s.tasks[t].pc, keys + SendsOf(w, es, t, APP_KEY_ADD), binds + SendsOf(w, es, t, MODEL_APP_BIND))
    decreases |es|
  {
    if es != [] {
      var e := es[0];
      EventCountsSends(w, e, t, keys, binds);
      FirstSends(w, es, t, APP_KEY_ADD);
      FirstSends(w, es, t, MODEL_APP_BIND);
      SendsAreCounted(Observe(w, e), es[1..], t,
                      Tick(keys, SendsBy(w.s, e, t, APP_KEY_ADD)), Tick(binds, SendsBy(w.s, e, t, MODEL_APP_BIND)));
    }
  }

  /** And a task does not give up early: in every run it comes to delete its node only when it has sent
      APP_KEY_ADD three times, or after that MODEL_APP_BIND three times, without an acknowledgement. */
  lemma GivesUpOnlyAfterThree(w: World, es: seq<Event>, t: Tid)
    requires Bounded(w.s) && Legal(w, es) && t in w.s.tasks && !w.s.tasks[t].ping && w.s.tasks[t].pc == Start
    ensures t in RunFrom(w, es).s.tasks
    ensures RunFrom(w, es).s.tasks[t].pc == Cleanup ==>
      || (SendsOf(w, es, t, APP_KEY_ADD) == 3 && SendsOf(w, es, t, MODEL_APP_BIND) == 0)
      || SendsOf(w, es, t, MODEL_APP_BIND) == 3
  {
    SendsAreCounted(w, es, t, 0, 0);
  }

  // ----- the main results -----

  lemma {:induction false} RunKeepsInvariants(w: World, es: seq<Event>, stranded: set<uint16>)
    requires Inv(w) && Owned(w.s, stranded) && Legal(w, es)
    ensures Inv(RunFrom(w, es)) && Owned(RunFrom(w, es).s, stranded)
    decreases |es|
  {
    if es != [] {
      InvPreserved(w, es[0]);
      OwnedPreserved(w.s, es[0], stranded);
      RunKeepsInvariants(Observe(w, es[0]), es[1..], stranded);
    }
  }

  /** In every interleaving the wait slot is set only while a task inside its own wait holds the
      mutex, and then to that task's address and the opcode it waits for. */
  lemma SlotSetOnlyUnderMutex(nodes: Nodes, es: seq<Event>)
    requires UniqueAddrs(nodes) && Legal(Booted(nodes), es)
    ensures var s := RunFrom(Booted(nodes), es).s;
            s.core.waitAddr != 0 || s.core.waitOp != 0 ==>
              && s.holder.Some? && s.holder.value in s.tasks
              && var k := s.tasks[s.holder.value];
                 && (s.core.waitAddr != 0 ==> k.pc.Open() && k.addr == s.core.waitAddr)
                 && (s.core.waitOp != 0 ==> (k.pc.Wait? || k.pc.UnsetAddr? || k.pc.UnsetOp?) && k.pc.op == s.core.waitOp)
  {
    RunKeepsInvariants(Booted(nodes), es, Unfinished(nodes));
  }

  /** In every interleaving an entry that is not configured has exactly one live configuration
      task, except those that a reboot interrupted: these keep their entry for the whole boot,
      and no task ever configures or deletes them. */
  lemma NoZombieButAcrossReboot(nodes: Nodes, es: seq<Event>, a: uint16)
    requires UniqueAddrs(nodes) && Legal(Booted(nodes), es)
    ensures var s := RunFrom(Booted(nodes), es).s;
            UnderConfiguration(Lookup(s.core.nodes, a)) ==> (HasTask(s, a) <==> a !in Unfinished(nodes))
    ensures a in Unfinished(nodes) ==> UnderConfiguration(Lookup(RunFrom(Booted(nodes), es).s.core.nodes, a))
  {
    RunKeepsInvariants(Booted(nodes), es, Unfinished(nodes));
  }

  /** A step that turns an entry configured is the last step of its configuration task, to which
      an error-free APP_KEY_ADD and then an error-free MODEL_APP_BIND acknowledgement came from
      that address, each inside the task's own wait - unless a late APP_KEY_ADD
      acknowledgement hit the half-set slot of its MODEL_APP_BIND wait. */
  lemma ConfiguredOnlyAfterBothAcks(nodes: Nodes, es: seq<Event>, w: World, e: Event, a: uint16)
    requires UniqueAddrs(nodes) && Reaches(Booted(nodes), es, w)
    requires Enabled(w.s, e) && TurnsConfigured(w.s, e, a)
    ensures e.Step? && w.s.tasks[e.t].pc == Finish && w.s.tasks[e.t].addr == a
    ensures SeenBy(w, e.t) == BindSeen || e.t in w.half
  {
    RunKeepsInvariants(Booted(nodes), es, Unfinished(nodes));
    FinishIsAnswered(w, e, a);
  }

  /** The step leaves the entry of the address configured, and it was not before. */
  ghost predicate TurnsConfigured(s: State, e: Event, a: uint16)
    requires Enabled(s, e)
  {
    var n, n' := Lookup(s.core.nodes, a), Lookup(After(s, e).core.nodes, a);
    n'.Some? && n'.value.configDone && !(n.Some? && n.value.configDone)
  }

  lemma FinishIsAnswered(w: World, e: Event, a: uint16)
    requires Inv(w) && UniqueAddrs(w.s.core.nodes) && Enabled(w.s, e) && TurnsConfigured(w.s, e, a)
    ensures e.Step? && w.s.tasks[e.t].pc == Finish && w.s.tasks[e.t].addr == a
    ensures SeenBy(w, e.t) == BindSeen || e.t in w.half
  {
    ConfiguredOnlyByFinish(w.s, e, a);
    assert Ordered(w, e.t);
  }

  lemma ConfiguredOnlyByFinish(s: State, e: Event, a: uint16)
    requires UniqueAddrs(s.core.nodes) && Bounded(s) && Enabled(s, e) && TurnsConfigured(s, e, a)
    ensures e.Step? && s.tasks[e.t].pc == Finish && s.tasks[e.t].addr == a && !s.tasks[e.t].ping
  {
    match e {
      case Step(t, sent, i) =>
        if s.tasks[t].pc.Cleanup? {
          var j := Find(s.core.nodes, s.tasks[t].addr);
          if j >= 0 { DeleteIsMapRemove(s.core.nodes, j, a); }
        } else if s.tasks[t].pc.Finish? {
          ConfigDoneLookup(s.core, s.tasks[t].addr, a);
        }
      case Callback(m) =>
        CallbacksKeepEntries(s.core, m);
        SameEntriesSameLookup(s.core.nodes, After(s, e).core.nodes, a);
      case Traffic(e0) =>
        TrafficKeepsEntries(s.core, e0);
        SameEntriesSameLookup(s.core.nodes, After(s, e).core.nodes, a);
      case Unprovisioned(uuid) =>
        var j := FindUuid(s.core.nodes, uuid);
        if j >= 0 { DeleteIsMapRemove(s.core.nodes, j, a); }
      case ProvisionDone(addr, uuid, mac, t) =>
        ProvisionedLookup(s.core, addr, uuid, mac, a);
    }
  }

  // ----- a filled slot always leads to success -----

  /** The task is in its MODEL_APP_BIND wait with the bit set or taken, or past it. */
  ghost predicate Carried(s: State, t: Tid) {
    && t in s.tasks && !s.tasks[t].ping && s.holder == Some(t)
    && var pc := s.tasks[t].pc;
       || pc.Finish?
       || (pc.HasOp() && pc.op == MODEL_APP_BIND
           && (((pc.SetOp? || pc.Wait?) && s.core.ackBit) || ((pc.UnsetAddr? || pc.UnsetOp?) && pc.got)))
  }

  /** Own steps to the success branch. */
  function StepsToFinish(pc: Pc): nat {
    match pc
    case SetOp(_, _) => 4
    case Wait(_, _) => 3
    case UnsetAddr(_, _, _) => 2
    case UnsetOp(_, _, _) => 1
    case _ => 0
  }

  /** In its MODEL_APP_BIND wait a task's slot is filled by the acknowledgement it waits for, or by
      an APP_KEY_ADD acknowledgement while only half of it is set; either way it is carried. */
  lemma FilledSlotCarries(w: World, t: Tid, m: CfgMsg)
    requires Inv(w) && Enabled(w.s, Callback(m)) && w.s.holder == Some(t) && !w.s.tasks[t].ping
    requires (w.s.tasks[t].pc.SetOp? || w.s.tasks[t].pc.Wait?) && w.s.tasks[t].pc.op == MODEL_APP_BIND
    ensures FillsSlot(w.s.core, m)
       <==> HitsHalfSlot(w.s, m) || (w.s.tasks[t].pc.Wait? && Acknowledges(w.s, m))
    ensures FillsSlot(w.s.core, m) ==> Carried(Observe(w, Callback(m)).s, t)
  {
    CallbacksKeepSlot(w.s.core, m);
  }

  lemma CarriedStep(s: State, e: Event, t: Tid)
    requires Exclusive(s) && Carried(s, t) && Enabled(s, e)
    requires e.Step? && e.t == t ==> !s.tasks[t].pc.Finish?
    ensures Carried(After(s, e), t)
    ensures var own := e.Step? && e.t == t;
            StepsToFinish(After(s, e).tasks[t].pc) == StepsToFinish(s.tasks[t].pc) - if own then 1 else 0
  {
    if e.Callback? { CallbacksKeepSlot(s.core, e.m); }
    if !(e.Step? && e.t == t) { OthersKeepTask(s, e, t); }
    if e.Step? && e.t != t {
      assert s.tasks[e.t].pc.Idle();
      StepKeepsSlot(s, e.t, e.sent, e.entry);
    }
  }

  /** Whatever interleaves, a carried task comes to its success branch with its last own step of the
      wait, and can only leave it by configuring its entry. */
  lemma {:induction false} CarriedToFinish(w: World, es: seq<Event>, t: Tid)
    requires Inv(w) && Carried(w.s, t) && Legal(w, es) && StepsOf(es, t) <= StepsToFinish(w.s.tasks[t].pc)
    ensures var s := RunFrom(w, es).s;
            && Carried(s, t)
            && StepsToFinish(s.tasks[t].pc) == StepsToFinish(w.s.tasks[t].pc) - StepsOf(es, t)
            && (StepsOf(es, t) == StepsToFinish(w.s.tasks[t].pc) ==> s.tasks[t].pc == Finish)
    decreases |es|
  {
    if es != [] {
      CarriedStep(w.s, es[0], t);
      InvPreserved(w, es[0]);
      CarriedToFinish(Observe(w, es[0]), es[1..], t);
    }
  }

  // ----- the exception is real -----

  /** No acknowledgement in the run is of anything but APP_KEY_ADD. */
  ghost predicate OnlyKeyAcks(es: seq<Event>) {
    forall i :: 0 <= i < |es| && es[i].Callback? ==> es[i].m.op == APP_KEY_ADD
  }

  lemma {:induction false} Compose(w: World, es: seq<Event>, w1: World, fs: seq<Event>, w2: World)
    requires Reaches(w, es, w1) && Reaches(w1, fs, w2)
    ensures Reaches(w, es + fs, w2)
    ensures OnlyKeyAcks(es) && OnlyKeyAcks(fs) ==> OnlyKeyAcks(es + fs)
    decreases |es|
  {
    if es == [] {
      assert es + fs == fs;
    } else {
      Compose(Observe(w, es[0]), es[1..], w1, fs, w2);
      assert (es + fs)[1..] == es[1..] + fs;
    }
  }

  function OwnSteps(t: Tid, n: nat): seq<Event> {
    if n == 0 then [] else [Step(t, true, 0)] + OwnSteps(t, n - 1)
  }

  /** Task `t` stands alone at `pc` with the slot and the bit as given. */
  ghost predicate Stands(w: World, t: Tid, k: Task, pc: Pc, core: Core, seen: Seen, half: bool) {
    && t in w.s.tasks && w.s.tasks[t] == k.(pc := pc) && w.s.holder == Some(t)
    && w.s.core == core && SeenBy(w, t) == seen && (t in w.half) == half
  }

  /** Where an undisturbed step of the wait takes a task, and what it makes of slot and bit. */
  function PcAfter(k: Task, pc: Pc, bit: bool): Pc {
    match pc
    case Send(op, a) => Clear(op, a)
    case Clear(op, a) => SetAddr(op, a)
    case SetAddr(op, a) => SetOp(op, a)
    case SetOp(op, a) => Wait(op, a)
    case Wait(op, a) => UnsetAddr(op, a, bit)
    case UnsetAddr(op, a, got) => UnsetOp(op, a, got)
    case UnsetOp(op, a, got) => Continue(k, op, a, got)
    case _ => pc
  }

  function CoreAfter(k: Task, pc: Pc, core: Core): Core {
    match pc
    case Clear(_, _) => core.(ackBit := false)
    case SetAddr(_, _) => core.(waitAddr := k.addr)
    case SetOp(op, _) => core.(waitOp := op)
    case Wait(_, _) => core.(ackBit := false)
    case UnsetAddr(_, _, _) => core.(waitAddr := 0)
    case UnsetOp(_, _, _) => core.(waitOp := 0)
    case _ => core
  }

  lemma OneStep(w: World, t: Tid, k: Task, pc: Pc, core: Core, seen: Seen, half: bool) returns (w': World)
    requires Stands(w, t, k, pc, core, seen, half) && !k.ping && pc.HasOp()
    ensures Reaches(w, OwnSteps(t, 1), w') && OnlyKeyAcks(OwnSteps(t, 1))
    ensures Stands(w', t, k, PcAfter(k, pc, core.ackBit), CoreAfter(k, pc, core), seen, half)
  {
    w' := Observe(w, Step(t, true, 0));
    assert OwnSteps(t, 1) == [Step(t, true, 0)] && [Step(t, true, 0)][1..] == [];
  }

  /** From the first send to the half-set slot. */
  lemma ToHalfSlot(w: World, t: Tid, k: Task, op: nat, core: Core, seen: Seen) returns (w': World, es: seq<Event>)
    requires Stands(w, t, k, Send(op, 1), core, seen, false) && !k.ping && core.waitAddr == core.waitOp == 0
    ensures Reaches(w, es, w') && OnlyKeyAcks(es)
    ensures Stands(w', t, k, SetOp(op, 1), core.(ackBit := false, waitAddr := k.addr), seen, false)
  {
    var w1 := OneStep(w, t, k, Send(op, 1), core, seen, false);
    var w2 := OneStep(w1, t, k, Clear(op, 1), core, seen, false);
    var w3 := OneStep(w2, t, k, SetAddr(op, 1), core.(ackBit := false), seen, false);
    Compose(w, OwnSteps(t, 1), w1, OwnSteps(t, 1), w2);
    es := OwnSteps(t, 1) + OwnSteps(t, 1);
    Compose(w, es, w2, OwnSteps(t, 1), w3);
    es, w' := es + OwnSteps(t, 1), w3;
  }

  /** From the half-set slot with the bit set, to what follows the wait. */
  lemma FromFilledSlot(w: World, t: Tid, k: Task, op: nat, core: Core, seen: Seen, half: bool)
    returns (w': World, es: seq<Event>)
    requires Stands(w, t, k, Wait(op, 1), core, seen, half) && !k.ping
    requires core.waitAddr == k.addr && core.waitOp == op && core.ackBit
    ensures Reaches(w, es, w') && OnlyKeyAcks(es)
    ensures Stands(w', t, k, Continue(k, op, 1, true), core.(waitAddr := 0, waitOp := 0, ackBit := false), seen, half)
  {
    var w1 := OneStep(w, t, k, Wait(op, 1), core, seen, half);
    var c1 := core.(ackBit := false);
    var w2 := OneStep(w1, t, k, UnsetAddr(op, 1, true), c1, seen, half);
    var w3 := OneStep(w2, t, k, UnsetOp(op, 1, true), c1.(waitAddr := 0), seen, half);
    Compose(w, OwnSteps(t, 1), w1, OwnSteps(t, 1), w2);
    es := OwnSteps(t, 1) + OwnSteps(t, 1);
    Compose(w, es, w2, OwnSteps(t, 1), w3);
    es, w' := es + OwnSteps(t, 1), w3;
  }

  /** An error-free APP_KEY_ADD acknowledgement. */
  function KeyAck(addr: uint16): CfgMsg { CfgMsg(SetState, addr, APP_KEY_ADD, 0, 0, true) }

  lemma KeyAckLands(w: World, t: Tid, k: Task, pc: Pc, core: Core, seen: Seen) returns (w': World)
    requires Stands(w, t, k, pc, core, seen, false) && !k.ping && k.addr != 0
    requires core.waitAddr == k.addr && core.waitOp == 0 && pc.HasOp()
    requires (pc.Wait? && pc.op == APP_KEY_ADD && seen == Nothing) || (pc.SetOp? && pc.op == MODEL_APP_BIND)
    ensures Reaches(w, [Callback(KeyAck(k.addr))], w')
    ensures Stands(w', t, k, pc, core.(ackBit := true), if pc.Wait? then KeySeen else seen, pc.SetOp?)
  {
    var e := Callback(KeyAck(k.addr));
    w' := Observe(w, e);
    assert [e][1..] == [];
  }

  /** From power-up: a scanner is provisioned, acknowledges APP_KEY_ADD, and repeats that
      acknowledgement while its MODEL_APP_BIND slot is half set. The step that follows turns its
      entry configured, and no MODEL_APP_BIND acknowledgement ever came. */
  lemma LateKeyAckPassesForBind(mac: Bytes) returns (es: seq<Event>, w: World, e: Event)
    ensures Reaches(Booted(Erased()), es, w) && OnlyKeyAcks(es) && Enabled(w.s, e)
    ensures e.Step? && TurnsConfigured(w.s, e, 2) && SeenBy(w, e.t) == KeySeen
  {
    var w0 := Booted(Erased());
    var w1, k, core, es1 := FirstConfigTask(mac);
    var w2, es2 := ToHalfSlot(w1, 1, k, APP_KEY_ADD, core, Nothing);
    var half := core.(ackBit := false, waitAddr := 2);
    var w3 := OneStep(w2, 1, k, SetOp(APP_KEY_ADD, 1), half, Nothing, false);
    var w4 := KeyAckLands(w3, 1, k, Wait(APP_KEY_ADD, 1), half, Nothing);
    var w5, es5 := FromFilledSlot(w4, 1, k, APP_KEY_ADD, half.(ackBit := true), KeySeen, false);
    var w6, es6 := ToHalfSlot(w5, 1, k, MODEL_APP_BIND, core.(ackBit := false), KeySeen);
    var w7 := KeyAckLands(w6, 1, k, SetOp(MODEL_APP_BIND, 1), half, KeySeen);
    var w8 := OneStep(w7, 1, k, SetOp(MODEL_APP_BIND, 1), half.(ackBit := true), KeySeen, true);
    var w9, es9 := FromFilledSlot(w8, 1, k, MODEL_APP_BIND, half.(ackBit := true, waitOp := MODEL_APP_BIND), KeySeen, true);
    Compose(w0, es1, w1, es2, w2);
    es := es1 + es2;
    Compose(w0, es, w2, OwnSteps(1, 1), w3);
    es := es + OwnSteps(1, 1);
    Compose(w0, es, w3, [Callback(KeyAck(2))], w4);
    es := es + [Callback(KeyAck(2))];
    Compose(w0, es, w4, es5, w5);
    es := es + es5;
    Compose(w0, es, w5, es6, w6);
    es := es + es6;
    Compose(w0, es, w6, [Callback(KeyAck(2))], w7);
    es := es + [Callback(KeyAck(2))];
    Compose(w0, es, w7, OwnSteps(1, 1), w8);
    es := es + OwnSteps(1, 1);
    Compose(w0, es, w8, es9, w9);
    es := es + es9;
    w, e := w9, Step(1, true, 0);
    FinishTurnsConfigured(w, 1, k);
  }

  lemma Single(w: World, e: Event) returns (w': World)
    requires Enabled(w.s, e)
    ensures Reaches(w, [e], w') && w' == Observe(w, e)
  {
    w' := Observe(w, e);
    assert [e][1..] == [];
  }

  /** The scanner at address 2 is provisioned, and its task takes the mutex. */
  lemma FirstConfigTask(mac: Bytes) returns (w: World, k: Task, core: Core, es: seq<Event>)
    ensures k == Task(2, false, 0, Start) && Reaches(Booted(Erased()), es, w) && OnlyKeyAcks(es)
    ensures Stands(w, 1, k, Send(APP_KEY_ADD, 1), core, Nothing, false)
    ensures core.waitAddr == core.waitOp == 0 && UnderConfiguration(Lookup(core.nodes, 2))
  {
    var e := ProvisionDone(2, NodeStatus.SCAN_UUID, mac, 1);
    EmptyTable(2);
    var w1 := Single(Booted(Erased()), e);
    k := Task(2, false, 0, Start);
    ProvisionedLookup(Booted(Erased()).s.core, 2, NodeStatus.SCAN_UUID, mac, 2);
    assert IsScanUuid(NodeStatus.SCAN_UUID);
    assert w1.s.tasks[1] == k && w1.s.holder.None?;
    w := Single(w1, Step(1, true, 0));
    Compose(Booted(Erased()), [e], w1, [Step(1, true, 0)], w);
    es := [e] + [Step(1, true, 0)];
    core := w1.s.core;
  }

  lemma EmptyTable(addr: uint16)
    ensures UniqueAddrs(Erased()) && Find(Erased(), addr) == -1 && PlaceFor(Erased(), addr) == 0
  {
    var ids := Addrs(Erased());
    assert forall i :: 0 <= i < MAX_NODES ==> ids[i] == None;
    IndexOfIs(ids, Some(addr), MAX_NODES);
    IndexOfIs(ids, None, 0);
  }

  lemma FinishTurnsConfigured(w: World, t: Tid, k: Task)
    requires t in w.s.tasks && w.s.tasks[t] == k.(pc := Finish) && w.s.holder == Some(t)
    requires UnderConfiguration(Lookup(w.s.core.nodes, k.addr))
    ensures Enabled(w.s, Step(t, true, 0)) && TurnsConfigured(w.s, Step(t, true, 0), k.addr)
  {
    ConfigDoneLookup(w.s.core, k.addr, k.addr);
  }
}
