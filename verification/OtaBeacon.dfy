/** The OTA beacon: the gateway's 14-byte frame, the scanner's loop that looks for it in every
    advertisement, and the cooldown that makes one broadcast trigger one update. */
module OtaBeacon {
  import opened Machine
  import opened EpochAuth
  import opened AdvParser

  const SCANNER: byte := 0x01
  const ALL: byte := 0xFF
  const COOLDOWN_US := 20_000_000

  /** `None` stands for a key that is absent or a MAC computation that fails. */
  function MacUnder(h: Hmac, key: Option<Bytes>, data: Bytes): uint16 {
    if key.None? then 0 else Mac16(h, key.value, data)
  }

  /** The five bytes under the MAC: "BMT", the command, the target. */
  function Covered(target: byte): Bytes {
    [0x42, 0x4D, 0x54, 0xFA, target]
  }

  function BeaconField(target: byte, mac: uint16): Bytes {
    [0xFF, 0xE5, 0x02] + Covered(target) + [(mac / 0x100) as byte, (mac % 0x100) as byte]
  }

  function BeaconFrame(target: byte, mac: uint16): Bytes {
    [0x02, 0x01, 0x06, 0x0A] + BeaconField(target, mac)
  }

  // ----- the gateway -----

  class Sender {
    const hmac: Hmac
    const raw: array<byte>

    ghost predicate Valid()
      reads this, raw
    {
      raw.Length == 14 && raw[..11] == BeaconFrame(0, 0)[..11]
    }

    constructor (h: Hmac)
      ensures Valid() && fresh(raw) && hmac == h
    {
      var a := new byte[] [0x02, 0x01, 0x06, 0x0A, 0xFF, 0xE5, 0x02, 0x42, 0x4D, 0x54, 0xFA, 0x01, 0x00, 0x00];
      assert a[..11] == BeaconFrame(0, 0)[..11];
      hmac, raw := h, a;
    }

    /** `beacon_send` up to handing the frame to the radio. */
    method BeaconSend(key: Option<Bytes>, target: byte)
      requires Valid()
      modifies raw
      ensures Valid() && raw[..] == BeaconFrame(target, MacUnder(hmac, key, Covered(target)))
    {
      assert forall i :: 0 <= i < 11 ==> raw[i] == raw[..11][i];
      raw[11] := target;
      assert raw[7..12] == Covered(target);
      var mac := MacUnder(hmac, key, raw[7..12]);
      raw[12] := (mac / 0x100) as byte;
      raw[13] := (mac % 0x100) as byte;
      assert raw[..] == BeaconFrame(target, mac);
    }
  }

  // ----- what a scanner looks for -----

  /** The AD structures of an advertisement, the last one cut off where the buffer ends. */
  function Clipped(b: Bytes): seq<Bytes> {
    if |b| == 0 || b[0] == 0 then []
    else if b[0] as int >= |b| then [b[1..]]
    else [b[1..1 + b[0] as int]] + Clipped(b[1 + b[0] as int..])
  }

  predicate IsBeacon(f: Bytes) {
    && |f| >= 10 && f[0] == 0xFF && f[1] == 0xE5 && f[2] == 0x02
    && f[3] == 0x42 && f[4] == 0x4D && f[5] == 0x54 && f[6] == 0xFA && (f[7] == SCANNER || f[7] == ALL)
  }

  function FirstBeacon(fs: seq<Bytes>): (r: Option<Bytes>)
    ensures r.Some? ==> r.value in fs && IsBeacon(r.value)
    ensures r.None? ==> forall f :: f in fs ==> !IsBeacon(f)
  {
    if |fs| == 0 then None else if IsBeacon(fs[0]) then Some(fs[0]) else FirstBeacon(fs[1..])
  }

  function MacOf(f: Bytes): uint16
    requires IsBeacon(f)
  {
    f[8] as int * 0x100 + f[9] as int
  }

  /** The MAC of the beacon an advertisement carries: only its first beacon counts, and only if
      the MAC is right. */
  function Carried(h: Hmac, key: Option<Bytes>, adv: Bytes): Option<uint16> {
    var f := FirstBeacon(Clipped(adv));
    if f.Some? && MacOf(f.value) == MacUnder(h, key, f.value[3..8]) then Some(MacOf(f.value)) else None
  }

  /** What the scanner remembers of the last beacon it acted on. */
  datatype Memory = Memory(mac: uint16, us: int)

  const NEVER := Memory(0, -COOLDOWN_US)

  predicate Cooling(m: Memory, mac: uint16, now: int) {
    mac == m.mac && now - m.us < COOLDOWN_US
  }

  /** One advertisement at one time; `busy` when an update is already under way. */
  datatype Sighting = Sighting(now: int, busy: bool, adv: Bytes)

  predicate Triggers(h: Hmac, key: Option<Bytes>, m: Memory, s: Sighting) {
    var mac := Carried(h, key, s.adv);
    !s.busy && mac.Some? && !Cooling(m, mac.value, s.now)
  }

  function After(h: Hmac, key: Option<Bytes>, m: Memory, s: Sighting): Memory {
    if Triggers(h, key, m, s) then Memory(Carried(h, key, s.adv).value, s.now) else m
  }

  // ----- the loop -----

  /** What is left to find from index `i` on; the walk may step past the end. */
  function BeaconFrom(adv: Bytes, i: nat): (r: Option<Bytes>)
    ensures r.Some? ==> IsBeacon(r.value)
  {
    if i <= |adv| then FirstBeacon(Clipped(adv[i..])) else None
  }

  predicate BeaconAt(adv: Bytes, i: nat)
    requires i + 10 < |adv|
  {
    && adv[i + 1] == 0xFF && adv[i] >= 10 && adv[i + 2] == 0xE5 && adv[i + 3] == 0x02
    && adv[i + 4] == 0x42 && adv[i + 5] == 0x4D && adv[i + 6] == 0x54 && adv[i + 7] == 0xFA
    && (adv[i + 8] == SCANNER || adv[i + 8] == ALL)
  }

  lemma {:induction false} TooShort(b: Bytes)
    requires |b| <= 10
    ensures FirstBeacon(Clipped(b)) == None
    decreases |b|
  {
    if Clipped(b) != [] {
      if (b[0] as int) < |b| { TooShort(b[1 + b[0] as int..]); }
      assert !IsBeacon(Clipped(b)[0]);
    }
  }

  lemma BeaconStep(adv: Bytes, i: nat)
    requires i + 10 < |adv|
    ensures var r := BeaconFrom(adv, i); var n := adv[i] as int;
            if n == 0 then r == None
            else if BeaconAt(adv, i) then r.Some? && r.value[3..8] == adv[i + 4..i + 9]
                                          && r.value[8] == adv[i + 9] && r.value[9] == adv[i + 10]
            else r == BeaconFrom(adv, i + n + 1)
  {
    var b, n := adv[i..], adv[i] as int;
    if n != 0 {
      var end := if n < |b| then 1 + n else |b|;
      var f := b[1..end];
      assert forall k :: 0 <= k < |f| ==> f[k] == adv[i + 1 + k];
      assert IsBeacon(f) <==> BeaconAt(adv, i);
      assert Clipped(b)[0] == f;
      if IsBeacon(f) {
        assert f[3..8] == adv[i + 4..i + 9];
      } else if n < |b| {
        assert b[1 + n..] == adv[i + n + 1..];
        assert Clipped(b)[1..] == Clipped(adv[i + n + 1..]);
      } else {
        assert Clipped(b)[1..] == [];
      }
    }
  }

  function MacAt(adv: Bytes, i: nat): uint16
    requires i + 10 < |adv|
  {
    adv[i + 9] as int * 0x100 + adv[i + 10] as int
  }

  /** The MAC carried from index `i` on. */
  function CarriedFrom(h: Hmac, key: Option<Bytes>, adv: Bytes, i: nat): Option<uint16> {
    var f := BeaconFrom(adv, i);
    if f.Some? && MacOf(f.value) == MacUnder(h, key, f.value[3..8]) then Some(MacOf(f.value)) else None
  }

  lemma CarriedStart(h: Hmac, key: Option<Bytes>, adv: Bytes)
    ensures CarriedFrom(h, key, adv, 0) == Carried(h, key, adv)
  {
    assert adv[0..] == adv;
  }

  lemma CarriedEnd(h: Hmac, key: Option<Bytes>, adv: Bytes, i: nat)
    requires i + 10 >= |adv| || adv[i] == 0
    ensures CarriedFrom(h, key, adv, i) == None
  {
    if i + 10 < |adv| {
      BeaconStep(adv, i);
    } else if i <= |adv| {
      TooShort(adv[i..]);
    }
  }

  lemma CarriedStep(h: Hmac, key: Option<Bytes>, adv: Bytes, i: nat)
    requires i + 10 < |adv| && adv[i] != 0
    ensures CarriedFrom(h, key, adv, i)
         == if !BeaconAt(adv, i) then CarriedFrom(h, key, adv, i + adv[i] as int + 1)
            else if MacAt(adv, i) == MacUnder(h, key, adv[i + 4..i + 9]) then Some(MacAt(adv, i)) else None
  {
    BeaconStep(adv, i);
  }

  class Listener {
    const hmac: Hmac
    var key: Option<Bytes>
    var lastMac: uint16
    var lastUs: int

    function Value(): Memory
      reads this
    {
      Memory(lastMac, lastUs)
    }

    constructor (h: Hmac, k: Option<Bytes>)
      ensures Value() == NEVER && hmac == h && key == k
    {
      hmac, key, lastMac, lastUs := h, k, 0, -COOLDOWN_US;
    }

    /** A beacon at index `i`: its MAC is checked, then the cooldown. */
    method ActOn(adv: Bytes, i: nat, now: int) returns (trigger: bool)
      requires i + 10 < |adv|
      modifies this`lastMac, this`lastUs
      ensures var mac := MacAt(adv, i);
              && trigger == (mac == MacUnder(hmac, key, adv[i + 4..i + 9]) && !Cooling(old(Value()), mac, now))
              && Value() == if trigger then Memory(mac, now) else old(Value())
    {
      var received: uint16 := adv[i + 9] as int * 0x100 + adv[i + 10] as int;
      var expected := MacUnder(hmac, key, adv[i + 4..i + 9]);
      if received != expected || Cooling(Value(), received, now) { return false; }
      lastMac, lastUs := received, now;
      trigger := true;
    }

    /** The OTA part of the scan callback: every read is in bounds, and the walk acts on the
        first beacon of the declarative split, or on none. */
    method OnAdvert(s: Sighting) returns (trigger: bool)
      modifies this`lastMac, this`lastUs
      ensures trigger == Triggers(hmac, key, old(Value()), s)
      ensures Value() == After(hmac, key, old(Value()), s)
    {
      trigger := false;
      if s.busy { return; }
      var adv := s.adv;
      ghost var carried := Carried(hmac, key, adv);
      CarriedStart(hmac, key, adv);
      var i := 0;
      while i + 10 < |adv|
        invariant 0 <= i && CarriedFrom(hmac, key, adv, i) == carried
        invariant Value() == old(Value())
        decreases |adv| - i
      {
        var fieldLen := adv[i] as int;
        if fieldLen == 0 {
          CarriedEnd(hmac, key, adv, i);
          return;
        }
        CarriedStep(hmac, key, adv, i);
        if BeaconAt(adv, i) {
          trigger := ActOn(adv, i, s.now);
          return;
        }
        i := i + fieldLen + 1;
      }
      CarriedEnd(hmac, key, adv, i);
    }
  }

  // ----- against the strict split -----

  /** Unlike the tag parser, the loop does not check that a structure ends inside the buffer.
      The two splits of a byte string agree except for one last overlong structure. */
  lemma {:induction false} ClippedExtendsFields(b: Bytes)
    ensures Clipped(b) == Fields(b) || exists last :: Clipped(b) == Fields(b) + [last]
    decreases |b|
  {
    if |b| > 0 && b[0] != 0 {
      if b[0] as int >= |b| {
        assert Clipped(b) == Fields(b) + [b[1..]];
      } else {
        var rest := b[1 + b[0] as int..];
        ClippedExtendsFields(rest);
        if Clipped(rest) != Fields(rest) {
          var last :| Clipped(rest) == Fields(rest) + [last];
          assert Clipped(b) == Fields(b) + [last];
        }
      }
    }
  }

  /** So the loop finds everything a strict parser would, at the same place. */
  lemma StrictBeaconIsFound(b: Bytes)
    requires FirstBeacon(Fields(b)).Some?
    ensures FirstBeacon(Clipped(b)) == FirstBeacon(Fields(b))
  {
    ClippedExtendsFields(b);
    if Clipped(b) != Fields(b) {
      var last :| Clipped(b) == Fields(b) + [last];
      FirstOfPrefix(Fields(b), [last]);
    }
  }

  /** And in one case more: a structure whose length runs past the end is still taken. */
  lemma OverlongBeaconIsFound(h: Hmac, key: Option<Bytes>)
    ensures var adv := [11] + BeaconField(SCANNER, MacUnder(h, key, Covered(SCANNER)));
            Fields(adv) == [] && Carried(h, key, adv).Some?
  {
    var f := BeaconField(SCANNER, MacUnder(h, key, Covered(SCANNER)));
    var adv := [11] + f;
    assert adv[1..] == f && Clipped(adv) == [f];
    assert f[3..8] == Covered(SCANNER);
  }

  lemma {:induction false} FirstOfPrefix(fs: seq<Bytes>, gs: seq<Bytes>)
    ensures FirstBeacon(fs + gs) == if FirstBeacon(fs).Some? then FirstBeacon(fs) else FirstBeacon(gs)
  {
    if |fs| == 0 {
      assert fs + gs == gs;
    } else {
      FirstOfPrefix(fs[1..], gs);
      assert (fs + gs)[1..] == fs[1..] + gs;
    }
  }

  // ----- round trip -----

  lemma {:induction false} ClippedOfJoin(fs: seq<Bytes>, rest: Bytes)
    requires Structures(fs)
    ensures Clipped(Join(fs) + rest) == fs + Clipped(rest)
  {
    if |fs| == 0 {
      assert Join(fs) + rest == rest;
    } else {
      ClippedOfJoin(fs[1..], rest);
      FirstClipped(fs[0], Join(fs[1..]) + rest);
      Regroup([|fs[0]| as byte] + fs[0], Join(fs[1..]), rest);
      Regroup([fs[0]], fs[1..], Clipped(rest));
      assert [fs[0]] + fs[1..] == fs;
    }
  }

  lemma FirstClipped(f: Bytes, rest: Bytes)
    requires 0 < |f| < 0x100
    ensures Clipped([|f| as byte] + f + rest) == [f] + Clipped(rest)
  {
    var b: Bytes := [|f| as byte] + f + rest;
    assert b[1..1 + |f|] == f && b[1 + |f|..] == rest;
  }

  /** The gateway's frame behind any structures without a beacon, and before any bytes whatever:
      the scanner compares the MAC in it with one over the same five bytes, so it takes the
      beacon exactly when the two MACs agree, and always under the same key. */
  lemma BeaconRoundTrip(h: Hmac, gateway: Option<Bytes>, scanner: Option<Bytes>, target: byte, before: seq<Bytes>, rest: Bytes)
    requires Structures(before) && FirstBeacon(before) == None && (target == SCANNER || target == ALL)
    ensures var mac := MacUnder(h, gateway, Covered(target));
            var adv := Join(before) + BeaconFrame(target, mac) + rest;
            && Carried(h, scanner, adv) == (if mac == MacUnder(h, scanner, Covered(target)) then Some(mac) else None)
            && (gateway == scanner ==> Carried(h, scanner, adv) == Some(mac))
  {
    var mac := MacUnder(h, gateway, Covered(target));
    FoundBehind(before, target, mac, rest);
    assert BeaconField(target, mac)[3..8] == Covered(target);
  }

  lemma BeaconIsJoin(target: byte, mac: uint16)
    ensures BeaconFrame(target, mac) == Join([[0x01, 0x06], BeaconField(target, mac)])
  {
    var flags, f: Bytes := [0x01, 0x06], BeaconField(target, mac);
    assert Join([f]) == [10] + f && [flags, f][1..] == [f];
  }

  lemma FoundBehind(before: seq<Bytes>, target: byte, mac: uint16, rest: Bytes)
    requires Structures(before) && FirstBeacon(before) == None && (target == SCANNER || target == ALL)
    ensures FirstBeacon(Clipped(Join(before) + BeaconFrame(target, mac) + rest)) == Some(BeaconField(target, mac))
  {
    var flags, f: Bytes := [0x01, 0x06], BeaconField(target, mac);
    BeaconIsJoin(target, mac);
    SplitBehind(before, [flags, f], rest);
    FirstBehind(before, flags, f, Clipped(rest));
  }

  lemma SplitBehind(before: seq<Bytes>, fs: seq<Bytes>, rest: Bytes)
    requires Structures(before) && Structures(fs)
    ensures Clipped(Join(before) + Join(fs) + rest) == before + (fs + Clipped(rest))
  {
    Regroup(Join(before), Join(fs), rest);
    ClippedOfJoin(before, Join(fs) + rest);
    ClippedOfJoin(fs, rest);
  }

  lemma FirstBehind(before: seq<Bytes>, f: Bytes, g: Bytes, tail: seq<Bytes>)
    requires FirstBeacon(before) == None && !IsBeacon(f) && IsBeacon(g)
    ensures FirstBeacon(before + ([f, g] + tail)) == Some(g)
  {
    FirstOfPrefix(before, [f, g] + tail);
    FirstOfPrefix([f, g], tail);
    assert [f, g][1..] == [g];
  }

  // ----- nothing else is taken -----

  ghost predicate BeaconWith(f: Bytes, target: byte, mac: uint16, tail: Bytes) {
    target in {0x01, 0xFF} && f == BeaconField(target, mac) + tail
  }

  /** A scanner looks for the gateway's beacons to scanners or to all, and for nothing else. */
  lemma IsBeaconIff(f: Bytes)
    ensures IsBeacon(f) <==> exists target, mac, tail :: BeaconWith(f, target, mac, tail)
  {
    if IsBeacon(f) {
      assert f == BeaconField(f[7], MacOf(f)) + f[10..];
      assert BeaconWith(f, f[7], MacOf(f), f[10..]);
    }
  }

  /** A beacon to other nodes is passed over: what counts is what follows it. */
  lemma OtherTargetIsPassedOver(h: Hmac, key: Option<Bytes>, target: byte, mac: uint16, before: seq<Bytes>, rest: Bytes)
    requires Structures(before) && FirstBeacon(before) == None && target !in {0x01, 0xFF}
    ensures Carried(h, key, Join(before) + BeaconFrame(target, mac) + rest) == Carried(h, key, rest)
  {
    var fs := [[0x01, 0x06], BeaconField(target, mac)];
    BeaconIsJoin(target, mac);
    SplitBehind(before, fs, rest);
    FirstOfPrefix(before, fs + Clipped(rest));
    FirstOfPrefix(fs, Clipped(rest));
    assert fs[1..] == [BeaconField(target, mac)] && fs[1..][1..] == [];
  }

  /** A scanner without a key takes exactly the beacons whose MAC is zero, as a gateway without one
      sends them. */
  lemma KeylessScannerTakesZeroMac(h: Hmac, adv: Bytes)
    ensures var f := FirstBeacon(Clipped(adv));
            Carried(h, None, adv) == if f.Some? && f.value[8] == 0 && f.value[9] == 0 then Some(0) else None
    ensures forall target: byte :: MacUnder(h, None, Covered(target)) == 0
  {
    var f := FirstBeacon(Clipped(adv));
    if f.Some? { assert MacOf(f.value) == f.value[8] as int * 0x100 + f.value[9] as int; }
  }

  // ----- what a scanner acts on -----

  /** A beacon acted on, and when. */
  datatype Act = Act(mac: uint16, us: int)

  /** Over a run from power-up: an idle scanner acts on a beacon it can verify, unless the last one it
      acted on had the same MAC and is less than 20 s old. */
  function Acted(h: Hmac, key: Option<Bytes>, ss: seq<Sighting>): seq<Act> {
    if |ss| == 0 then []
    else
      var acts, s := Acted(h, key, ss[..|ss| - 1]), ss[|ss| - 1];
      var mac := Carried(h, key, s.adv);
      if !s.busy && mac.Some?
         && (|acts| == 0 || acts[|acts| - 1].mac != mac.value || s.now - acts[|acts| - 1].us >= 20_000_000)
      then acts + [Act(mac.value, s.now)] else acts
  }

  function MemoryRun(h: Hmac, key: Option<Bytes>, ss: seq<Sighting>): Memory {
    if |ss| == 0 then NEVER else After(h, key, MemoryRun(h, key, ss[..|ss| - 1]), ss[|ss| - 1])
  }

  /** What a memory of one beacon holds of the acts so far. */
  function LastAct(acts: seq<Act>): Memory {
    if |acts| == 0 then NEVER else Memory(acts[|acts| - 1].mac, acts[|acts| - 1].us)
  }

  /** That memory is enough: it triggers exactly then, so a beacon with another MAC triggers at once
      and the same one again after 20 s. */
  lemma MemoryServesActed(h: Hmac, key: Option<Bytes>, ss: seq<Sighting>, s: Sighting)
    requires SinceBoot(ss) && s.now >= 0
    ensures MemoryRun(h, key, ss) == LastAct(Acted(h, key, ss))
    ensures Triggers(h, key, MemoryRun(h, key, ss), s) <==> |Acted(h, key, ss + [s])| > |Acted(h, key, ss)|
  {
    MemoryIsLastAct(h, key, ss);
    ActsIffTriggers(h, key, ss, s);
  }

  predicate SinceBoot(ss: seq<Sighting>) { |ss| > 0 ==> ss[|ss| - 1].now >= 0 && SinceBoot(ss[..|ss| - 1]) }

  lemma {:induction false} MemoryIsLastAct(h: Hmac, key: Option<Bytes>, ss: seq<Sighting>)
    requires SinceBoot(ss)
    ensures MemoryRun(h, key, ss) == LastAct(Acted(h, key, ss))
  {
    if |ss| > 0 {
      var init, last := ss[..|ss| - 1], ss[|ss| - 1];
      MemoryIsLastAct(h, key, init);
      ActsIffTriggers(h, key, init, last);
      assert init + [last] == ss;
    }
  }

  lemma ActsIffTriggers(h: Hmac, key: Option<Bytes>, ss: seq<Sighting>, s: Sighting)
    requires s.now >= 0
    ensures var acts := Acted(h, key, ss);
            Acted(h, key, ss + [s])
              == if Triggers(h, key, LastAct(acts), s) then acts + [Act(Carried(h, key, s.adv).value, s.now)] else acts
  {
    assert (ss + [s])[..|ss|] == ss;
  }

  // ----- one broadcast, one update -----

  function Count(h: Hmac, key: Option<Bytes>, m: Memory, ss: seq<Sighting>): nat
    decreases |ss|
  {
    if |ss| == 0 then 0
    else (if Triggers(h, key, m, ss[0]) then 1 else 0) + Count(h, key, After(h, key, m, ss[0]), ss[1..])
  }

  /** Advertisements of one broadcast among foreign ones. */
  ghost predicate Broadcast(h: Hmac, key: Option<Bytes>, mac: uint16, from: int, until: int, ss: seq<Sighting>) {
    forall s :: s in ss ==> from <= s.now < until && (Carried(h, key, s.adv) in {None, Some(mac)})
  }

  lemma {:induction false} CoolingSilences(h: Hmac, key: Option<Bytes>, m: Memory, mac: uint16, from: int, ss: seq<Sighting>)
    requires Broadcast(h, key, mac, from, m.us + COOLDOWN_US, ss) && m.mac == mac
    ensures Count(h, key, m, ss) == 0
  {
    if |ss| > 0 {
      assert ss[0] in ss;
      CoolingSilences(h, key, m, mac, from, ss[1..]);
    }
  }

  /** However often one broadcast of less than the cooldown is heard, it triggers one update:
      exactly one if the scanner was not cooling and some copy came in while it was idle. */
  lemma {:induction false} OneUpdatePerBroadcast(h: Hmac, key: Option<Bytes>, m: Memory, mac: uint16, from: int, ss: seq<Sighting>)
    requires Broadcast(h, key, mac, from, from + COOLDOWN_US, ss)
    ensures Count(h, key, m, ss) <= 1
    ensures !Cooling(m, mac, from)
            ==> (Count(h, key, m, ss) == 1 <==> exists s :: s in ss && !s.busy && Carried(h, key, s.adv) == Some(mac))
    decreases |ss|
  {
    if |ss| > 0 {
      var s := ss[0];
      assert s in ss;
      if Triggers(h, key, m, s) {
        CoolingSilences(h, key, After(h, key, m, s), mac, from, ss[1..]);
      } else {
        OneUpdatePerBroadcast(h, key, m, mac, from, ss[1..]);
        assert forall t :: t in ss <==> t == s || t in ss[1..];
      }
    }
  }

  /** After power-up the cooldown never applies, not even to a MAC of 0. */
  lemma FirstBeaconAfterBoot(mac: uint16, now: nat)
    ensures !Cooling(NEVER, mac, now)
  {
  }

  // ----- the scanner's key -----

  const DEFAULT_KEY: Bytes := [
    0x90, 0x01, 0x7F, 0xA8, 0x39, 0xF5, 0xC2, 0x3B, 0x02, 0xB2, 0xCA, 0xB3, 0xFD, 0x91, 0x2C, 0x9C]

  datatype Keys = Keys(ram: Option<Bytes>, nvs: Option<Bytes>)

  datatype KeyEvent =
    | Received(key: Bytes, importWorks: bool, writeWorks: bool)
    | Booted(psaWorks: bool, readWorks: bool, importWorks: bool)

  function KeysAfter(k: Keys, e: KeyEvent): Keys {
    match e
    case Received(key, importWorks, writeWorks) =>
      if |key| != 16 || !importWorks then k
      else Keys(Some(key), if writeWorks then Some(key) else k.nvs)
    case Booted(psaWorks, readWorks, importWorks) =>
      if !psaWorks || !importWorks then Keys(None, k.nvs)
      else if readWorks && k.nvs.Some? && |k.nvs.value| == 16 then Keys(k.nvs, k.nvs)
      else Keys(Some(DEFAULT_KEY), k.nvs)
  }

  class KeyStore {
    var ram: Option<Bytes>
    var nvs: Option<Bytes>

    function Value(): Keys
      reads this
    {
      Keys(ram, nvs)
    }

    /** `bmt_auth_init`. */
    method Init(psaWorks: bool, readWorks: bool, importWorks: bool)
      modifies this
      ensures Value() == KeysAfter(old(Value()), Booted(psaWorks, readWorks, importWorks))
    {
      ram := None;
      if !psaWorks { return; }
      var stored := if readWorks then nvs else None;
      var key := if stored.Some? && |stored.value| == 16 then stored.value else DEFAULT_KEY;
      if importWorks { ram := Some(key); }
    }

    /** `bmt_auth_set_ota_beacon_key`. */
    method SetOtaBeaconKey(key: Bytes, importWorks: bool, writeWorks: bool)
      modifies this
      ensures Value() == KeysAfter(old(Value()), Received(key, importWorks, writeWorks))
    {
      if |key| != 16 || !importWorks { return; }
      ram := Some(key);
      if writeWorks { nvs := Some(key); }
    }
  }

  function KeysRun(k: Keys, es: seq<KeyEvent>): Keys {
    if |es| == 0 then k else KeysAfter(KeysRun(k, es[..|es| - 1]), es[|es| - 1])
  }

  function LastReceived(es: seq<KeyEvent>): Option<Bytes> {
    if |es| == 0 then None
    else
      var e := es[|es| - 1];
      if e.Received? && |e.key| == 16 then Some(e.key) else LastReceived(es[..|es| - 1])
  }

  predicate Works(e: KeyEvent) {
    match e
    case Received(_, importWorks, writeWorks) => importWorks && writeWorks
    case Booted(psaWorks, readWorks, importWorks) => psaWorks && readWorks && importWorks
  }

  /** Over any number of reboots and rotations a scanner holds the last key pushed to it, and
      the built-in key until the first push. */
  lemma {:induction false} ScannerHoldsLastKey(es: seq<KeyEvent>)
    requires forall e :: e in es ==> Works(e)
    ensures var k := KeysRun(Keys(Some(DEFAULT_KEY), None), es);
            k.nvs == LastReceived(es)
            && k.ram == Some(if LastReceived(es).Some? then LastReceived(es).value else DEFAULT_KEY)
  {
    LastReceivedHas16(es);
    if |es| > 0 {
      assert es[|es| - 1] in es;
      ScannerHoldsLastKey(es[..|es| - 1]);
      LastReceivedHas16(es[..|es| - 1]);
    }
  }

  /** The last key that was stored: 16 bytes, imported and written. */
  function LastStored(es: seq<KeyEvent>): Option<Bytes> {
    if |es| == 0 then None
    else match es[|es| - 1]
      case Received(key, imports, writes) =>
        if |key| == 16 && imports && writes then Some(key) else LastStored(es[..|es| - 1])
      case Booted(_, _, _) => LastStored(es[..|es| - 1])
  }

  /** Whatever fails: flash holds the last key stored, and a boot that can use it holds that or, if
      there is none or it cannot be read, the built-in one. */
  lemma BootHoldsLastStored(es: seq<KeyEvent>, psa: bool, read: bool, imports: bool)
    ensures var k := KeysRun(Keys(Some(DEFAULT_KEY), None), es + [Booted(psa, read, imports)]);
            && k.nvs == LastStored(es)
            && k.ram == if !(psa && imports) then None
                        else if read && LastStored(es).Some? then LastStored(es) else Some(DEFAULT_KEY)
  {
    FlashHoldsLastStored(es);
    assert (es + [Booted(psa, read, imports)])[..|es|] == es;
  }

  lemma {:induction false} FlashHoldsLastStored(es: seq<KeyEvent>)
    ensures KeysRun(Keys(Some(DEFAULT_KEY), None), es).nvs == LastStored(es)
    ensures LastStored(es).Some? ==> |LastStored(es).value| == 16
  {
    if |es| > 0 { FlashHoldsLastStored(es[..|es| - 1]); }
  }

  lemma {:induction false} LastReceivedHas16(es: seq<KeyEvent>)
    ensures LastReceived(es).Some? ==> |LastReceived(es).value| == 16
  {
    if |es| > 0 { LastReceivedHas16(es[..|es| - 1]); }
  }
}
