/** The scanner's parser for advertisements, against a declarative split into AD structures
    (Vol 3 Part C section 11 of the Bluetooth Core Specification). */
module AdvParser {
  import opened Machine
  import opened SlotTable
  import opened EpochAuth
  import opened TagFrame

  const CID_ESPRESSIF := 0x02E5
  const CID_APPLE := 0x004C
  const MAJOR_PERSON := 0x0001
  const MAJOR_ASSET := 0x0002
  const PHONE_TX_POWER: int8 := -59

  /** What a recognised advertisement says. */
  datatype Decoded = Decoded(battery: uint8, tagId: uint16, txPower: int8, sequence: uint8, mac16: uint16)

  /** The locks after looking at some structures, and what they yielded. */
  datatype Judgement = Judgement(slots: seq<Slot>, out: Option<Decoded>)

  /** The time, and what PSA does, during one parse. */
  datatype Env = Env(h: Hmac, now: int, fault: uint16 -> Fault)

  /** The AD structures of an advertisement, each as its type followed by its data, up to the
      first empty or overlong one. */
  function Fields(b: Bytes): seq<Bytes> {
    if |b| == 0 || b[0] == 0 || b[0] as int >= |b| then []
    else [b[1..1 + b[0] as int]] + Fields(b[1 + b[0] as int..])
  }

  function FrameIn(env: Env, f: Bytes): Frame
    requires |f| >= 27
  {
    var p := Decode(f[3..27]);
    Frame(p.minor, f[3..27][..SIGNED_LEN], p.mac16, env.now, env.fault)
  }

  predicate IsTagField(f: Bytes) {
    && |f| >= 27 && f[0] == 0xFF && f[1] == 0xE5 && f[2] == 0x02
    && f[3] == 0xAB && f[4] == 0 && f[5] == 0 && f[6] == 0
  }

  predicate IsPhoneField(f: Bytes) {
    && |f| >= 26 && f[0] == 0xFF && f[1] == 0x4C && f[2] == 0x00 && f[3] == 0x02 && f[4] == 0x15
    && f[21] == 0x00 && (f[22] as int == MAJOR_PERSON || f[22] as int == MAJOR_ASSET)
  }

  /** `minor | 0x8000`. */
  function PhoneId(hi: byte, lo: byte): uint16 {
    (if hi >= 0x80 then hi as int else hi as int + 0x80) * 0x100 + lo as int
  }

  /** What one structure yields, and the locks after looking at it. */
  function Judge(env: Env, slots: seq<Slot>, f: Bytes): (r: Judgement)
    ensures |r.slots| == |slots|
  {
    if IsTagField(f) then
      var p := Decode(f[3..27]);
      Judgement(AfterFrame(env.h, slots, FrameIn(env, f)),
                if Outcome(env.h, slots, FrameIn(env, f)).Some?
                then Some(Decoded(U8(p.battery), p.minor, p.txPower, p.sequence, p.mac16)) else None)
    else if IsPhoneField(f) then
      Judgement(slots, Some(Decoded(0, PhoneId(f[23], f[24]), PHONE_TX_POWER, 0, 0)))
    else Judgement(slots, None)
  }

  /** The first structure that yields something. */
  function FirstAcceptable(env: Env, slots: seq<Slot>, fs: seq<Bytes>): (r: Judgement)
    ensures |r.slots| == |slots|
    decreases |fs|
  {
    if |fs| == 0 then Judgement(slots, None)
    else
      var j := Judge(env, slots, fs[0]);
      if j.out.Some? then j else FirstAcceptable(env, j.slots, fs[1..])
  }

  lemma FirstThenRest(env: Env, slots: seq<Slot>, f: Bytes, fs: seq<Bytes>)
    ensures var j := Judge(env, slots, f);
            FirstAcceptable(env, slots, [f] + fs) == if j.out.Some? then j else FirstAcceptable(env, j.slots, fs)
  {
    assert ([f] + fs)[1..] == fs;
  }

  predicate HasPrefix(p: Payload)
    requires |p.uuid| == 16
  {
    p.uuid[0] == 0xAB && p.uuid[1] == 0 && p.uuid[2] == 0 && p.uuid[3] == 0
  }

  /** The frame whose payload starts at index `at` of the advertisement. */
  function FrameAt(env: Env, adv: Bytes, at: nat): Frame
    requires at + PAYLOAD_LEN <= |adv|
  {
    var bytes := adv[at..at + PAYLOAD_LEN];
    var p := Decode(bytes);
    Frame(p.minor, bytes[..SIGNED_LEN], p.mac16, env.now, env.fault)
  }

  /** `Judge` in terms of positions in the advertisement. */
  lemma JudgeByIndex(env: Env, slots: seq<Slot>, adv: Bytes, pos: nat, n: nat)
    requires n > 0 && pos + n < |adv|
    ensures var f := adv[pos + 1..pos + 1 + n];
            && (IsTagField(f) <==>
                  n >= 27 && adv[pos + 1] == 0xFF && adv[pos + 2] == 0xE5 && adv[pos + 3] == 0x02
                  && HasPrefix(Decode(adv[pos + 4..pos + 28])))
            && (IsTagField(f) ==> f[3..27] == adv[pos + 4..pos + 28] && FrameIn(env, f) == FrameAt(env, adv, pos + 4))
            && (IsPhoneField(f) <==>
                  n >= 26 && adv[pos + 1] == 0xFF && adv[pos + 2] == 0x4C && adv[pos + 3] == 0x00
                  && adv[pos + 4] == 0x02 && adv[pos + 5] == 0x15 && adv[pos + 22] == 0x00
                  && (adv[pos + 23] as int == MAJOR_PERSON || adv[pos + 23] as int == MAJOR_ASSET))
            && (IsPhoneField(f) ==> f[23] == adv[pos + 24] && f[24] == adv[pos + 25])
  {
    var f := adv[pos + 1..pos + 1 + n];
    assert forall i :: 0 <= i < n ==> f[i] == adv[pos + 1 + i];
    if n >= 27 {
      Slice(adv, pos + 1, pos + 1 + n, 3, 27);
      assert f[3..27] == adv[pos + 4..pos + 28];
    }
  }

  /** The body of the walk: the structure at `pos`, complete inside the buffer. */
  method JudgeAt(auth: Scanner, env: Env, adv: Bytes, pos: nat, fieldLen: nat) returns (out: Option<Decoded>)
    requires auth.Valid() && env.h == auth.hmac && fieldLen > 0 && pos + fieldLen < |adv|
    modifies auth.slots
    ensures Judgement(auth.slots[..], out) == Judge(env, old(auth.slots[..]), adv[pos + 1..pos + 1 + fieldLen])
  {
    JudgeByIndex(env, auth.slots[..], adv, pos, fieldLen);
    out := None;
    if adv[pos + 1] != 0xFF || fieldLen < 3 { return; }
    var cid: int := adv[pos + 3] as int * 0x100 + adv[pos + 2] as int;
    if cid == CID_ESPRESSIF && fieldLen >= 27 {
      var bytes := adv[pos + 4..pos + 28];
      var p := Decode(bytes);
      if !HasPrefix(p) { return; }
      var ok := auth.VerifyTag(Frame(p.minor, bytes[..SIGNED_LEN], p.mac16, env.now, env.fault));
      if ok { out := Some(Decoded(U8(p.battery), p.minor, p.txPower, p.sequence, p.mac16)); }
      return;
    }
    if cid == CID_APPLE && fieldLen >= 26 && adv[pos + 4] == 0x02 && adv[pos + 5] == 0x15 {
      var major: int := adv[pos + 22] as int * 0x100 + adv[pos + 23] as int;
      if major != MAJOR_PERSON && major != MAJOR_ASSET { return; }
      out := Some(Decoded(0, PhoneId(adv[pos + 24], adv[pos + 25]), PHONE_TX_POWER, 0, 0));
    }
  }

  /** What is left to find from position `pos` on. */
  function From(env: Env, slots: seq<Slot>, adv: Bytes, pos: nat): (r: Judgement)
    requires pos <= |adv|
  {
    FirstAcceptable(env, slots, Fields(adv[pos..]))
  }

  lemma FromEnd(env: Env, slots: seq<Slot>, adv: Bytes, pos: nat)
    requires pos < |adv| && (adv[pos] == 0 || pos + adv[pos] as int >= |adv|)
    ensures From(env, slots, adv, pos) == Judgement(slots, None)
  {
    SplitStep(adv, pos);
  }

  lemma FromStep(env: Env, slots: seq<Slot>, adv: Bytes, pos: nat, n: nat, slots': seq<Slot>, out: Option<Decoded>)
    requires 0 < n && pos + n < |adv| && n == adv[pos] as int
    requires Judgement(slots', out) == Judge(env, slots, adv[pos + 1..pos + 1 + n])
    ensures From(env, slots, adv, pos) == if out.Some? then Judgement(slots', out) else From(env, slots', adv, pos + n + 1)
  {
    SplitStep(adv, pos);
    FirstThenRest(env, slots, adv[pos + 1..pos + 1 + n], Fields(adv[pos + n + 1..]));
  }

  /** `parse_tag_payload`: walks the bytes by index, every read in bounds, and returns the first
      acceptable structure of the declarative split. */
  method ParseTagPayload(auth: Scanner, env: Env, adv: Bytes) returns (out: Option<Decoded>)
    requires auth.Valid() && env.h == auth.hmac
    modifies auth.slots
    ensures Judgement(auth.slots[..], out) == FirstAcceptable(env, old(auth.slots[..]), Fields(adv))
  {
    assert adv[0..] == adv;
    if |adv| < 4 {
      ShortYieldsNothing(env, auth.slots[..], adv);
      return None;
    }
    ghost var expected := From(env, auth.slots[..], adv, 0);
    var pos := 0;
    out := None;
    while pos < |adv|
      invariant 0 <= pos <= |adv|
      invariant expected == From(env, auth.slots[..], adv, pos)
      decreases |adv| - pos
    {
      var fieldLen := adv[pos] as int;
      ghost var was := auth.slots[..];
      if fieldLen == 0 || pos + fieldLen >= |adv| {
        FromEnd(env, was, adv, pos);
        return None;
      }
      out := JudgeAt(auth, env, adv, pos, fieldLen);
      FromStep(env, was, adv, pos, fieldLen, auth.slots[..], out);
      if out.Some? { return; }
      pos := pos + fieldLen + 1;
    }
    out := None;
  }

  lemma Slice(s: Bytes, a: nat, b: nat, c: nat, d: nat)
    requires a <= b <= |s| && c <= d <= b - a
    ensures s[a..b][c..d] == s[a + c..a + d]
  {
    forall i | 0 <= i < d - c ensures s[a..b][c..d][i] == s[a + c..a + d][i] {
      assert s[a..b][c + i] == s[a + c + i];
    }
  }

  /** The split, one structure at a time. */
  lemma SplitStep(b: Bytes, pos: nat)
    requires pos < |b|
    ensures var n := b[pos] as int;
            Fields(b[pos..])
              == if n == 0 || pos + n >= |b| then []
                 else [b[pos + 1..pos + 1 + n]] + Fields(b[pos + n + 1..])
  {
    var n := b[pos] as int;
    if n != 0 && pos + n < |b| {
      assert b[pos..][1..1 + n] == b[pos + 1..pos + 1 + n];
      assert b[pos..][1 + n..] == b[pos + n + 1..];
    }
  }

  lemma {:induction false} ShortYieldsNothing(env: Env, slots: seq<Slot>, b: Bytes)
    requires |b| < 26
    ensures FirstAcceptable(env, slots, Fields(b)) == Judgement(slots, None)
    decreases |b|
  {
    if Fields(b) != [] {
      ShortYieldsNothing(env, slots, b[1 + b[0] as int..]);
      assert Fields(b)[1..] == Fields(b[1 + b[0] as int..]);
    }
  }

  // ----- round trip -----

  ghost predicate Structures(fs: seq<Bytes>) {
    forall i :: 0 <= i < |fs| ==> 0 < |fs[i]| < 0x100
  }

  /** AD structures on the wire: each behind its length. */
  function Join(fs: seq<Bytes>): Bytes
    requires Structures(fs)
  {
    if |fs| == 0 then [] else [|fs[0]| as byte] + fs[0] + Join(fs[1..])
  }

  /** The split undoes the join, whatever follows. */
  lemma {:induction false} FieldsOfJoin(fs: seq<Bytes>, rest: Bytes)
    requires Structures(fs)
    ensures Fields(Join(fs) + rest) == fs + Fields(rest)
  {
    if |fs| == 0 {
      assert Join(fs) + rest == rest;
    } else {
      FieldsOfJoin(fs[1..], rest);
      FirstField(fs[0], Join(fs[1..]) + rest);
      Regroup([|fs[0]| as byte] + fs[0], Join(fs[1..]), rest);
      Regroup([fs[0]], fs[1..], Fields(rest));
      assert [fs[0]] + fs[1..] == fs;
    }
  }

  lemma FirstField(f: Bytes, rest: Bytes)
    requires 0 < |f| < 0x100
    ensures Fields([|f| as byte] + f + rest) == [f] + Fields(rest)
  {
    var b: Bytes := [|f| as byte] + f + rest;
    assert b[1..1 + |f|] == f && b[1 + |f|..] == rest;
  }

  lemma {:induction false} AcceptableAfterRejected(env: Env, slots: seq<Slot>, fs: seq<Bytes>, gs: seq<Bytes>)
    requires FirstAcceptable(env, slots, fs).out.None?
    ensures FirstAcceptable(env, slots, fs + gs) == FirstAcceptable(env, FirstAcceptable(env, slots, fs).slots, gs)
    decreases |fs|
  {
    if |fs| == 0 {
      assert fs + gs == gs;
    } else {
      AcceptableAfterRejected(env, Judge(env, slots, fs[0]).slots, fs[1..], gs);
      assert (fs + gs)[1..] == fs[1..] + gs;
    }
  }

  /** The tag's frame is the join of a flags structure and one of manufacturer data. */
  lemma FrameIsJoin(p: Payload)
    requires |p.uuid| == 16
    ensures FrameOf(p) == Join([[0x01, 0x06], [0xFF, 0xE5, 0x02] + Encode(p)])
  {
    var flags: Bytes := [0x01, 0x06];
    var f: Bytes := [0xFF, 0xE5, 0x02] + Encode(p);
    assert [flags, f][1..] == [f] && [f][1..] == [];
    assert Join([f]) == [27] + f;
  }

  lemma GenuineFieldIsAccepted(env: Env, slots: seq<Slot>, p: Payload, us: nat)
    requires SignedAt(env.h, p, us) && p.uuid == SYSTEM_UUID && env.fault(EpochOfUs(us)) == Works
    requires var slot := SlotOf(slots, p.minor);
             EpochOfUs(us) <= WIDE_MAX || (slot.Some? && EpochOfUs(us) in Narrow(slot.value, env.now))
    ensures Judge(env, slots, [0xFF, 0xE5, 0x02] + Encode(p)).out
         == Some(Decoded(U8(p.battery), p.minor, p.txPower, p.sequence, p.mac16))
  {
    FrameOfField(env, p);
    SignedFrameIsAccepted(env.h, slots, Frame(p.minor, SignedPart(p), p.mac16, env.now, env.fault), us);
  }

  lemma FrameOfField(env: Env, p: Payload)
    requires p.uuid == SYSTEM_UUID
    ensures var f := [0xFF, 0xE5, 0x02] + Encode(p);
            && IsTagField(f) && Decode(f[3..27]) == p
            && FrameIn(env, f) == Frame(p.minor, SignedPart(p), p.mac16, env.now, env.fault)
  {
    var f := [0xFF, 0xE5, 0x02] + Encode(p);
    assert f[3..27] == Encode(p);
    DecodeEncode(p);
  }

  lemma SignedFrameIsAccepted(h: Hmac, slots: seq<Slot>, f: Frame, us: nat)
    requires f.mac == Mac16(h, EpochKey(h, EpochOfUs(us)), f.data) && f.fault(EpochOfUs(us)) == Works
    requires var slot := SlotOf(slots, f.tagId);
             EpochOfUs(us) <= WIDE_MAX || (slot.Some? && EpochOfUs(us) in Narrow(slot.value, f.now))
    ensures Outcome(h, slots, f).Some?
  {
    AcceptedIffSomeEpochMatches(h, slots, f);
    assert TryEpoch(h, f, EpochOfUs(us));
  }

  /** A tag's frame behind any structures of which none is acceptable, and before any bytes
      whatever, is parsed to the fields that were encoded if it was signed at a time whose epoch
      the scanner tries: in the narrow window of the tag's lock or among 0..200. */
  lemma TagFrameRoundTrip(env: Env, slots: seq<Slot>, before: seq<Bytes>, p: Payload, us: nat, rest: Bytes)
    requires Structures(before) && FirstAcceptable(env, slots, before).out.None?
    requires SignedAt(env.h, p, us) && p.uuid == SYSTEM_UUID && env.fault(EpochOfUs(us)) == Works
    requires var slot := SlotOf(FirstAcceptable(env, slots, before).slots, p.minor);
             EpochOfUs(us) <= WIDE_MAX || (slot.Some? && EpochOfUs(us) in Narrow(slot.value, env.now))
    ensures FirstAcceptable(env, slots, Fields(Join(before) + FrameOf(p) + rest)).out
         == Some(Decoded(U8(p.battery), p.minor, p.txPower, p.sequence, p.mac16))
  {
    var slots1 := FirstAcceptable(env, slots, before).slots;
    var flags, f := [0x01, 0x06], [0xFF, 0xE5, 0x02] + Encode(p);
    assert Join(before) + FrameOf(p) + rest == Join(before) + (FrameOf(p) + rest);
    FieldsOfJoin(before, FrameOf(p) + rest);
    FrameIsJoin(p);
    FieldsOfJoin([flags, f], rest);
    AcceptableAfterRejected(env, slots, before, [flags, f] + Fields(rest));
    GenuineFieldIsAccepted(env, slots1, p, us);
    SecondField(env, slots1, flags, f, Fields(rest));
  }

  lemma SecondField(env: Env, slots: seq<Slot>, f: Bytes, g: Bytes, rest: seq<Bytes>)
    requires Judge(env, slots, f) == Judgement(slots, None) && Judge(env, slots, g).out.Some?
    ensures FirstAcceptable(env, slots, [f, g] + rest) == Judge(env, slots, g)
  {
    FirstThenRest(env, slots, f, [g] + rest);
    FirstThenRest(env, slots, g, rest);
    assert [f] + ([g] + rest) == [f, g] + rest;
  }

  // ----- nothing else is taken -----

  /** A tag's structure starts with the company and the first four bytes of the system's UUID. */
  lemma TagFieldIff(f: Bytes)
    ensures IsTagField(f) <==> |f| >= 27 && f[..7] == [0xFF, 0xE5, 0x02, 0xAB, 0x00, 0x00, 0x00]
  {
    if |f| >= 7 { assert f[..7] == [f[0], f[1], f[2], f[3], f[4], f[5], f[6]]; }
  }

  /** A phone's iBeacon structure; numbers are big-endian. */
  function PhoneField(uuid: Bytes, major: uint16, minor: uint16, power: byte): Bytes {
    [0xFF, 0x4C, 0x00, 0x02, 0x15] + uuid
      + [(major / 0x100) as byte, (major % 0x100) as byte, (minor / 0x100) as byte, (minor % 0x100) as byte, power]
  }

  ghost predicate IsPhone(f: Bytes, uuid: Bytes, major: uint16, minor: uint16, power: byte, tail: Bytes) {
    |uuid| == 16 && major in {1, 2} && f == PhoneField(uuid, major, minor, power) + tail
  }

  /** Exactly the iBeacons of major 1 and 2 count as phones. */
  lemma PhoneFieldIff(f: Bytes)
    ensures IsPhoneField(f) <==> exists uuid, major, minor, power, tail :: IsPhone(f, uuid, major, minor, power, tail)
  {
    if IsPhoneField(f) {
      var major: uint16, minor: uint16 := f[22] as int, f[23] as int * 0x100 + f[24] as int;
      assert f == PhoneField(f[5..21], major, minor, f[25]) + f[26..];
      assert IsPhone(f, f[5..21], major, minor, f[25], f[26..]);
    }
    if uuid, major, minor, power, tail :| IsPhone(f, uuid, major, minor, power, tail) {
      PhoneBytes(f, uuid, major, minor, power, tail);
    }
  }

  lemma PhoneBytes(f: Bytes, uuid: Bytes, major: uint16, minor: uint16, power: byte, tail: Bytes)
    requires IsPhone(f, uuid, major, minor, power, tail)
    ensures IsPhoneField(f) && f[23] as int == minor / 0x100 && f[24] as int == minor % 0x100
  {
  }

  /** A phone behind any structures of which none is acceptable, and before any bytes whatever, is
      taken without authentication and without touching a lock: as its minor with the top bit set,
      at -59 dBm, with no battery and no sequence number. */
  lemma PhoneRoundTrip(env: Env, slots: seq<Slot>, before: seq<Bytes>, uuid: Bytes, major: uint16, minor: uint16,
                       power: byte, rest: Bytes)
    requires Structures(before) && FirstAcceptable(env, slots, before).out.None? && |uuid| == 16 && major in {1, 2}
    ensures Structures(before + [PhoneField(uuid, major, minor, power)])
    ensures var r := FirstAcceptable(env, slots, Fields(Join(before + [PhoneField(uuid, major, minor, power)]) + rest));
            && r.slots == FirstAcceptable(env, slots, before).slots && r.out.Some?
            && r.out.value == Decoded(0, r.out.value.tagId, -59, 0, 0)
            && r.out.value.tagId >= 0x8000 && r.out.value.tagId % 0x8000 == minor % 0x8000
  {
    var f := PhoneField(uuid, major, minor, power);
    var slots1 := FirstAcceptable(env, slots, before).slots;
    FieldsOfJoin(before + [f], rest);
    Regroup(before, [f], Fields(rest));
    AcceptableAfterRejected(env, slots, before, [f] + Fields(rest));
    FirstThenRest(env, slots1, f, Fields(rest));
    assert f == f + [];
    PhoneBytes(f, uuid, major, minor, power, []);
    PhoneIdOf(f[23], f[24], minor);
  }

  lemma PhoneIdOf(hi: byte, lo: byte, minor: uint16)
    requires hi as int == minor / 0x100 && lo as int == minor % 0x100
    ensures PhoneId(hi, lo) >= 0x8000 && PhoneId(hi, lo) % 0x8000 == minor % 0x8000
  {
  }

  /** A structure of a tag whose MAC matches under some epoch, with the fields it encodes. */
  ghost predicate Authentic(env: Env, f: Bytes, d: Decoded) {
    && IsTagField(f) && (exists e: uint16 :: TryEpoch(env.h, FrameIn(env, f), e))
    && var p := Decode(f[3..27]); d == Decoded(U8(p.battery), p.minor, p.txPower, p.sequence, p.mac16)
  }

  /** Whatever is taken is a phone or authentic: no tag's structure yields anything unless its MAC
      matches. */
  lemma {:induction false} TakenIsPhoneOrAuthentic(env: Env, slots: seq<Slot>, fs: seq<Bytes>)
    ensures var out := FirstAcceptable(env, slots, fs).out;
            out.Some? ==> exists f :: f in fs && (IsPhoneField(f) || Authentic(env, f, out.value))
    decreases |fs|
  {
    if |fs| > 0 {
      var f, j := fs[0], Judge(env, slots, fs[0]);
      if j.out.Some? {
        assert f in fs;
        if IsTagField(f) { OutcomeIsTried(env.h, slots, FrameIn(env, f)); }
      } else {
        TakenIsPhoneOrAuthentic(env, j.slots, fs[1..]);
        assert forall g :: g in fs[1..] ==> g in fs;
      }
    }
  }
}
