/** The tag's advertising frame: its 24-byte payload and the 31 bytes around it. */
module TagFrame {
  import opened Machine
  import opened EpochAuth

  const HEADER: Bytes := [0x02, 0x01, 0x06, 0x1B, 0xFF, 0xE5, 0x02]
  const SYSTEM_UUID: Bytes := [0xAB, 0, 0, 0, 0, 0, 0, 0, 0, 0, 0, 0, 0, 0, 0, 0]
  const PAYLOAD_LEN := 24
  const SIGNED_LEN := 22

  datatype Payload = Payload(
    uuid: Bytes, battery: uint16, minor: uint16, txPower: int8, sequence: uint8, mac16: uint16)

  function Le16(x: uint16): Bytes { [(x % 0x100) as byte, (x / 0x100) as byte] }

  function FromLe16(b: Bytes): uint16
    requires |b| == 2
  {
    b[1] as int * 0x100 + b[0] as int
  }

  function ByteOf(x: int8): byte { (if x < 0 then x + 0x100 else x) as byte }

  /** The packed little-endian structure. */
  function Encode(p: Payload): (b: Bytes)
    requires |p.uuid| == 16
    ensures |b| == PAYLOAD_LEN
  {
    p.uuid + Le16(p.battery) + Le16(p.minor) + [ByteOf(p.txPower), p.sequence as byte] + Le16(p.mac16)
  }

  function Decode(b: Bytes): (p: Payload)
    requires |b| == PAYLOAD_LEN
    ensures |p.uuid| == 16
  {
    Payload(b[..16], FromLe16(b[16..18]), FromLe16(b[18..20]), I8(b[20] as int), b[21] as int, FromLe16(b[22..24]))
  }

  lemma Le16RoundTrip(x: uint16)
    ensures FromLe16(Le16(x)) == x
  {
  }

  lemma DecodeEncode(p: Payload)
    requires |p.uuid| == 16
    ensures Decode(Encode(p)) == p
  {
    var b := Encode(p);
    assert b[..16] == p.uuid;
    assert b[16..18] == Le16(p.battery) && b[18..20] == Le16(p.minor) && b[22..24] == Le16(p.mac16);
    Le16RoundTrip(p.battery);
    Le16RoundTrip(p.minor);
    Le16RoundTrip(p.mac16);
    assert b[20] == ByteOf(p.txPower) && b[21] as int == p.sequence;
  }

  lemma EncodeDecode(b: Bytes)
    requires |b| == PAYLOAD_LEN
    ensures Encode(Decode(b)) == b
  {
    var p := Decode(b);
    assert Le16(p.battery) == b[16..18] && Le16(p.minor) == b[18..20] && Le16(p.mac16) == b[22..24];
    assert ByteOf(p.txPower) == b[20];
    assert b == b[..16] + b[16..18] + b[18..20] + [b[20], b[21]] + b[22..24];
  }

  /** The bytes the MAC covers: all but the MAC itself. */
  function SignedPart(p: Payload): Bytes
    requires |p.uuid| == 16
  {
    Encode(p)[..SIGNED_LEN]
  }

  function FrameOf(p: Payload): (b: Bytes)
    requires |p.uuid| == 16
    ensures |b| == 31
  {
    HEADER + Encode(p)
  }

  /** The MAC covers every field but itself: two payloads have the same signed part exactly if they
      agree in all others, the sequence number and the power among them. */
  lemma MacCoversTheRest(p: Payload, q: Payload)
    requires |p.uuid| == 16 && |q.uuid| == 16
    ensures SignedPart(p) == SignedPart(q) <==> p.(mac16 := 0) == q.(mac16 := 0)
  {
    SignedPartThenMac(p);
    SignedPartThenMac(q);
    DecodeEncode(p.(mac16 := 0));
    DecodeEncode(q.(mac16 := 0));
  }

  lemma SignedPartThenMac(p: Payload)
    requires |p.uuid| == 16
    ensures Encode(p.(mac16 := 0)) == SignedPart(p) + [0, 0]
  {
    assert Encode(p) == SignedPart(p) + Le16(p.mac16);
  }

  /** Where the 31 bytes hold what. */
  lemma FrameByIndex(p: Payload)
    requires |p.uuid| == 16
    ensures var b := FrameOf(p);
            && b[..7] == [0x02, 0x01, 0x06, 0x1B, 0xFF, 0xE5, 0x02] && b[7..23] == p.uuid
            && b[23] as int + 0x100 * b[24] as int == p.battery && b[25] as int + 0x100 * b[26] as int == p.minor
            && I8(b[27] as int) == p.txPower && b[28] as int == p.sequence
            && b[29] as int + 0x100 * b[30] as int == p.mac16
  {
    DecodeEncode(p);
    var e := Encode(p);
    assert e == FrameOf(p)[7..];
    assert FrameOf(p)[7..23] == e[..16];
    assert e[16..18] == Le16(p.battery) && e[18..20] == Le16(p.minor) && e[22..24] == Le16(p.mac16);
  }

  /** The payload is signed at uptime `us`. */
  ghost predicate SignedAt(h: Hmac, p: Payload, us: nat) {
    |p.uuid| == 16 && p.mac16 == Mac16(h, EpochKey(h, EpochOfUs(us)), SignedPart(p))
  }

  /** On the air: the MAC of the 22 bytes before it, second byte of the HMAC first. */
  lemma MacOnTheAir(h: Hmac, p: Payload, us: nat)
    requires |p.uuid| == 16
    ensures SignedAt(h, p, us) <==>
      var b := FrameOf(p);
      var mac := h(EpochKey(h, EpochOfUs(us)), b[7..29]);
      b[29] == mac[1] && b[30] == mac[0]
  {
    var b, e := FrameOf(p), Encode(p);
    FrameByIndex(p);
    assert b[7..29] == e[..22];
    var mac := h(EpochKey(h, EpochOfUs(us)), b[7..29]);
    assert b[29] as int == p.mac16 % 0x100 && b[30] as int == p.mac16 / 0x100;
  }

  /** Which PSA calls work while a frame is signed. */
  datatype Psa = Psa(derives: bool, imports: bool, macs: bool)
  {
    predicate Works() { derives && imports && macs }
  }

  class Beacon {
    const raw: array<byte>
    const tag: Tag
    var sequence: uint8

    ghost predicate Valid()
      reads this, raw, tag
    {
      raw.Length == 31 && raw[..7] == HEADER && tag.Valid()
    }

    constructor (h: Hmac)
      ensures Valid() && fresh(raw) && fresh(tag) && tag.hmac == h && sequence == 0
    {
      var a := new byte[] [0x02, 0x01, 0x06, 0x1B, 0xFF, 0xE5, 0x02,
                           0, 0, 0, 0, 0, 0, 0, 0, 0, 0, 0, 0, 0, 0, 0, 0, 0, 0, 0, 0, 0, 0, 0, 0];
      assert a[..7] == HEADER;
      raw := a;
      tag := new Tag(h);
      sequence := 0;
    }

    /** Fill the payload and sign it. With PSA working the MAC is that of the instant, otherwise one
        of an earlier key, or 0. */
    method BuildAdvData(us: nat, battery: uint16, minor: uint16, txPower: int8, psa: Psa) returns (ghost p: Payload)
      requires Valid()
      modifies raw, tag
      ensures p == Payload(SYSTEM_UUID, battery, minor, txPower, sequence, p.mac16)
      ensures Valid() && raw[..] == FrameOf(p)
      ensures psa.Works() ==> SignedAt(tag.hmac, p, us)
      ensures p.mac16 == 0 || exists e: uint16 :: p.mac16 == Mac16(tag.hmac, EpochKey(tag.hmac, e), SignedPart(p))
    {
      var q := Payload(SYSTEM_UUID, battery, minor, txPower, sequence, 0);
      var data := Encode(q);
      var mac := tag.Sign(us, data[..SIGNED_LEN], psa.derives, psa.imports, psa.macs);
      q := q.(mac16 := mac);
      assert SignedPart(q) == data[..SIGNED_LEN];
      data := Encode(q);
      for i := 0 to PAYLOAD_LEN
        invariant raw[..7] == HEADER && tag.Valid()
        invariant forall j :: 0 <= j < i ==> raw[7 + j] == data[j]
      {
        raw[7 + i] := data[i];
        assert raw[..7] == HEADER;
      }
      assert raw[..] == raw[..7] + data;
      p := q;
    }

    /** The sequence timer: the next frame carries the next sequence number modulo 256. */
    method SeqTimer(us: nat, battery: uint16, minor: uint16, txPower: int8, psa: Psa) returns (ghost p: Payload)
      requires Valid()
      modifies this, raw, tag
      ensures sequence == U8(old(sequence) + 1)
      ensures p == Payload(SYSTEM_UUID, battery, minor, txPower, sequence, p.mac16)
      ensures Valid() && raw[..] == FrameOf(p)
      ensures psa.Works() ==> SignedAt(tag.hmac, p, us)
    {
      sequence := U8(sequence + 1);
      p := BuildAdvData(us, battery, minor, txPower, psa);
    }
  }
}
