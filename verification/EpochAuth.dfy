/** Hourly epoch keys: how a tag signs its advertisements and how a scanner, with an
    unrelated clock, finds the epoch a frame was signed in.

    HMAC-SHA256 (RFC 2104) is a parameter: any function from key and data to 32 bytes. */
module EpochAuth {
  import opened Machine
  import opened SlotTable

  type Digest = d: Bytes | |d| == 32
    witness [0, 0, 0, 0, 0, 0, 0, 0, 0, 0, 0, 0, 0, 0, 0, 0, 0, 0, 0, 0, 0, 0, 0, 0, 0, 0, 0, 0, 0, 0, 0, 0]
  type Hmac = (Bytes, Bytes) -> Digest

  const TAG_MASTER_KEY: Bytes := [
    0x76, 0x9F, 0xD5, 0x0D, 0xDF, 0x25, 0xA7, 0x7B, 0x12, 0x7F, 0xDB, 0xC0, 0xCB, 0xFF, 0xF8, 0xB1]
  const TICK_US := 3_600_000_000
  const TICK_MS := 3_600_000
  const WIDE_MAX := 200
  const MAX_TAGS := 20

  function EpochKey(h: Hmac, epoch: uint16): Bytes {
    h(TAG_MASTER_KEY, [(epoch % 0x100) as byte, (epoch / 0x100) as byte])[..16]
  }

  function Mac16(h: Hmac, key: Bytes, data: Bytes): uint16 {
    var d := h(key, data);
    d[0] as int * 0x100 + d[1] as int
  }

  // ----- the tag -----

  /** Uptime in microseconds on the ESP32 tag, in milliseconds on the nRF52840 tag. */
  function EpochOfUs(us: nat): uint16 { U16(us / TICK_US) }
  function EpochOfMs(ms: nat): uint16 { U16(ms / TICK_MS) }

  /** Both tags are in the same epoch at every instant, through the 16-bit wrap. */
  lemma BothTagsAgree(us: nat)
    ensures EpochOfMs(us / 1000) == EpochOfUs(us)
  {
    assert us / 1000 / TICK_MS == us / TICK_US;
  }

  /** Which PSA call fails, if any. */
  datatype Fault = Works | KeyFails | MacFails

  class Tag {
    const hmac: Hmac
    var epochKey: Option<Bytes>
    var cachedEpoch: uint16

    /** A key that is present is the key of the cached epoch. */
    ghost predicate Valid()
      reads this
    {
      epochKey.Some? ==> epochKey.value == EpochKey(hmac, cachedEpoch)
    }

    constructor (h: Hmac)
      ensures Valid() && hmac == h && epochKey == None
    {
      hmac, epochKey, cachedEpoch := h, None, 0xFFFF;
    }

    method EnsureEpochKey(epoch: uint16, deriveWorks: bool, importWorks: bool)
      requires Valid()
      modifies this
      ensures Valid()
      ensures deriveWorks && importWorks ==> epochKey == Some(EpochKey(hmac, epoch))
      ensures epochKey.Some? ==> cachedEpoch == epoch || (!deriveWorks && epochKey == old(epochKey))
    {
      if epoch == cachedEpoch && epochKey.Some? { return; }
      if !deriveWorks { return; }
      var derived := EpochKey(hmac, epoch);
      epochKey := None;
      if !importWorks { return; }
      epochKey := Some(derived);
      cachedEpoch := epoch;
    }

    /** With PSA working, a frame is always signed under the epoch of its own instant, even
        epoch 0xFFFF, whose number the cache starts with. With PSA failing it is signed
        under an older epoch's key or carries 0, never under a key of no epoch. */
    method Sign(us: nat, data: Bytes, deriveWorks: bool, importWorks: bool, macWorks: bool)
      returns (mac: uint16)
      requires Valid()
      modifies this
      ensures Valid()
      ensures deriveWorks && importWorks && macWorks
              ==> mac == Mac16(hmac, EpochKey(hmac, EpochOfUs(us)), data)
      ensures mac == 0 || exists e: uint16 :: mac == Mac16(hmac, EpochKey(hmac, e), data)
    {
      EnsureEpochKey(EpochOfUs(us), deriveWorks, importWorks);
      if epochKey.None? || !macWorks { return 0; }
      mac := Mac16(hmac, epochKey.value, data);
    }
  }

  // ----- the scanner -----

  datatype Slot = Slot(valid: bool, tagId: uint16, lockedEpoch: uint16, lockedAtUs: int)

  const FREE := Slot(false, 0, 0, 0)

  /** One frame as the scanner sees it; `fault` says what PSA does when an epoch is tried. */
  datatype Frame = Frame(tagId: uint16, data: Bytes, mac: uint16, now: int, fault: uint16 -> Fault)

  /** A failing MAC computation yields 0, which a received 0 equals. */
  predicate TryEpoch(h: Hmac, f: Frame, epoch: uint16) {
    match f.fault(epoch)
    case KeyFails => false
    case MacFails => f.mac == 0
    case Works => Mac16(h, EpochKey(h, epoch), f.data) == f.mac
  }

  function Ids(slots: seq<Slot>): Column<uint16> {
    seq(|slots|, i requires 0 <= i < |slots| => if slots[i].valid then Some(slots[i].tagId) else None)
  }

  function Predicted(s: Slot, now: int): uint16 {
    U16(s.lockedEpoch + TruncDiv(now - s.lockedAtUs, TICK_US))
  }

  function Narrow(s: Slot, now: int): seq<uint16> {
    if s.lockedAtUs <= 0 then []
    else var p := Predicted(s, now); [U16(p - 1), p, U16(p + 1)]
  }

  function Wide(): seq<uint16> { seq(WIDE_MAX + 1, e requires 0 <= e <= WIDE_MAX => e) }

  /** The epochs tried for a frame, in order. */
  function SearchOrder(slot: Option<Slot>, now: int): seq<uint16> {
    (if slot.Some? then Narrow(slot.value, now) else []) + Wide()
  }

  /** Position of the first epoch that matches, or -1. */
  function FirstMatch(h: Hmac, f: Frame, es: seq<uint16>): (r: int)
    ensures -1 <= r < |es|
    ensures r >= 0 ==> TryEpoch(h, f, es[r])
    ensures forall j :: 0 <= j < (if r < 0 then |es| else r) ==> !TryEpoch(h, f, es[j])
  {
    if es == [] then -1
    else if TryEpoch(h, f, es[0]) then 0
    else
      var r := FirstMatch(h, f, es[1..]);
      assert forall j :: 1 <= j < |es| ==> es[j] == es[1..][j - 1];
      if r < 0 then -1 else r + 1
  }

  lemma FirstMatchIs(h: Hmac, f: Frame, es: seq<uint16>, i: nat)
    requires i <= |es| && forall j :: 0 <= j < i ==> !TryEpoch(h, f, es[j])
    ensures i < |es| && TryEpoch(h, f, es[i]) ==> FirstMatch(h, f, es) == i
    ensures i == |es| ==> FirstMatch(h, f, es) == -1
  {
  }

  function Allocated(slots: seq<Slot>, tagId: uint16): (r: seq<Slot>)
    ensures |r| == |slots|
  {
    var i, j := IndexOf(Ids(slots), Some(tagId)), IndexOf(Ids(slots), None);
    if i < 0 && j >= 0 then slots[j := Slot(true, tagId, 0, 0)] else slots
  }

  function SlotOf(slots: seq<Slot>, tagId: uint16): Option<Slot> {
    var i := IndexOf(Ids(slots), Some(tagId));
    if i >= 0 then Some(slots[i]) else None
  }

  /** The epochs tried for a frame given the locks held when it arrives. */
  function Candidates(slots: seq<Slot>, f: Frame): seq<uint16> {
    SearchOrder(SlotOf(Allocated(slots, f.tagId), f.tagId), f.now)
  }

  /** The epoch a frame is accepted under, if it is. */
  function Outcome(h: Hmac, slots: seq<Slot>, f: Frame): Option<uint16> { HitIn(h, f, Candidates(slots, f)) }

  function HitIn(h: Hmac, f: Frame, es: seq<uint16>): Option<uint16> {
    var i := FirstMatch(h, f, es);
    if i >= 0 then Some(es[i]) else None
  }

  function AfterFrame(h: Hmac, slots: seq<Slot>, f: Frame): (r: seq<Slot>)
    ensures |r| == |slots|
  {
    var a := Allocated(slots, f.tagId);
    var i := IndexOf(Ids(a), Some(f.tagId));
    match Outcome(h, slots, f)
    case Some(e) => if i >= 0 then a[i := a[i].(lockedEpoch := e, lockedAtUs := f.now)] else a
    case None => a
  }

  ghost predicate NoneMatches(h: Hmac, f: Frame, es: seq<uint16>, n: int) {
    n <= |es| && forall j :: 0 <= j < n ==> !TryEpoch(h, f, es[j])
  }

  /** A search that found no match before position `i` is decided by position `i`. */
  lemma HitAt(h: Hmac, f: Frame, es: seq<uint16>, i: nat)
    requires NoneMatches(h, f, es, i) && i <= |es| && (i < |es| ==> TryEpoch(h, f, es[i]))
    ensures HitIn(h, f, es) == if i < |es| then Some(es[i]) else None
  {
    FirstMatchIs(h, f, es, i);
  }

  /** The candidates end with 0..200. */
  ghost predicate EndsWide(es: seq<uint16>, n: int) {
    0 <= n && |es| == n + WIDE_MAX + 1 && forall j :: n <= j < |es| ==> es[j] == j - n
  }

  /** For a locked tag the narrow window comes first; for any other there is nothing before 0..200. */
  lemma CandidatesShape(slots: seq<Slot>, f: Frame)
    ensures var a, es := Allocated(slots, f.tagId), Candidates(slots, f);
            var st := IndexOf(Ids(a), Some(f.tagId));
            if st >= 0 && a[st].lockedAtUs > 0 then EndsWide(es, 3) && es[..3] == Narrow(a[st], f.now) else EndsWide(es, 0)
  {
  }

  /** `bmt_auth_get_locked_epoch`. */
  function LockedEpoch(slots: seq<Slot>, tagId: uint16): int {
    match SlotOf(slots, tagId)
    case Some(s) => if s.lockedAtUs > 0 then s.lockedEpoch else -1
    case None => -1
  }

  class Scanner {
    const hmac: Hmac
    const slots: array<Slot>

    ghost predicate Valid() { slots.Length == MAX_TAGS }

    constructor (h: Hmac)
      ensures Valid() && fresh(slots) && hmac == h && slots[..] == Unused()
    {
      hmac := h;
      slots := new Slot[MAX_TAGS](_ => FREE);
    }

    method FindOrAlloc(tagId: uint16) returns (r: int)
      requires Valid()
      modifies slots
      ensures slots[..] == Allocated(old(slots[..]), tagId)
      ensures r == IndexOf(Ids(slots[..]), Some(tagId))
    {
      ghost var ids := Ids(slots[..]);
      var free := -1;
      for i := 0 to MAX_TAGS
        invariant forall j :: 0 <= j < i ==> ids[j] != Some(tagId)
        invariant slots[..] == old(slots[..])
        invariant -1 <= free < i && if free < 0 then forall j :: 0 <= j < i ==> ids[j] != None
                                    else free == IndexOf(ids, None)
      {
        IndexOfIs(ids, Some(tagId), i);
        if slots[i].valid && slots[i].tagId == tagId { return i; }
        if !slots[i].valid && free < 0 {
          IndexOfIs(ids, None, i);
          free := i;
        }
      }
      IndexOfIs(ids, Some(tagId), MAX_TAGS);
      if free < 0 {
        IndexOfIs(ids, None, MAX_TAGS);
        return -1;
      }
      slots[free] := slots[free].(valid := true);
      slots[free] := slots[free].(tagId := tagId, lockedEpoch := 0, lockedAtUs := 0);
      assert Ids(slots[..]) == ids[free := Some(tagId)];
      IndexOfIs(Ids(slots[..]), Some(tagId), free);
      r := free;
    }

    method Lock(st: nat, epoch: uint16, now: int)
      requires Valid() && st < MAX_TAGS
      modifies slots
      ensures slots[..] == old(slots[..])[st := old(slots[st]).(lockedEpoch := epoch, lockedAtUs := now)]
    {
      slots[st] := slots[st].(lockedEpoch := epoch);
      slots[st] := slots[st].(lockedAtUs := now);
    }

    /** The fast path of `bmt_auth_verify_tag` for a locked tag; `es` are all epochs to try. */
    method SearchNarrow(f: Frame, st: nat, ghost es: seq<uint16>) returns (hit: Option<uint16>)
      requires Valid() && st < MAX_TAGS && slots[st].lockedAtUs > 0
      requires EndsWide(es, 3) && es[..3] == Narrow(slots[st], f.now)
      ensures hit.Some? ==> hit == HitIn(hmac, f, es)
      ensures hit.None? ==> NoneMatches(hmac, f, es, 3)
    {
      var elapsed := TruncDiv(f.now - slots[st].lockedAtUs, TICK_US);
      var predicted: int := U16(slots[st].lockedEpoch + elapsed);
      for d := -1 to 2
        invariant NoneMatches(hmac, f, es, d + 1)
      {
        var cand := U16(predicted + d);
        assert es[d + 1] == es[..3][d + 1] == cand;
        if TryEpoch(hmac, f, cand) {
          HitAt(hmac, f, es, d + 1);
          return Some(cand);
        }
      }
      hit := None;
    }

    /** The wide resync, after `n` epochs that did not match. */
    method SearchWide(f: Frame, ghost es: seq<uint16>, ghost n: nat) returns (hit: Option<uint16>)
      requires EndsWide(es, n) && NoneMatches(hmac, f, es, n)
      ensures hit == HitIn(hmac, f, es)
    {
      for e := 0 to WIDE_MAX + 1
        invariant NoneMatches(hmac, f, es, n + e)
      {
        if TryEpoch(hmac, f, e) {
          HitAt(hmac, f, es, n + e);
          return Some(e);
        }
      }
      HitAt(hmac, f, es, |es|);
      hit := None;
    }

    method VerifyTag(f: Frame) returns (ok: bool)
      requires Valid()
      modifies slots
      ensures slots[..] == AfterFrame(hmac, old(slots[..]), f)
      ensures ok == Outcome(hmac, old(slots[..]), f).Some?
    {
      ghost var es := Candidates(slots[..], f);
      CandidatesShape(slots[..], f);
      var st := FindOrAlloc(f.tagId);
      var hit := None;
      var locked := st >= 0 && slots[st].lockedAtUs > 0;
      if locked { hit := SearchNarrow(f, st, es); }
      if hit.None? { hit := SearchWide(f, es, if locked then 3 else 0); }
      if hit.None? { return false; }
      if st >= 0 { Lock(st, hit.value, f.now); }
      ok := true;
    }

    method GetLockedEpoch(tagId: uint16) returns (r: int)
      requires Valid()
      ensures Unique(Ids(slots[..])) ==> r == LockedEpoch(slots[..], tagId)
    {
      ghost var ids := Ids(slots[..]);
      for i := 0 to MAX_TAGS
        invariant forall j :: 0 <= j < i ==> ids[j] != Some(tagId) || slots[j].lockedAtUs <= 0
      {
        if slots[i].valid && slots[i].tagId == tagId && slots[i].lockedAtUs > 0 {
          if Unique(ids) { IndexOfUnique(ids, i); }
          return slots[i].lockedEpoch;
        }
      }
      r := -1;
    }
  }

  // ----- what one frame does -----

  /** A frame is accepted exactly when its MAC matches some epoch of the narrow window of a
      locked tag or of 0..200, and then locks the first match in that order. */
  lemma AcceptedIffSomeEpochMatches(h: Hmac, slots: seq<Slot>, f: Frame)
    ensures Outcome(h, slots, f).Some?
       <==> (exists e: uint16 :: TryEpoch(h, f, e)
               && (e <= WIDE_MAX || (SlotOf(slots, f.tagId).Some? && e in Narrow(SlotOf(slots, f.tagId).value, f.now))))
  {
    var es := Candidates(slots, f);
    AllocatedSlot(slots, f.tagId);
    var s := SlotOf(Allocated(slots, f.tagId), f.tagId);
    var narrow := if s.Some? then Narrow(s.value, f.now) else [];
    assert es == narrow + Wide();
    forall e: uint16 ensures e in es <==> e in narrow || e <= WIDE_MAX {
      if e <= WIDE_MAX { assert e == Wide()[e]; }
    }
    var i := FirstMatch(h, f, es);
    if i >= 0 {
      assert es[i] in es;
    }
    forall e: uint16 | TryEpoch(h, f, e) && e in es ensures i >= 0 {
      assert es[IndexOf(es, e)] == e;
    }
  }

  lemma AllocatedSlot(slots: seq<Slot>, tagId: uint16)
    ensures Ids(Allocated(slots, tagId)) == Claim(Ids(slots), tagId)
    ensures SlotOf(slots, tagId).Some? ==> Allocated(slots, tagId) == slots
    ensures SlotOf(slots, tagId).None? && SlotOf(Allocated(slots, tagId), tagId).Some?
            ==> SlotOf(Allocated(slots, tagId), tagId).value.lockedAtUs == 0
  {
    assert Ids(Allocated(slots, tagId)) == Claim(Ids(slots), tagId);
    ClaimPlaces(Ids(slots), tagId, tagId);
  }

  /** A tag that rebooted is accepted if it is heard within 200 epochs, whatever the scanner
      last locked for it and even when no slot is left. */
  lemma RebootedTagIsAccepted(h: Hmac, slots: seq<Slot>, f: Frame, us: nat)
    requires us / TICK_US <= WIDE_MAX
    requires f.mac == Mac16(h, EpochKey(h, EpochOfUs(us)), f.data) && f.fault(EpochOfUs(us)) == Works
    ensures Outcome(h, slots, f).Some?
  {
    AcceptedIffSomeEpochMatches(h, slots, f);
    assert TryEpoch(h, f, EpochOfUs(us));
  }

  /** The scanner tries the epoch for a frame. */
  predicate Tried(slots: seq<Slot>, f: Frame, epoch: uint16) {
    var s := SlotOf(slots, f.tagId);
    epoch <= WIDE_MAX || (s.Some? && epoch in Narrow(s.value, f.now))
  }

  /** A frame signed at uptime `us` is accepted, whenever it is heard, exactly if its own epoch is
      among 0..200 or in the narrow window of that moment, or another epoch tried happens to give
      the same 16-bit MAC. */
  lemma SignedFrameAcceptedIff(h: Hmac, slots: seq<Slot>, f: Frame, us: nat)
    requires TryEpoch(h, f, EpochOfUs(us))
    ensures Outcome(h, slots, f).Some?
       <==> Tried(slots, f, EpochOfUs(us))
            || exists e: uint16 :: e != EpochOfUs(us) && Tried(slots, f, e) && TryEpoch(h, f, e)
  {
    AcceptedIffSomeEpochMatches(h, slots, f);
  }

  /** Of several epochs whose MAC a frame has, the one it is accepted under: for a locked tag the one
      before the predicted epoch, then that, then the one after; then the least of 0..200. */
  lemma AcceptedInOrder(h: Hmac, slots: seq<Slot>, f: Frame)
    ensures var s, o := SlotOf(slots, f.tagId), Outcome(h, slots, f);
            if s.Some? && s.value.lockedAtUs > 0 && HitInWindow(h, f, s.value).Some? then o == HitInWindow(h, f, s.value)
            else if o.Some? then o.value <= 200 && TryEpoch(h, f, o.value) && forall e: uint16 :: e < o.value ==> !TryEpoch(h, f, e)
            else forall e: uint16 :: e <= 200 ==> !TryEpoch(h, f, e)
  {
    var es, s := Candidates(slots, f), SlotOf(slots, f.tagId);
    AllocatedSlot(slots, f.tagId);
    CandidatesShape(slots, f);
    if s.Some? && s.value.lockedAtUs > 0 {
      WindowFirst(h, f, es, s.value);
      if HitInWindow(h, f, s.value).None? { LeastOfWide(h, f, es, 3); }
    } else {
      LeastOfWide(h, f, es, 0);
    }
  }

  function HitInWindow(h: Hmac, f: Frame, s: Slot): Option<uint16> {
    var p: int := U16(s.lockedEpoch + TruncDiv(f.now - s.lockedAtUs, 3_600_000_000));
    if TryEpoch(h, f, U16(p - 1)) then Some(U16(p - 1))
    else if TryEpoch(h, f, p) then Some(p)
    else if TryEpoch(h, f, U16(p + 1)) then Some(U16(p + 1)) else None
  }

  lemma WindowFirst(h: Hmac, f: Frame, es: seq<uint16>, s: Slot)
    requires |es| >= 3 && s.lockedAtUs > 0 && es[..3] == Narrow(s, f.now)
    ensures HitInWindow(h, f, s).Some? ==> HitIn(h, f, es) == HitInWindow(h, f, s)
    ensures HitInWindow(h, f, s).None? ==> NoneMatches(h, f, es, 3)
  {
    var p: int := Predicted(s, f.now);
    assert es[0] == es[..3][0] == U16(p - 1) && es[1] == es[..3][1] == p && es[2] == es[..3][2] == U16(p + 1);
    if TryEpoch(h, f, es[0]) {
      HitAt(h, f, es, 0);
    } else if TryEpoch(h, f, es[1]) {
      HitAt(h, f, es, 1);
    } else if TryEpoch(h, f, es[2]) {
      HitAt(h, f, es, 2);
    }
  }

  lemma LeastOfWide(h: Hmac, f: Frame, es: seq<uint16>, n: nat)
    requires EndsWide(es, n) && NoneMatches(h, f, es, n)
    ensures var o := HitIn(h, f, es);
            if o.Some? then o.value <= 200 && TryEpoch(h, f, o.value) && forall e: uint16 :: e < o.value ==> !TryEpoch(h, f, e)
            else forall e: uint16 :: e <= 200 ==> !TryEpoch(h, f, e)
  {
    var i := FirstMatch(h, f, es);
    forall e: uint16 | e <= 200 && (i < 0 || n + e < i) ensures !TryEpoch(h, f, e) {
      assert es[n + e] == e;
    }
  }

  // ----- different epochs have different keys -----

  /** No two two-byte inputs have the same first 16 bytes of HMAC under the master key. */
  ghost predicate DistinctKeys(h: Hmac) {
    forall a: Bytes, b: Bytes :: |a| == |b| == 2 && h(TAG_MASTER_KEY, a)[..16] == h(TAG_MASTER_KEY, b)[..16] ==> a == b
  }

  /** The key of an epoch is derived from its number, low byte first, and from all of it: without
      such collisions different epochs have different keys. */
  lemma KeyDeterminesEpoch(h: Hmac, e: uint16, f: uint16)
    ensures exists b: Bytes ::
              |b| == 2 && b[0] as int + 0x100 * b[1] as int == e && EpochKey(h, e) == h(TAG_MASTER_KEY, b)[..16]
    ensures DistinctKeys(h) ==> (EpochKey(h, e) == EpochKey(h, f) <==> e == f)
  {
    var b: Bytes := [(e % 0x100) as byte, (e / 0x100) as byte];
    var c: Bytes := [(f % 0x100) as byte, (f / 0x100) as byte];
    assert EpochKey(h, e) == h(TAG_MASTER_KEY, b)[..16];
    assert b == c ==> b[0] == c[0] && b[1] == c[1];
  }

  /** MACs agree exactly if the first two bytes of the HMACs do. */
  lemma MacIsTwoBytes(h: Hmac, key: Bytes, data: Bytes, key': Bytes, data': Bytes)
    ensures Mac16(h, key, data) == Mac16(h, key', data') <==> h(key, data)[..2] == h(key', data')[..2]
  {
    var d, d' := h(key, data), h(key', data');
    assert d[..2] == [d[0], d[1]] && d'[..2] == [d'[0], d'[1]];
  }

  /** Keys of epochs the scanner tries that differ from the frame's own key give other MACs. */
  ghost predicate DistinctMacs(h: Hmac, slots: seq<Slot>, f: Frame, own: Bytes) {
    forall e: uint16 :: Tried(slots, f, e) && EpochKey(h, e) != own ==> Mac16(h, EpochKey(h, e), f.data) != Mac16(h, own, f.data)
  }

  /** Then, with PSA working, a signed frame is accepted exactly if its own epoch is tried: at most
      200, or in the narrow window of the moment it is heard. */
  lemma SignedFrameAcceptedIffTried(h: Hmac, slots: seq<Slot>, f: Frame, us: nat)
    requires f.mac == Mac16(h, EpochKey(h, EpochOfUs(us)), f.data) && forall e :: f.fault(e) == Works
    requires DistinctKeys(h) && DistinctMacs(h, slots, f, EpochKey(h, EpochOfUs(us)))
    ensures Outcome(h, slots, f).Some? <==> Tried(slots, f, EpochOfUs(us))
    ensures Outcome(h, slots, f).Some? ==> Outcome(h, slots, f).value == EpochOfUs(us)
  {
    var own := EpochOfUs(us);
    SignedFrameAcceptedIff(h, slots, f, us);
    forall e: uint16 | e != own && Tried(slots, f, e) ensures !TryEpoch(h, f, e) {
      KeyDeterminesEpoch(h, e, own);
    }
    if Outcome(h, slots, f).Some? { OutcomeIsTried(h, slots, f); }
  }

  lemma OutcomeIsTried(h: Hmac, slots: seq<Slot>, f: Frame)
    requires Outcome(h, slots, f).Some?
    ensures Tried(slots, f, Outcome(h, slots, f).value) && TryEpoch(h, f, Outcome(h, slots, f).value)
  {
    AllocatedSlot(slots, f.tagId);
  }

  /** So a tag up for more than 200 hours that the scanner holds no lock of is not heard. */
  lemma OldTagUnlockedIsRejected(h: Hmac, slots: seq<Slot>, f: Frame, us: nat)
    requires f.mac == Mac16(h, EpochKey(h, EpochOfUs(us)), f.data) && forall e :: f.fault(e) == Works
    requires DistinctKeys(h) && DistinctMacs(h, slots, f, EpochKey(h, EpochOfUs(us)))
    requires LockedEpoch(slots, f.tagId) == -1 && EpochOfUs(us) > 200
    ensures Outcome(h, slots, f).None?
  {
    SignedFrameAcceptedIffTried(h, slots, f, us);
  }

  /** With PSA failing nothing is accepted but frames whose MAC is 0, and these only if a MAC
      computation fails and not the derivation of the key. */
  lemma FailingPsaAcceptsZeroMacs(h: Hmac, slots: seq<Slot>, f: Frame)
    requires forall e :: f.fault(e) != Works
    ensures Outcome(h, slots, f).Some? <==> f.mac == 0 && exists e: uint16 :: Tried(slots, f, e) && f.fault(e) == MacFails
  {
    AcceptedIffSomeEpochMatches(h, slots, f);
    forall e: uint16 ensures TryEpoch(h, f, e) <==> f.mac == 0 && f.fault(e) == MacFails {
      assert f.fault(e) != Works;
    }
  }

  /** The narrow window contains the locked epoch itself exactly while less than two ticks have
      passed since the lock, or a multiple of 2^16 ticks with one more or one less. */
  lemma WindowHoldsLockedEpochIff(s: Slot, now: int)
    requires 0 < s.lockedAtUs
    ensures s.lockedEpoch in Narrow(s, now)
       <==> U16(TruncDiv(now - s.lockedAtUs, TICK_US)) in {0, 1, 0xFFFF}
  {
    var ticks := TruncDiv(now - s.lockedAtUs, TICK_US);
    ShiftedEpoch(s.lockedEpoch, ticks, -1);
    ShiftedEpoch(s.lockedEpoch, ticks, 0);
    ShiftedEpoch(s.lockedEpoch, ticks, 1);
  }

  lemma ShiftedEpoch(epoch: uint16, ticks: int, d: int)
    requires -1 <= d <= 1
    ensures U16(U16(epoch + ticks) + d) == epoch <==> U16(ticks) == U16(-d)
  {
    var p: int, t: int := U16(epoch + ticks), U16(ticks);
    assert p == epoch + t || p == epoch + t - 0x1_0000 by {
      assert epoch + ticks == (epoch + t) + (ticks / 0x1_0000) * 0x1_0000;
      WrapOnce(epoch + t, ticks / 0x1_0000);
    }
  }

  lemma WrapOnce(x: int, k: int)
    requires 0 <= x < 0x2_0000
    ensures U16(x + k * 0x1_0000) == if x < 0x1_0000 then x else x - 0x1_0000
  {
  }

  /** A frame that was accepted is accepted again, byte for byte, at any time in the next two
      ticks. */
  lemma HeardAgainIsAccepted(h: Hmac, slots: seq<Slot>, f: Frame, later: int)
    requires Outcome(h, slots, f).Some? && 0 < f.now <= later < f.now + 2 * TICK_US
    ensures Outcome(h, AfterFrame(h, slots, f), f.(now := later)).Some?
  {
    var after, again, e := AfterFrame(h, slots, f), f.(now := later), Outcome(h, slots, f).value;
    OwnSlotAfterFrame(h, slots, f);
    AcceptedIffSomeEpochMatches(h, slots, f);
    OutcomeIsTried(h, slots, f);
    assert TryEpoch(h, again, e);
    var s := SlotOf(after, f.tagId);
    if s.Some? {
      WindowHoldsLockedEpochIff(s.value, later);
      assert e in Narrow(s.value, later);
    } else {
      NoSlotMeansWide(h, slots, f);
    }
    AcceptedIffSomeEpochMatches(h, after, again);
  }

  lemma NoSlotMeansWide(h: Hmac, slots: seq<Slot>, f: Frame)
    requires Outcome(h, slots, f).Some? && SlotOf(AfterFrame(h, slots, f), f.tagId).None?
    ensures Outcome(h, slots, f).value <= WIDE_MAX
  {
    OwnSlotAfterFrame(h, slots, f);
    assert Candidates(slots, f) == Wide();
  }

  /** The frame carries its uptime's MAC, and the scanner tries its epoch. */
  ghost predicate GenuineAndTried(h: Hmac, slots: seq<Slot>, f: Frame, us: nat) {
    && f.now > 0 && Tried(slots, f, EpochOfUs(us)) && f.fault(EpochOfUs(us)) == Works
    && f.mac == Mac16(h, EpochKey(h, EpochOfUs(us)), f.data)
  }

  /** So a frame of one epoch is accepted in the next: a tick after it was heard, when the tag
      itself has moved on. */
  lemma NextEpochStillAccepts(h: Hmac, slots: seq<Slot>, f: Frame, us: nat)
    requires GenuineAndTried(h, slots, f, us)
    ensures EpochOfUs(us + TICK_US) == U16(EpochOfUs(us) + 1) != EpochOfUs(us)
    ensures Outcome(h, slots, f).Some?
    ensures Outcome(h, AfterFrame(h, slots, f), f.(now := f.now + TICK_US)).Some?
  {
    NextTick(us);
    assert TryEpoch(h, f, EpochOfUs(us));
    SignedFrameAcceptedIff(h, slots, f, us);
    HeardAgainIsAccepted(h, slots, f, f.now + TICK_US);
  }

  lemma NextTick(us: nat)
    ensures EpochOfUs(us + TICK_US) == U16(EpochOfUs(us) + 1) != EpochOfUs(us)
  {
    assert (us + TICK_US) / TICK_US == us / TICK_US + 1;
  }

  /** Such a frame, of epoch 300, where no number of 0..200 helps. */
  lemma FrameOfEpoch300(h: Hmac, data: Bytes) returns (slots: seq<Slot>, f: Frame, us: nat)
    ensures |slots| == MAX_TAGS && f.data == data && EpochOfUs(us) == 300 && GenuineAndTried(h, slots, f, us)
  {
    us := 300 * TICK_US;
    slots := Unused()[0 := Slot(true, 7, 300, 1)];
    f := Frame(7, data, Mac16(h, EpochKey(h, 300), data), 1, (_: uint16) => Works);
    IndexOfIs(Ids(slots), Some(7 as uint16), 0);
    WindowHoldsLockedEpochIff(slots[0], 1);
  }

  /** A rejected frame may claim a free slot but leaves every used slot as it was. */
  lemma RejectionKeepsLocks(h: Hmac, slots: seq<Slot>, f: Frame)
    requires Outcome(h, slots, f).None?
    ensures forall i :: 0 <= i < |slots| && slots[i].valid ==> AfterFrame(h, slots, f)[i] == slots[i]
    ensures forall id :: LockedEpoch(AfterFrame(h, slots, f), id) == LockedEpoch(slots, id)
  {
    var a := Allocated(slots, f.tagId);
    forall id ensures LockedEpoch(a, id) == LockedEpoch(slots, id) {
      AllocatedSlot(slots, f.tagId);
      if id != f.tagId { OtherTagKeepsSlot(h, slots, f, id); }
    }
  }

  /** A frame of one tag does not change what is known of another. */
  lemma OtherTagKeepsSlot(h: Hmac, slots: seq<Slot>, f: Frame, id: uint16)
    requires id != f.tagId
    ensures SlotOf(AfterFrame(h, slots, f), id) == SlotOf(slots, id)
  {
    AllocatedSlot(slots, f.tagId);
    assert Ids(AfterFrame(h, slots, f)) == Claim(Ids(slots), f.tagId);
    ClaimPlaces(Ids(slots), f.tagId, id);
  }

  lemma OwnSlotAfterFrame(h: Hmac, slots: seq<Slot>, f: Frame)
    ensures Ids(AfterFrame(h, slots, f)) == Claim(Ids(slots), f.tagId)
    ensures var s := SlotOf(Allocated(slots, f.tagId), f.tagId);
            SlotOf(AfterFrame(h, slots, f), f.tagId)
              == match Outcome(h, slots, f)
                 case Some(e) => if s.Some? then Some(s.value.(lockedEpoch := e, lockedAtUs := f.now)) else None
                 case None => s
  {
    AllocatedSlot(slots, f.tagId);
    assert Ids(AfterFrame(h, slots, f)) == Ids(Allocated(slots, f.tagId));
  }

  // ----- whole histories -----

  function Unused(): seq<Slot> { seq(MAX_TAGS, _ => FREE) }

  function Run(h: Hmac, fs: seq<Frame>): (slots: seq<Slot>)
    ensures |slots| == MAX_TAGS
  {
    if |fs| == 0 then Unused() else AfterFrame(h, Run(h, fs[..|fs| - 1]), fs[|fs| - 1])
  }

  function TagIds(fs: seq<Frame>): (ids: seq<uint16>)
    ensures |ids| == |fs|
  {
    if |fs| == 0 then [] else TagIds(fs[..|fs| - 1]) + [fs[|fs| - 1].tagId]
  }

  /** The epoch under which a tag's frames were last accepted, or -1. */
  function LastAccepted(h: Hmac, fs: seq<Frame>, id: uint16): int {
    if |fs| == 0 then -1
    else
      var init, f := fs[..|fs| - 1], fs[|fs| - 1];
      var o := Outcome(h, Run(h, init), f);
      if f.tagId == id && o.Some? then o.value else LastAccepted(h, init, id)
  }

  lemma {:induction false} SlotsAreClaimed(h: Hmac, fs: seq<Frame>)
    ensures Ids(Run(h, fs)) == ClaimAll(MAX_TAGS, TagIds(fs))
    ensures Unique(Ids(Run(h, fs)))
  {
    ClaimAllUnique(MAX_TAGS, TagIds(fs));
    if |fs| != 0 {
      var init := fs[..|fs| - 1];
      SlotsAreClaimed(h, init);
      assert TagIds(fs)[..|fs| - 1] == TagIds(init);
      OwnSlotAfterFrame(h, Run(h, init), fs[|fs| - 1]);
    }
  }

  /** After any history slots hold distinct tags and are never freed, and the getter returns
      the last accepted epoch of each of the first 20 tags seen and -1 for every other. */
  lemma GetterReturnsLastAccepted(h: Hmac, fs: seq<Frame>, id: uint16)
    requires forall i :: 0 <= i < |fs| ==> fs[i].now > 0
    ensures LockedEpoch(Run(h, fs), id)
         == if id in FirstDistinct(MAX_TAGS, TagIds(fs)) then LastAccepted(h, fs, id) else -1
    ensures SlotOf(Run(h, fs), id).Some? <==> id in FirstDistinct(MAX_TAGS, TagIds(fs))
  {
    GetterFollowsClaims(h, fs, id);
    SlotsAreClaimed(h, fs);
    ClaimAllUnique(MAX_TAGS, TagIds(fs));
  }

  lemma {:induction false} GetterFollowsClaims(h: Hmac, fs: seq<Frame>, id: uint16)
    requires forall i :: 0 <= i < |fs| ==> fs[i].now > 0
    ensures LockedEpoch(Run(h, fs), id) == if Some(id) in Ids(Run(h, fs)) then LastAccepted(h, fs, id) else -1
  {
    if |fs| != 0 {
      var init, f := fs[..|fs| - 1], fs[|fs| - 1];
      GetterFollowsClaims(h, init, id);
      GetterStep(h, Run(h, init), f, id);
      SlotsAreClaimed(h, init);
      if id !in TagIds(init) {
        NeverSeenNeverAccepted(h, init, id);
      } else {
        SeenHasSlotOrFull(MAX_TAGS, TagIds(init), id);
      }
    }
  }

  /** One frame moves the getter of its own tag to the epoch it was accepted under, if the tag
      has or gets a slot, and no other. */
  lemma GetterStep(h: Hmac, slots: seq<Slot>, f: Frame, id: uint16)
    requires f.now > 0
    ensures SlotOf(AfterFrame(h, slots, f), id).Some? <==> Some(id) in Claim(Ids(slots), f.tagId)
    ensures var o := Outcome(h, slots, f);
            LockedEpoch(AfterFrame(h, slots, f), id)
              == if f.tagId == id && o.Some? && Some(id) in Claim(Ids(slots), id) then o.value
                 else LockedEpoch(slots, id)
  {
    AllocatedSlot(slots, f.tagId);
    if f.tagId == id {
      OwnSlotAfterFrame(h, slots, f);
    } else {
      OtherTagKeepsSlot(h, slots, f, id);
      ClaimPlaces(Ids(slots), f.tagId, id);
    }
  }

  lemma {:induction false} NeverSeenNeverAccepted(h: Hmac, fs: seq<Frame>, id: uint16)
    requires id !in TagIds(fs)
    ensures LastAccepted(h, fs, id) == -1
  {
    if |fs| != 0 {
      assert TagIds(fs)[|fs| - 1] == fs[|fs| - 1].tagId;
      NeverSeenNeverAccepted(h, fs[..|fs| - 1], id);
    }
  }
}
