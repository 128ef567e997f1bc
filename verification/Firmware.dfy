/** Which image is flashed: version strings built from file times, their comparison by strncmp,
    the fetch, and the versions flashed over runs with reboots. */
module Firmware {
  import opened Machine

  /** `esp_app_desc_t.version` is a 32-byte field; a build stamp fills the first 14 bytes. */
  const FIELD := 32
  const STAMP := 14
  const ZERO: byte := 48
  const NINE: byte := 57

  type Version = v: Bytes | |v| == FIELD
    witness [0, 0, 0, 0, 0, 0, 0, 0, 0, 0, 0, 0, 0, 0, 0, 0, 0, 0, 0, 0, 0, 0, 0, 0, 0, 0, 0, 0, 0, 0, 0, 0]

  datatype Image = Image(sha: Bytes, version: Version)

  // ----- strncmp -----

  /** The C library's comparison of at most n bytes: positive, zero or negative. */
  function StrNCmp(a: Bytes, b: Bytes, n: nat): int
    requires n <= |a| && n <= |b|
  {
    if n == 0 then 0
    else if a[0] != b[0] then a[0] as int - b[0] as int
    else if a[0] == 0 then 0
    else StrNCmp(a[1..], b[1..], n - 1)
  }

  predicate Newer(a: Version, b: Version) { StrNCmp(a, b, FIELD) > 0 }

  lemma {:induction false} Antisymmetric(a: Bytes, b: Bytes, n: nat)
    requires n <= |a| && n <= |b|
    ensures StrNCmp(b, a, n) == -StrNCmp(a, b, n)
  {
    if n > 0 { Antisymmetric(a[1..], b[1..], n - 1); }
  }

  lemma {:induction false} Transitive(a: Bytes, b: Bytes, c: Bytes, n: nat)
    requires n <= |a| && n <= |b| && n <= |c|
    requires StrNCmp(a, b, n) > 0 && StrNCmp(b, c, n) > 0
    ensures StrNCmp(a, c, n) > 0
  {
    if a[0] == b[0] && b[0] == c[0] { Transitive(a[1..], b[1..], c[1..], n - 1); }
  }

  /** The text of a field: what stands before the first NUL. */
  function Text(v: Bytes): Bytes {
    if |v| == 0 || v[0] == 0 then [] else [v[0]] + Text(v[1..])
  }

  /** Two fields compare equal exactly when they hold the same text. */
  lemma {:induction false} EqualIffSameText(a: Bytes, b: Bytes, n: nat)
    requires n == |a| == |b|
    ensures StrNCmp(a, b, n) == 0 <==> Text(a) == Text(b)
  {
    if n > 0 && a[0] == b[0] && a[0] != 0 {
      EqualIffSameText(a[1..], b[1..], n - 1);
      assert Text(a)[1..] == Text(a[1..]) && Text(b)[1..] == Text(b[1..]);
    } else if n > 0 && a[0] != b[0] {
      assert Text(a) != [] ==> Text(a)[0] == a[0];
      assert Text(b) != [] ==> Text(b)[0] == b[0];
    }
  }

  // ----- digit strings -----

  predicate Digits(a: Bytes, w: nat) {
    w <= |a| && forall i :: 0 <= i < w ==> ZERO <= a[i] <= NINE
  }

  /** The number w digits stand for, behind digits that stand for `high`. */
  function Number(a: Bytes, w: nat, high: nat): nat
    requires Digits(a, w)
  {
    if w == 0 then high else Number(a[1..], w - 1, 10 * high + a[0] as int - 48)
  }

  function Num(a: Bytes, w: nat): nat
    requires Digits(a, w)
  {
    Number(a, w, 0)
  }

  /** What follows never outweighs the leading digits. */
  lemma {:induction false} LeadingDigitsDecide(a: Bytes, b: Bytes, w: nat, x: nat, y: nat)
    requires Digits(a, w) && Digits(b, w) && x > y
    ensures Number(a, w, x) > Number(b, w, y)
  {
    if w > 0 {
      LeadingDigitsDecide(a[1..], b[1..], w - 1, 10 * x + a[0] as int - 48, 10 * y + b[0] as int - 48);
    }
  }

  /** On digit strings of one width, strncmp orders by number: for every width, and for every
      limit n at least that width if a NUL or the limit ends both. */
  lemma OrderIsNumeric(a: Bytes, b: Bytes, w: nat, n: nat)
    requires Digits(a, w) && Digits(b, w) && w <= n <= |a| && n <= |b|
    requires w < n ==> a[w] == 0 && b[w] == 0
    ensures StrNCmp(a, b, n) > 0 <==> Num(a, w) > Num(b, w)
    ensures StrNCmp(a, b, n) == 0 <==> Num(a, w) == Num(b, w)
  {
    OrderBehind(a, b, w, n, 0);
  }

  lemma {:induction false} OrderBehind(a: Bytes, b: Bytes, w: nat, n: nat, high: nat)
    requires Digits(a, w) && Digits(b, w) && w <= n <= |a| && n <= |b|
    requires w < n ==> a[w] == 0 && b[w] == 0
    ensures StrNCmp(a, b, n) > 0 <==> Number(a, w, high) > Number(b, w, high)
    ensures StrNCmp(a, b, n) == 0 <==> Number(a, w, high) == Number(b, w, high)
  {
    if w > 0 {
      var x, y := 10 * high + a[0] as int - 48, 10 * high + b[0] as int - 48;
      if x > y {
        LeadingDigitsDecide(a[1..], b[1..], w - 1, x, y);
      } else if x < y {
        LeadingDigitsDecide(b[1..], a[1..], w - 1, y, x);
      } else {
        OrderBehind(a[1..], b[1..], w - 1, n - 1, x);
      }
    }
  }

  /** The limit is 32 in the code and 14 in the documentation; on build stamps both decide alike, */
  lemma LimitDoesNotMatterForStamps(a: Version, b: Version)
    requires Digits(a, STAMP) && Digits(b, STAMP) && a[STAMP] == 0 && b[STAMP] == 0
    ensures StrNCmp(a, b, FIELD) > 0 <==> StrNCmp(a, b, STAMP) > 0
  {
    OrderIsNumeric(a, b, STAMP, FIELD);
    OrderIsNumeric(a, b, STAMP, STAMP);
  }

  /** and on other versions they differ exactly if the first 14 characters agree and the rest says
      "newer". */
  lemma LimitMattersIff(a: Version, b: Version)
    ensures (StrNCmp(a, b, FIELD) > 0) != (StrNCmp(a, b, STAMP) > 0)
       <==> SameText(a, b, STAMP) && StrNCmp(a[STAMP..], b[STAMP..], FIELD - STAMP) > 0
  {
    CompareInParts(a, b, STAMP, FIELD);
    if SameText(a, b, STAMP) { CompareInParts(a, b, STAMP, STAMP); }
  }

  /** The first k characters agree, and the text does not end among them. */
  predicate SameText(a: Bytes, b: Bytes, k: nat)
    requires k <= |a| && k <= |b|
  {
    forall i :: 0 <= i < k ==> a[i] == b[i] != 0
  }

  lemma {:induction false} CompareInParts(a: Bytes, b: Bytes, k: nat, n: nat)
    requires k <= n && n <= |a| && n <= |b|
    ensures StrNCmp(a, b, n) == if SameText(a, b, k) then StrNCmp(a[k..], b[k..], n - k) else StrNCmp(a, b, k)
  {
    if k == 0 {
      assert a[0..] == a && b[0..] == b;
    } else if a[0] == b[0] && a[0] != 0 {
      CompareInParts(a[1..], b[1..], k - 1, n - 1);
      assert a[1..][k - 1..] == a[k..] && b[1..][k - 1..] == b[k..];
      assert SameText(a, b, k) <==> SameText(a[1..], b[1..], k - 1) by {
        assert forall i :: 1 <= i < k ==> a[i] == a[1..][i - 1] && b[i] == b[1..][i - 1];
      }
    }
  }

  /** There are such versions. */
  lemma LimitMattersForLongerVersions()
    ensures exists a: Version, b: Version :: StrNCmp(a, b, FIELD) > 0 && StrNCmp(a, b, STAMP) == 0
  {
    var b := Padded(seq(15, _ => ZERO));
    var a := b[14 := NINE];
    CompareInParts(a, b, STAMP, FIELD);
    CompareInParts(a, b, STAMP, STAMP);
    assert SameText(a, b, STAMP);
  }

  // ----- the version of a build -----

  type Stamp = s: Bytes | Digits(s, STAMP) && |s| == STAMP
    witness [48, 48, 48, 48, 48, 48, 48, 48, 48, 48, 48, 48, 48, 48]

  function NoStamp(): Stamp { seq(STAMP, _ => ZERO) }

  function Padded(text: Bytes): Version
    requires |text| <= FIELD
  {
    text + seq(FIELD - |text|, _ => 0)
  }

  /** The build's version is the latest modification time among its source files. */
  method ProjectVersion(stamps: seq<Stamp>) returns (ver: Stamp)
    ensures ver == NoStamp() || ver in stamps
    ensures forall s :: s in stamps ==> Num(s, STAMP) <= Num(ver, STAMP)
  {
    ver := NoStamp();
    for i := 0 to |stamps|
      invariant ver == NoStamp() || ver in stamps[..i]
      invariant forall j :: 0 <= j < i ==> Num(stamps[j], STAMP) <= Num(ver, STAMP)
    {
      OrderIsNumeric(stamps[i], ver, STAMP, STAMP);
      if StrNCmp(stamps[i], ver, STAMP) > 0 { ver := stamps[i]; }
    }
  }

  /** Of two builds, the one with the later latest edit is the newer one for the fetch. */
  lemma LaterBuildIsNewer(a: Stamp, b: Stamp)
    ensures Newer(Padded(a), Padded(b)) <==> Num(a, STAMP) > Num(b, STAMP)
  {
    OrderIsNumeric(Padded(a), Padded(b), STAMP, FIELD);
    NumberOfPadded(a, STAMP, seq(FIELD - STAMP, _ => 0), 0);
    NumberOfPadded(b, STAMP, seq(FIELD - STAMP, _ => 0), 0);
  }

  lemma {:induction false} NumberOfPadded(a: Bytes, w: nat, rest: Bytes, high: nat)
    requires Digits(a, w)
    ensures Digits(a + rest, w) && Number(a + rest, w, high) == Number(a, w, high)
  {
    assert forall i :: 0 <= i < w ==> (a + rest)[i] == a[i];
    if w > 0 {
      NumberOfPadded(a[1..], w - 1, rest, 10 * high + a[0] as int - 48);
      assert (a + rest)[1..] == a[1..] + rest;
    }
  }

  // ----- the fetch -----

  type Err = int

  const OK: Err := 0
  const FAIL: Err := -1
  const NOT_FOUND: Err := 0x105
  const IN_PROGRESS: Err := 0x9001

  /** How the OTA library answers during one fetch: `busy` polls in progress before `last`. */
  datatype Server = Server(
    begin: Err, desc: Err, image: Image, busy: nat, last: Err, complete: bool, finish: Err)
  {
    predicate Sane() { last != IN_PROGRESS }
  }

  predicate Wanted(offer: Image, cur: Image) { offer.sha != cur.sha && Newer(offer.version, cur.version) }

  /** Everything an update needs. */
  predicate Delivers(s: Server, running: Image) {
    s.begin == OK && s.desc == OK && Wanted(s.image, running) && s.last == OK && s.complete && s.finish == OK
  }

  class Device {
    const running: Image
    /** The image the bootloader will start next. */
    var boot: Image
    /** OTA handles begun, and those finished or aborted. */
    var begun: nat
    var closed: nat

    constructor (image: Image)
      ensures running == boot == image && begun == closed == 0
    {
      running, boot, begun, closed := image, image, 0, 0;
    }

    method Abort()
      modifies `closed
      ensures closed == old(closed) + 1
    {
      closed := closed + 1;
    }

    method Perform(s: Server, poll: nat) returns (err: Err)
      requires poll <= s.busy
      ensures err == if poll < s.busy then IN_PROGRESS else s.last
    {
      err := if poll < s.busy then IN_PROGRESS else s.last;
    }

    method Finish(s: Server) returns (err: Err)
      modifies `boot, `closed
      ensures err == s.finish && closed == old(closed) + 1
      ensures boot == if err == OK then s.image else old(boot)
    {
      closed := closed + 1;
      if s.finish == OK { boot := s.image; }
      err := s.finish;
    }

    /** Success means that a strictly newer, different image was received in full and will be
        booted; any other answer leaves the boot image alone. A refused image is NOT_FOUND. No
        handle is leaked or closed twice. */
    method FetchAndFlash(s: Server) returns (err: Err)
      requires s.Sane()
      modifies `boot, `begun, `closed
      ensures err == OK <==> Delivers(s, running)
      ensures err == OK <==>
        && s.image.sha != running.sha && StrNCmp(s.image.version, running.version, 32) > 0
        && s.complete && s.begin == s.desc == s.last == s.finish == OK
      ensures boot == if err == OK then s.image else old(boot)
      ensures s.begin == OK && s.desc == OK && !Wanted(s.image, running) ==> err == NOT_FOUND
      ensures err == NOT_FOUND ==> !Wanted(s.image, running) || NOT_FOUND in {s.begin, s.desc, s.last, s.finish}
      ensures begun - closed == old(begun - closed) && begun == old(begun) + if s.begin == OK then 1 else 0
    {
      err := s.begin;
      if err != OK { return; }
      begun := begun + 1;
      err := s.desc;
      if err != OK {
        Abort();
        return;
      }
      if s.image.sha == running.sha {
        Abort();
        return NOT_FOUND;
      }
      if StrNCmp(s.image.version, running.version, FIELD) <= 0 {
        Abort();
        return NOT_FOUND;
      }
      err := Perform(s, 0);
      var poll := 0;
      while err == IN_PROGRESS
        invariant begun == old(begun) + 1 && closed == old(closed) && boot == old(boot)
        invariant poll <= s.busy && err == if poll < s.busy then IN_PROGRESS else s.last
        decreases s.busy - poll
      {
        poll := poll + 1;
        err := Perform(s, poll);
      }
      if err == OK && s.complete {
        err := Finish(s);
      } else {
        Abort();
        if err == OK { err := FAIL; }
      }
    }
  }

  // ----- runs -----

  /** `flashed` lists the images that took over, oldest first, starting with the original one. */
  datatype State = State(running: Image, boot: Image, flashed: seq<Image>)

  /** Several fetches may run against one running image before the restart. */
  datatype Event = Fetch(s: Server) | Restart

  function After(st: State, e: Event): State {
    match e
    case Fetch(s) => if Delivers(s, st.running) then st.(boot := s.image, flashed := st.flashed + [s.image]) else st
    case Restart => st.(running := st.boot)
  }

  function Run(first: Image, es: seq<Event>): State {
    if |es| == 0 then State(first, first, [first]) else After(Run(first, es[..|es| - 1]), es[|es| - 1])
  }

  /** A successful fetch is followed by the restart before the next fetch: what the gateway's
      single flight guarantees. */
  ghost predicate RestartsInBetween(first: Image, es: seq<Event>) {
    forall k :: 0 <= k < |es| && es[k].Fetch? ==> var st := Run(first, es[..k]); st.boot == st.running
  }

  lemma ExtendRestarts(first: Image, us: seq<Event>, e: Event)
    requires RestartsInBetween(first, us)
    requires e.Fetch? ==> Run(first, us).boot == Run(first, us).running
    ensures RestartsInBetween(first, us + [e]) && Run(first, us + [e]) == After(Run(first, us), e)
  {
    var us' := us + [e];
    assert us'[..|us|] == us;
    forall k | 0 <= k < |us'| && us'[k].Fetch? ensures var st := Run(first, us'[..k]); st.boot == st.running {
      assert us'[..k] == us[..k];
    }
  }

  predicate Increasing(images: seq<Image>) {
    forall i, j :: 0 <= i < j < |images| ==> Newer(images[j].version, images[i].version)
  }

  /** Each image flashed is newer than the one flashed before it. */
  ghost predicate EachBeatsTheLast(first: Image, es: seq<Event>) {
    forall k :: 0 <= k < |es| && es[k].Fetch? ==>
      var st := Run(first, es[..k]);
      Delivers(es[k].s, st.running) ==> Newer(es[k].s.image.version, st.boot.version)
  }

  /** The versions flashed increase along a run exactly if each successful fetch brings an image
      newer than the one that would boot - which the code compares only with the one running. */
  lemma {:induction false} VersionsIncreaseIff(first: Image, es: seq<Event>)
    ensures Increasing(Run(first, es).flashed) <==> EachBeatsTheLast(first, es)
    ensures var st := Run(first, es); |st.flashed| > 0 && st.flashed[|st.flashed| - 1] == st.boot
  {
    if |es| > 0 {
      var front, e := es[..|es| - 1], es[|es| - 1];
      VersionsIncreaseIff(first, front);
      EachBeatsStep(first, es);
      var st := Run(first, front);
      if e.Fetch? && Delivers(e.s, st.running) { AppendIncreasingIff(st.flashed, e.s.image); }
    }
  }

  lemma EachBeatsStep(first: Image, es: seq<Event>)
    requires |es| > 0
    ensures var front, e := es[..|es| - 1], es[|es| - 1];
            var st := Run(first, front);
            EachBeatsTheLast(first, es)
            <==> EachBeatsTheLast(first, front)
                 && (e.Fetch? && Delivers(e.s, st.running) ==> Newer(e.s.image.version, st.boot.version))
  {
    var front := es[..|es| - 1];
    assert forall k :: 0 <= k < |front| ==> es[..k] == front[..k] && es[k] == front[k];
  }

  lemma AppendIncreasingIff(images: seq<Image>, image: Image)
    requires |images| > 0
    ensures Increasing(images + [image])
       <==> Increasing(images) && Newer(image.version, images[|images| - 1].version)
  {
    var all, n := images + [image], |images|;
    if Increasing(images) && Newer(image.version, images[n - 1].version) {
      forall i, j | 0 <= i < j < |all| ensures Newer(all[j].version, all[i].version) {
        if j == n && i < n - 1 { Transitive(image.version, images[n - 1].version, images[i].version, FIELD); }
      }
    }
    if Increasing(all) {
      assert forall i :: 0 <= i < n ==> all[i] == images[i];
      assert Newer(all[n].version, all[n - 1].version);
    }
  }

  /** With a restart after each success they always do. */
  lemma VersionsIncrease(first: Image, es: seq<Event>)
    requires RestartsInBetween(first, es)
    ensures var st := Run(first, es);
            Increasing(st.flashed) && |st.flashed| > 0 && st.flashed[|st.flashed| - 1] == st.boot
  {
    VersionsIncreaseIff(first, es);
  }

  /** No version is flashed twice, however often the auto-check runs and the device reboots: a
      server that always offers the same version is followed at most once. */
  lemma FixedImageFlashedOnce(first: Image, es: seq<Event>, offered: Bytes)
    requires RestartsInBetween(first, es)
    requires forall e :: e in es && e.Fetch? ==> Text(e.s.image.version) == offered
    ensures |Run(first, es).flashed| <= 2
  {
    VersionsIncrease(first, es);
    OnlyOffered(first, es, offered);
    var all := Run(first, es).flashed;
    if |all| > 2 {
      EqualIffSameText(all[2].version, all[1].version, FIELD);
    }
  }

  lemma {:induction false} OnlyOffered(first: Image, es: seq<Event>, offered: Bytes)
    requires forall e :: e in es && e.Fetch? ==> Text(e.s.image.version) == offered
    ensures var all := Run(first, es).flashed;
            |all| > 0 && forall i :: 1 <= i < |all| ==> Text(all[i].version) == offered
  {
    if |es| > 0 {
      assert es[|es| - 1] in es;
      OnlyOffered(first, es[..|es| - 1], offered);
    }
  }

  /** Two successful fetches before one restart can go back: each is compared with the running
      image, not with the one already flashed. */
  lemma TwoFetchesCanGoBack(first: Image, high: Image, low: Image)
    requires first.sha != high.sha && first.sha != low.sha
    requires Newer(low.version, first.version) && Newer(high.version, low.version)
    ensures var st := Run(first, [Fetch(Flawless(high)), Fetch(Flawless(low))]);
            st.flashed == [first, high, low] && !Increasing(st.flashed)
  {
    Transitive(high.version, low.version, first.version, FIELD);
    Antisymmetric(high.version, low.version, FIELD);
    var es := [Fetch(Flawless(high)), Fetch(Flawless(low))];
    assert es[..1][..0] == [] && Run(first, es[..1][..0]) == State(first, first, [first]);
    assert Run(first, es[..1]) == State(first, high, [first, high]);
    var st := Run(first, es);
    assert !Newer(st.flashed[2].version, st.flashed[1].version);
  }

  function Flawless(image: Image): Server {
    Server(OK, OK, image, 0, OK, true, OK)
  }
}
