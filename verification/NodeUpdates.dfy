/** The images a node flashes over the interleavings of its triggers and update tasks. */
module NodeUpdates {
  import opened Machine
  import NO = NodeOta
  import opened Firmware

  /** What one step of the update tasks means for the images. */
  function Meaning(e: NO.Event, server: Server): seq<Event> {
    match e
    case Fetched(_, outcome) => if outcome == NO.Success then [Fetch(server)] else []
    case Restart(_) => [Firmware.Restart]
    case Crash => [Firmware.Restart]
    case _ => []
  }

  /** `servers[k]` is what the server offers at step k. */
  function Updates(es: seq<NO.Event>, servers: seq<Server>): seq<Event>
    requires |servers| == |es|
    decreases |es|
  {
    if |es| == 0 then [] else Meaning(es[0], servers[0]) + Updates(es[1..], servers[1..])
  }

  predicate HasFlashed(s: NO.State, i: nat) {
    i < |s.tasks| && (s.tasks[i] == NO.Flashed || s.tasks[i] == NO.Marked)
  }

  /** An image that has been flashed but not booted has a task waiting for its restart. */
  ghost predicate AwaitsRestart(s: NO.State, st: State) {
    st.boot == st.running || exists i :: HasFlashed(s, i)
  }

  lemma StepAwaits(first: Image, s: NO.State, us: seq<Event>, e: NO.Event, server: Server)
    requires NO.OneAtMost(s) && NO.Enabled(s, e)
    requires RestartsInBetween(first, us) && AwaitsRestart(s, Run(first, us))
    ensures RestartsInBetween(first, us + Meaning(e, server))
    ensures AwaitsRestart(NO.After(s, e), Run(first, us + Meaning(e, server)))
  {
    var s' := NO.After(s, e);
    match e {
      case Fetched(i, outcome) =>
        if outcome == NO.Success {
          assert NO.Live(s, i);
          assert forall j :: HasFlashed(s, j) ==> NO.Live(s, j);
          ExtendRestarts(first, us, Fetch(server));
          assert HasFlashed(s', i);
        } else {
          assert us + [] == us;
          assert forall j :: HasFlashed(s, j) ==> HasFlashed(s', j);
        }
      case Restart(_) => ExtendRestarts(first, us, Firmware.Restart);
      case Crash => ExtendRestarts(first, us, Firmware.Restart);
      case _ =>
        assert us + [] == us;
        assert forall j :: HasFlashed(s, j) ==> HasFlashed(s', j);
    }
  }

  lemma {:induction false} RunAwaits(first: Image, s: NO.State, us: seq<Event>, es: seq<NO.Event>, servers: seq<Server>)
    requires NO.Legal(s, es) && NO.NeverTwo(s, es) && |servers| == |es|
    requires RestartsInBetween(first, us) && AwaitsRestart(s, Run(first, us))
    ensures RestartsInBetween(first, us + Updates(es, servers))
    decreases |es|
  {
    if |es| == 0 {
      assert us + [] == us;
    } else {
      var us' := us + Meaning(es[0], servers[0]);
      StepAwaits(first, s, us, es[0], servers[0]);
      RunAwaits(first, NO.After(s, es[0]), us', es[1..], servers[1..]);
      Regroup(us, Meaning(es[0], servers[0]), Updates(es[1..], servers[1..]));
    }
  }

  /** In every run of a node, with crashes anywhere, in which each caller that raises the flag finds
      it down, the versions flashed strictly increase. */
  lemma NodeVersionsIncrease(first: Image, es: seq<NO.Event>, servers: seq<Server>)
    requires NO.Legal(NO.FRESH, es) && NO.RaisesOnlyWhenDown(NO.FRESH, es) && |servers| == |es|
    ensures RestartsInBetween(first, Updates(es, servers))
    ensures Increasing(Run(first, Updates(es, servers)).flashed)
  {
    NO.OneTaskAtATimeIff(NO.FRESH, es);
    RunAwaits(first, NO.FRESH, [], es, servers);
    assert [] + Updates(es, servers) == Updates(es, servers);
    VersionsIncrease(first, Updates(es, servers));
  }

  /** Two overlapping triggers can take a node back: both tasks compare with the running image. */
  lemma OverlapCanGoBack(first: Image, high: Image, low: Image) returns (es: seq<NO.Event>, servers: seq<Server>)
    requires first.sha != high.sha && first.sha != low.sha
    requires Newer(low.version, first.version) && Newer(high.version, low.version)
    ensures NO.Legal(NO.FRESH, es) && |servers| == |es|
    ensures Run(first, Updates(es, servers)).flashed == [first, high, low]
  {
    var l, f0, f1 := NO.Launch, NO.Fetched(0, NO.Success), NO.Fetched(1, NO.Success);
    var s1 := NO.After(NO.FRESH, NO.SeeIdle);
    var s2 := NO.After(s1, NO.SeeIdle);
    var s3 := NO.After(s2, l);
    var s4 := NO.After(s3, l);
    var s5 := NO.After(s4, f0);
    NO.Cons(s5, f1, []);
    NO.Cons(s4, f0, [f1] + []);
    NO.Cons(s3, l, [f0] + ([f1] + []));
    NO.Cons(s2, l, [l] + ([f0] + ([f1] + [])));
    NO.Cons(s1, NO.SeeIdle, [l] + ([l] + ([f0] + ([f1] + []))));
    NO.Cons(NO.FRESH, NO.SeeIdle, [NO.SeeIdle] + ([l] + ([l] + ([f0] + ([f1] + [])))));
    var a, b := Flawless(high), Flawless(low);
    es := [NO.SeeIdle] + ([NO.SeeIdle] + ([l] + ([l] + ([f0] + ([f1] + [])))));
    servers := [a] + ([a] + ([a] + ([a] + ([a] + ([b] + [])))));
    UpdatesStep(f1, b, [], []);
    UpdatesStep(f0, a, [f1] + [], [b] + []);
    UpdatesStep(l, a, [f0] + ([f1] + []), [a] + ([b] + []));
    UpdatesStep(l, a, [l] + ([f0] + ([f1] + [])), [a] + ([a] + ([b] + [])));
    UpdatesStep(NO.SeeIdle, a, [l] + ([l] + ([f0] + ([f1] + []))), [a] + ([a] + ([a] + ([b] + []))));
    UpdatesStep(NO.SeeIdle, a, [NO.SeeIdle] + ([l] + ([l] + ([f0] + ([f1] + [])))),
                [a] + ([a] + ([a] + ([a] + ([b] + [])))));
    TwoFetchesCanGoBack(first, high, low);
    assert Updates(es, servers) == [Fetch(a), Fetch(b)];
  }

  lemma UpdatesStep(e: NO.Event, server: Server, es: seq<NO.Event>, servers: seq<Server>)
    requires |servers| == |es|
    ensures Updates([e] + es, [server] + servers) == Meaning(e, server) + Updates(es, servers)
  {
    assert ([e] + es)[1..] == es && ([server] + servers)[1..] == servers;
  }
}
