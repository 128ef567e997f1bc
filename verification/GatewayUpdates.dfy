/** The images a gateway flashes over the interleavings of its OTA tasks. */
module GatewayUpdates {
  import opened Machine
  import SF = SingleFlight
  import opened Firmware

  /** What one step of the OTA tasks means for the images: a successful self-update has fetched
      from `server`, and a reboot of either kind starts the image that was flashed. */
  function Meaning(e: SF.Event, server: Server): seq<Event> {
    match e
    case Flashed(_) => [Fetch(server)]
    case Reboot(_) => [Restart]
    case Reset => [Restart]
    case _ => []
  }

  /** `servers[k]` is what the server offers at step k. */
  function Updates(es: seq<SF.Event>, servers: seq<Server>): seq<Event>
    requires |servers| == |es|
    decreases |es|
  {
    if |es| == 0 then [] else Meaning(es[0], servers[0]) + Updates(es[1..], servers[1..])
  }

  /** An image that has been flashed but not booted has a flight waiting for its restart. */
  ghost predicate AwaitsRestart(s: SF.State, st: State) {
    st.boot == st.running || exists i :: 0 <= i < |s.flights| && s.flights[i].stage == SF.Restarting
  }

  lemma FlashedAwaits(first: Image, s: SF.State, us: seq<Event>, i: nat, server: Server)
    requires SF.Inv(s) && SF.Enabled(s, SF.Flashed(i))
    requires RestartsInBetween(first, us) && AwaitsRestart(s, Run(first, us))
    ensures RestartsInBetween(first, us + [Fetch(server)])
    ensures AwaitsRestart(SF.After(s, SF.Flashed(i)), Run(first, us + [Fetch(server)]))
  {
    assert SF.Live(s, i);
    assert forall j :: 0 <= j < |s.flights| && s.flights[j].stage == SF.Restarting ==> SF.Live(s, j);
    ExtendRestarts(first, us, Fetch(server));
    assert SF.After(s, SF.Flashed(i)).flights[i].stage == SF.Restarting;
  }

  lemma OthersAwait(s: SF.State, e: SF.Event, st: State)
    requires SF.Enabled(s, e) && !e.Reboot? && !e.Reset? && AwaitsRestart(s, st)
    ensures AwaitsRestart(SF.After(s, e), st)
  {
    if i :| 0 <= i < |s.flights| && s.flights[i].stage == SF.Restarting {
      assert SF.After(s, e).flights[i].stage == SF.Restarting;
    }
  }

  lemma StepAwaits(first: Image, s: SF.State, us: seq<Event>, e: SF.Event, server: Server)
    requires SF.Inv(s) && SF.Enabled(s, e)
    requires RestartsInBetween(first, us) && AwaitsRestart(s, Run(first, us))
    ensures RestartsInBetween(first, us + Meaning(e, server))
    ensures AwaitsRestart(SF.After(s, e), Run(first, us + Meaning(e, server)))
  {
    if e.Flashed? {
      FlashedAwaits(first, s, us, e.i, server);
    } else if e.Reboot? || e.Reset? {
      ExtendRestarts(first, us, Restart);
    } else {
      assert us + Meaning(e, server) == us;
      OthersAwait(s, e, Run(first, us));
    }
  }

  lemma {:induction false} RunAwaits(first: Image, s: SF.State, us: seq<Event>, es: seq<SF.Event>, servers: seq<Server>)
    requires SF.Inv(s) && SF.Legal(s, es) && |servers| == |es|
    requires RestartsInBetween(first, us) && AwaitsRestart(s, Run(first, us))
    ensures RestartsInBetween(first, us + Updates(es, servers))
    decreases |es|
  {
    if |es| == 0 {
      assert us + [] == us;
    } else {
      var us' := us + Meaning(es[0], servers[0]);
      StepAwaits(first, s, us, es[0], servers[0]);
      SF.InvPreserved(s, es[0]);
      RunAwaits(first, SF.After(s, es[0]), us', es[1..], servers[1..]);
      Regroup(us, Meaning(es[0], servers[0]), Updates(es[1..], servers[1..]));
    }
  }

  /** In every interleaving of starters and tasks, across reboots and resets, a successful update is
      followed by the restart before the next, so the versions flashed strictly increase. */
  lemma GatewayVersionsIncrease(first: Image, es: seq<SF.Event>, servers: seq<Server>)
    requires SF.Legal(SF.BOOTED, es) && |servers| == |es|
    ensures RestartsInBetween(first, Updates(es, servers))
    ensures Increasing(Run(first, Updates(es, servers)).flashed)
  {
    RunAwaits(first, SF.BOOTED, [], es, servers);
    assert [] + Updates(es, servers) == Updates(es, servers);
    VersionsIncrease(first, Updates(es, servers));
  }
}
