/** Scanner and relay side of an update: how a success survives the reboot to be reported, and
    how many update tasks one node can start. */
module NodeOta {
  import opened Machine

  /** An update task: downloading; image flashed but not yet noted in NVS; about to restart. */
  datatype Stage = Fetching | Flashed | Marked | Gone

  /** The task that reports a success after boot: before its NVS read; having read the mark; having
      cleared it but not yet reported; finished. */
  datatype Reporter = Waiting | Clearing | Cleared | Done

  datatype Outcome = Success | NotFound | Failed

  /** `pending` is in NVS and survives reboots. `starters` counts callers past the test of
      `triggered` but not yet past setting it. The rest observes: successful flashes, reports of
      success, reports of failure, clearing writes that failed, and successes that will never be
      reported. */
  datatype State = State(
    pending: bool, triggered: bool, starters: nat, tasks: seq<Stage>, reporter: Reporter,
    flashes: nat, reports: nat, failures: nat, failedClears: nat, lost: nat)

  const FRESH := State(false, false, 0, [], Waiting, 0, 0, 0, 0, 0)

  datatype Event =
    | SeeIdle
    | Launch
    | Fetched(i: nat, outcome: Outcome)
    | Mark(i: nat, works: bool)
    | Restart(i: nat)
    | Crash
    | ReadMark(works: bool)
    | ClearMark(works: bool)
    | Report

  predicate TaskAt(s: State, i: nat, stage: Stage) { i < |s.tasks| && s.tasks[i] == stage }

  predicate Enabled(s: State, e: Event) {
    match e
    case SeeIdle => !s.triggered
    case Launch => s.starters > 0
    case Fetched(i, _) => TaskAt(s, i, Fetching)
    case Mark(i, _) => TaskAt(s, i, Flashed)
    case Restart(i) => TaskAt(s, i, Marked)
    case Crash => true
    case ReadMark(_) => s.reporter == Waiting
    case ClearMark(_) => s.reporter == Clearing
    case Report => s.reporter == Cleared
  }

  function Unmarked(tasks: seq<Stage>): nat {
    if tasks == [] then 0 else One(tasks[0] == Flashed) + Unmarked(tasks[1..])
  }

  function One(b: bool): nat { if b then 1 else 0 }

  /** A reboot ends every task; flashes not yet noted and a report not yet sent are lost. */
  function Rebooted(s: State): State {
    s.(triggered := false, starters := 0, tasks := [], reporter := Waiting,
       lost := s.lost + Unmarked(s.tasks) + One(s.reporter == Cleared))
  }

  function After(s: State, e: Event): State
    requires Enabled(s, e)
  {
    match e
    case SeeIdle => s.(starters := s.starters + 1)
    case Launch => s.(starters := s.starters - 1, triggered := true, tasks := s.tasks + [Fetching])
    case Fetched(i, outcome) =>
      if outcome == Success then s.(tasks := s.tasks[i := Flashed], flashes := s.flashes + 1)
      else s.(tasks := s.tasks[i := Gone], triggered := false, failures := s.failures + One(outcome == Failed))
    case Mark(i, works) =>
      s.(tasks := s.tasks[i := Marked], pending := s.pending || works, lost := s.lost + One(s.pending || !works))
    case Restart(_) => Rebooted(s)
    case Crash => Rebooted(s)
    case ReadMark(works) => s.(reporter := if works && s.pending then Clearing else Done)
    case ClearMark(works) =>
      s.(reporter := Cleared, pending := s.pending && !works, failedClears := s.failedClears + One(!works))
    case Report => s.(reporter := Done, reports := s.reports + 1)
  }

  ghost predicate Legal(s: State, es: seq<Event>)
    decreases |es|
  {
    es == [] || (Enabled(s, es[0]) && Legal(After(s, es[0]), es[1..]))
  }

  ghost function RunFrom(s: State, es: seq<Event>): State
    requires Legal(s, es)
    decreases |es|
  {
    if es == [] then s else RunFrom(After(s, es[0]), es[1..])
  }

  // ----- reports and flashes -----

  /** Every success is at one place: still only in RAM, noted, being reported, reported, or lost.
      The only other source of reports is a mark that could not be cleared. */
  ghost predicate Balanced(s: State) {
    && s.reports + One(s.reporter == Cleared) + One(s.pending) + Unmarked(s.tasks) + s.lost
         == s.flashes + s.failedClears
    && (s.reporter == Clearing ==> s.pending)
  }

  lemma StepBalances(s: State, e: Event)
    requires Balanced(s) && Enabled(s, e)
    ensures Balanced(After(s, e))
  {
    if e.Launch? { UnmarkedAppend(s.tasks, Fetching); }
    if e.Fetched? { UnmarkedUpdate(s.tasks, e.i, if e.outcome == Success then Flashed else Gone); }
    if e.Mark? { UnmarkedUpdate(s.tasks, e.i, Marked); }
  }

  lemma {:induction false} UnmarkedUpdate(tasks: seq<Stage>, i: nat, x: Stage)
    requires i < |tasks|
    ensures Unmarked(tasks[i := x]) == Unmarked(tasks) - One(tasks[i] == Flashed) + One(x == Flashed)
  {
    if i == 0 {
      assert tasks[0 := x][1..] == tasks[1..];
    } else {
      UnmarkedUpdate(tasks[1..], i - 1, x);
      assert tasks[i := x][1..] == tasks[1..][i - 1 := x];
    }
  }

  lemma {:induction false} UnmarkedAppend(tasks: seq<Stage>, x: Stage)
    ensures Unmarked(tasks + [x]) == Unmarked(tasks) + One(x == Flashed)
  {
    if tasks != [] {
      UnmarkedAppend(tasks[1..], x);
      assert (tasks + [x])[1..] == tasks[1..] + [x];
    }
  }

  lemma {:induction false} RunBalances(s: State, es: seq<Event>)
    requires Balanced(s) && Legal(s, es)
    ensures Balanced(RunFrom(s, es))
    decreases |es|
  {
    if es != [] {
      StepBalances(s, es[0]);
      RunBalances(After(s, es[0]), es[1..]);
    }
  }

  /** Over every run, with crashes anywhere and any number of update tasks at once, a node reports
      no more successes than it had, plus one for each clearing write that failed; so while those
      succeed it reports none twice. */
  lemma ReportsAtMostFlashes(es: seq<Event>)
    requires Legal(FRESH, es)
    ensures var s := RunFrom(FRESH, es);
            && s.reports <= s.flashes + s.failedClears
            && (s.reports <= s.flashes
                <==> s.failedClears <= One(s.reporter == Cleared) + One(s.pending) + Unmarked(s.tasks) + s.lost)
            && (s.failedClears == 0 ==> s.reports <= s.flashes)
            && ((s.failedClears == 0 && s.lost == 0 && !s.pending && s.reporter == Done && Unmarked(s.tasks) == 0)
                ==> s.reports == s.flashes)
  {
    RunBalances(FRESH, es);
  }

  /** How many updates fail in a run; finding nothing to do is not a failure. */
  function FailedUpdates(es: seq<Event>): nat {
    if es == [] then 0 else One(es[0].Fetched? && es[0].outcome == Failed) + FailedUpdates(es[1..])
  }

  /** Each failure is reported, once, and nothing else is reported as one. */
  lemma {:induction false} FailuresAreReportedOnce(s: State, es: seq<Event>)
    requires Legal(s, es)
    ensures RunFrom(s, es).failures == s.failures + FailedUpdates(es)
    decreases |es|
  {
    if es != [] { FailuresAreReportedOnce(After(s, es[0]), es[1..]); }
  }

  lemma Cons(s: State, e: Event, es: seq<Event>)
    requires Enabled(s, e) && Legal(After(s, e), es)
    ensures Legal(s, [e] + es) && RunFrom(s, [e] + es) == RunFrom(After(s, e), es)
  {
    assert ([e] + es)[1..] == es;
  }

  /** Booted with a mark, after one flash, `k` reports and as many failed clears. */
  function Noted(k: nat): State { FRESH.(pending := true, flashes := 1, reports := k, failedClears := k) }

  lemma {:induction false} Rounds(j: nat, k: nat) returns (es: seq<Event>)
    requires j <= k
    ensures Legal(Noted(j), es)
    ensures RunFrom(Noted(j), es) == FRESH.(reporter := Done, flashes := 1, reports := k + 1, failedClears := k)
    decreases k - j
  {
    var s1 := After(Noted(j), ReadMark(true));
    var s2 := After(s1, ClearMark(j == k));
    var s3 := After(s2, Report);
    es := [];
    if j < k {
      es := Rounds(j + 1, k);
      assert After(s3, Crash) == Noted(j + 1);
      Cons(s3, Crash, es);
      es := [Crash] + es;
    }
    Cons(s2, Report, es);
    es := [Report] + es;
    Cons(s1, ClearMark(j == k), es);
    es := [ClearMark(j == k)] + es;
    Cons(Noted(j), ReadMark(true), es);
    es := [ReadMark(true)] + es;
  }

  /** The bound is sharp: with one flash and k failed clears a node can report k + 1 times. */
  lemma FailedClearsRepeatTheReport(k: nat) returns (es: seq<Event>)
    ensures Legal(FRESH, es)
    ensures var s := RunFrom(FRESH, es); s.flashes == 1 && s.failedClears == k && s.reports == k + 1
  {
    es := Rounds(0, k);
    var s1 := After(FRESH, SeeIdle);
    var s2 := After(s1, Launch);
    var s3 := After(s2, Fetched(0, Success));
    var s4 := After(s3, Mark(0, true));
    assert s2.tasks == [Fetching] && s3.tasks == [Flashed];
    assert s4.tasks == [Marked] && Unmarked(s4.tasks[1..]) == 0;
    assert s4.lost == 0;
    assert Unmarked(s4.tasks) == 0;
    assert After(s4, Restart(0)) == Noted(0);
    Cons(s4, Restart(0), es);
    es := [Restart(0)] + es;
    Cons(s3, Mark(0, true), es);
    es := [Mark(0, true)] + es;
    Cons(s2, Fetched(0, Success), es);
    es := [Fetched(0, Success)] + es;
    Cons(s1, Launch, es);
    es := [Launch] + es;
    Cons(FRESH, SeeIdle, es);
    es := [SeeIdle] + es;
  }

  // ----- how many tasks at once -----

  predicate Live(s: State, i: nat) { i < |s.tasks| && s.tasks[i] != Gone }

  ghost predicate OneAtMost(s: State) {
    forall i, j :: Live(s, i) && Live(s, j) ==> i == j
  }

  ghost predicate FlagIsLive(s: State) {
    s.triggered <==> exists i :: Live(s, i)
  }

  /** No state of the run has two live tasks. */
  ghost predicate NeverTwo(s: State, es: seq<Event>)
    requires Legal(s, es)
    decreases |es|
  {
    OneAtMost(s) && (es != [] ==> NeverTwo(After(s, es[0]), es[1..]))
  }

  /** Whoever raises the flag finds it down. */
  ghost predicate RaisesOnlyWhenDown(s: State, es: seq<Event>)
    requires Legal(s, es)
    decreases |es|
  {
    es != [] ==> (es[0].Launch? ==> !s.triggered) && RaisesOnlyWhenDown(After(s, es[0]), es[1..])
  }

  lemma OneAtMostPreserved(s: State, e: Event)
    requires OneAtMost(s) && FlagIsLive(s) && Enabled(s, e) && !(e.Launch? && s.triggered)
    ensures OneAtMost(After(s, e)) && FlagIsLive(After(s, e))
  {
    var s' := After(s, e);
    if e.Launch? {
      assert Live(s', |s.tasks|);
      assert forall i: nat :: Live(s', i) ==> Live(s, i) || i == |s.tasks|;
    } else if e.Fetched? || e.Mark? {
      assert Live(s, e.i);
      assert forall j: nat :: j != e.i ==> (Live(s', j) <==> Live(s, j));
      assert s'.triggered <==> Live(s', e.i);
    } else if !e.Restart? && !e.Crash? {
      assert forall i: nat :: Live(s', i) <==> Live(s, i);
    }
  }

  lemma SecondLaunch(s: State)
    requires FlagIsLive(s) && s.triggered && s.starters > 0
    ensures !OneAtMost(After(s, Launch))
  {
    var i :| Live(s, i);
    assert Live(After(s, Launch), i) && Live(After(s, Launch), |s.tasks|);
  }

  /** Over every run, no two update tasks are ever live at once exactly if each caller that raises
      the flag finds it down at that moment; and then the flag is up exactly while a task is live. */
  lemma {:induction false} OneTaskAtATimeIff(s: State, es: seq<Event>)
    requires OneAtMost(s) && FlagIsLive(s) && Legal(s, es)
    ensures NeverTwo(s, es) <==> RaisesOnlyWhenDown(s, es)
    ensures NeverTwo(s, es) ==> FlagIsLive(RunFrom(s, es))
    decreases |es|
  {
    if es != [] {
      if es[0].Launch? && s.triggered {
        SecondLaunch(s);
      } else {
        OneAtMostPreserved(s, es[0]);
        OneTaskAtATimeIff(After(s, es[0]), es[1..]);
      }
    }
  }

  /** The flag is tested and set in two steps, so two callers can both get through. */
  lemma OverlappingTriggersStartTwo()
    ensures var es := [SeeIdle, SeeIdle, Launch, Launch];
            Legal(FRESH, es) && RunFrom(FRESH, es).tasks == [Fetching, Fetching]
  {
    var s1 := After(FRESH, SeeIdle);
    var s2 := After(s1, SeeIdle);
    var s3 := After(s2, Launch);
    Cons(s3, Launch, []);
    Cons(s2, Launch, [Launch]);
    Cons(s1, SeeIdle, [Launch, Launch]);
    Cons(FRESH, SeeIdle, [SeeIdle, Launch, Launch]);
    assert [Launch] + [] == [Launch] && [SeeIdle] + [Launch, Launch] == [SeeIdle, Launch, Launch];
  }

  // ----- the code, run without interruption -----

  /** A whole update task, and a whole report task. */
  function Updated(s: State, i: nat, outcome: Outcome, markWorks: bool): State
    requires TaskAt(s, i, Fetching)
  {
    var s1 := After(s, Fetched(i, outcome));
    if outcome == Success then After(After(s1, Mark(i, markWorks)), Restart(i)) else s1
  }

  function Reported(s: State, openWorks: bool, clearWorks: bool): State
    requires s.reporter == Waiting
  {
    var s1 := After(s, ReadMark(openWorks));
    if s1.reporter == Clearing then After(After(s1, ClearMark(clearWorks)), Report) else s1
  }

  class Node {
    var pending: Option<byte>
    var triggered: bool
    ghost var s: State

    /** The fields agree with the machine's state. */
    ghost predicate Valid()
      reads this
    {
      s.triggered == triggered && s.pending == (pending.Some? && pending.value != 0)
    }

    constructor ()
      ensures Valid() && s == FRESH
    {
      pending, triggered, s := None, false, FRESH;
    }

    method MarkPending(openWorks: bool, setWorks: bool, commitWorks: bool)
      modifies `pending
      ensures pending == if openWorks && setWorks && commitWorks then Some(1) else old(pending)
    {
      if !openWorks { return; }
      if setWorks && commitWorks { pending := Some(1); }
    }

    method CheckAndClearPending(openWorks: bool, clearWorks: bool) returns (was: bool)
      modifies `pending
      ensures was <==> openWorks && old(pending).Some? && old(pending).value != 0
      ensures pending == if was && clearWorks then Some(0) else old(pending)
    {
      if !openWorks { return false; }
      var val: byte := if pending.Some? then pending.value else 0;
      if val != 0 && clearWorks { pending := Some(0); }
      was := val != 0;
    }

    method Trigger() returns (started: bool)
      requires Valid()
      modifies this
      ensures Valid() && started == !old(triggered)
      ensures s == if started then After(After(old(s), SeeIdle), Launch) else old(s)
    {
      if triggered { return false; }
      s := After(s, SeeIdle);
      triggered := true;
      s := After(s, Launch);
      started := true;
    }

    /** What is sent, if anything: 1 for a failure; a success restarts without a word. */
    method OtaWifiTask(ghost i: nat, wifiWorks: bool, fetched: Outcome, openWorks: bool, setWorks: bool, commitWorks: bool)
      returns (sent: Option<byte>)
      requires Valid() && TaskAt(s, i, Fetching)
      modifies this
      ensures Valid()
      ensures var outcome := if wifiWorks then fetched else Failed;
              && s == Updated(old(s), i, outcome, openWorks && setWorks && commitWorks)
              && sent == (if outcome == Failed then Some(1) else None)
    {
      var reportFail := true;
      if wifiWorks {
        if fetched == Success {
          s := After(s, Fetched(i, Success));
          MarkPending(openWorks, setWorks, commitWorks);
          s := After(s, Mark(i, openWorks && setWorks && commitWorks));
          triggered := false;
          s := After(s, Restart(i));
          return None;
        } else if fetched == NotFound {
          reportFail := false;
        }
      }
      sent := if reportFail then Some(1) else None;
      triggered := false;
      s := After(s, Fetched(i, if wifiWorks then fetched else Failed));
    }

    method ReportPendingTask(openWorks: bool, clearWorks: bool) returns (sent: Option<byte>)
      requires Valid() && s.reporter == Waiting
      modifies this
      ensures Valid() && s == Reported(old(s), openWorks, clearWorks)
      ensures sent == if s.reports > old(s).reports then Some(0) else None
      ensures sent.Some? <==> openWorks && old(pending).Some? && old(pending).value != 0
    {
      var was := CheckAndClearPending(openWorks, clearWorks);
      sent := None;
      s := After(s, ReadMark(openWorks));
      if was {
        s := After(s, ClearMark(clearWorks));
        sent := Some(0);
        s := After(s, Report);
      }
    }
  }

  /** The whole tasks are runs of the machine, so the balance holds after each. */
  lemma WholeTasksBalance(s: State, i: nat, outcome: Outcome, works: bool, clears: bool)
    requires Balanced(s)
    ensures TaskAt(s, i, Fetching) ==> Balanced(Updated(s, i, outcome, works))
    ensures s.reporter == Waiting ==> Balanced(Reported(s, works, clears))
  {
    if TaskAt(s, i, Fetching) {
      var s1 := After(s, Fetched(i, outcome));
      StepBalances(s, Fetched(i, outcome));
      if outcome == Success {
        StepBalances(s1, Mark(i, works));
        StepBalances(After(s1, Mark(i, works)), Restart(i));
      }
    }
    if s.reporter == Waiting {
      var s1 := After(s, ReadMark(works));
      if s1.reporter == Clearing { StepBalances(s1, ClearMark(clears)); }
    }
  }
}
