/**
Several watchdogs of one solution, as two run-command reports of it start them:
which verdict each probe comes to, and when that is right.
*/
module JudgeVerdicts {
  import opened Tally
  import opened Judge
  import opened JudgeLedgers
  import opened JudgeLocks
  import opened JudgeWatchdog
  import opened JudgeRedelivery

  // probes that found no key and made one
  function Recreated(k: Key): Event -> nat {
    (e: Event) => if e.Incremented? && e.role == Watchdog && e.key == k && e.got == 1 then 1 else 0
  }

  // watchdog DELs that removed the key
  function KillHit(k: Key): Event -> nat {
    (e: Event) => if e.Deleted? && e.role == Watchdog && e.key == k && e.hit then 1 else 0
  }

  // One handler has taken the key and dispatched its command, no listener takes it.
  ghost predicate TakenOnce(log: seq<Event>, k: Key) {
    && Sum(log, Took(Handler, k)) == 1 && Sum(log, Dispatched(k)) >= 1
    && Sum(log, Took(ResultListener, k)) == 0 && Sum(log, Took(CommandListener, k)) == 0
  }

  // The handler's lock is spent on the dispatch, so nobody gives the key back.
  lemma NobodyGivesBack(s: State, k: Key)
    requires WatchdogLaws(s, k) && TakenOnce(s.log, k)
    ensures forall e :: e in s.log ==>
              && GaveBack(Handler, k)(e) == 0 && GaveBack(ResultListener, k)(e) == 0
              && GaveBack(CommandListener, k)(e) == 0
  {
    var log := s.log;
    SumAtLeast(log, Spent(Handler, k), Dispatched(k), GaveBack(Handler, k));
    SumAtMost(log, GaveBack(ResultListener, k), Spent(ResultListener, k), Nothing());
    SumAtMost(log, GaveBack(CommandListener, k), Spent(CommandListener, k), Nothing());
    SumZero(log, Nothing());
    SumZero(log, GaveBack(Handler, k));
    SumZero(log, GaveBack(ResultListener, k));
    SumZero(log, GaveBack(CommandListener, k));
  }

  lemma RemovedByReportsAndWatchdogs(s: State, k: Key)
    requires WatchdogLaws(s, k) && Clean(s) && TakenOnce(s.log, k)
    ensures Sum(s.log, Removed(k)) == Sum(s.log, DoneReleased(k)) + Sum(s.log, KillHit(k))
  {
    NobodyGivesBack(s, k);
    forall e | e in s.log ensures Removed(k)(e) == DoneReleased(k)(e) + KillHit(k)(e) {
      assert CleanEvent(e);
    }
    SumAtMost(s.log, Removed(k), DoneReleased(k), KillHit(k));
    SumAtLeast(s.log, Removed(k), DoneReleased(k), KillHit(k));
  }

  lemma AcquiredByHandlerAndWatchdogs(s: State, k: Key)
    requires Clean(s) && TakenOnce(s.log, k)
    ensures Sum(s.log, Acquired(k)) == 1 + Sum(s.log, Recreated(k))
  {
    SumZero(s.log, Took(ResultListener, k));
    SumZero(s.log, Took(CommandListener, k));
    forall e | e in s.log ensures Acquired(k)(e) == Took(Handler, k)(e) + Recreated(k)(e) {
      assert CleanEvent(e);
      assert Took(ResultListener, k)(e) == 0 && Took(CommandListener, k)(e) == 0;
    }
    SumAtMost(s.log, Acquired(k), Took(Handler, k), Recreated(k));
    SumAtLeast(s.log, Acquired(k), Took(Handler, k), Recreated(k));
  }

  // The key is there exactly as often as it was made and not removed.
  lemma KeyLaw(s: State, k: Key)
    requires WatchdogLaws(s, k) && Clean(s) && TakenOnce(s.log, k)
    ensures Present(s, k) + Sum(s.log, DoneReleased(k)) + Sum(s.log, KillHit(k)) == 1 + Sum(s.log, Recreated(k))
  {
    RemovedByReportsAndWatchdogs(s, k);
    AcquiredByHandlerAndWatchdogs(s, k);
  }

  // With any number of watchdogs, a probe goes on to delete and report exactly
  // when probes have made the key as often as Done reports and watchdogs have
  // removed it.  That verdict is right, a report for the unreported only, exactly
  // when, before any Done report, watchdogs have removed the key only as often as
  // probes made it anew, and after one, not every removal has been made up for.
  lemma VerdictIff(maxAttempts: nat, s: State, t: nat, k: Key)
    requires WatchdogLaws(s, k) && Clean(s) && TakenOnce(s.log, k)
    requires t < |s.threads| && s.threads[t] == Probing(k) && Enabled(s, Run(t, Redis(Applied)))
    ensures var n := Next(maxAttempts, s, Run(t, Redis(Applied)));
            var recreated, killed := Sum(s.log, Recreated(k)), Sum(s.log, KillHit(k));
            var done := Sum(s.log, DoneReleased(k));
            && (n.threads[t] == Killing(k) <==> recreated == done + killed)
            && ((n.threads[t] == Killing(k) <==> done == 0)
                <==> if done == 0 then killed == recreated else recreated != done + killed)
  {
    KeyLaw(s, k);
  }

  // ---------- after a Done report ----------

  lemma ProbesSplit(log: seq<Event>, k: Key)
    requires forall e :: e in log ==> CleanEvent(e)
    ensures Sum(log, Probed(k)) == Sum(log, SawRunning(k)) + Sum(log, Recreated(k))
  {
    forall e | e in log ensures Probed(k)(e) == SawRunning(k)(e) + Recreated(k)(e) {
      assert CleanEvent(e);
    }
    SumAtMost(log, Probed(k), SawRunning(k), Recreated(k));
    SumAtLeast(log, Probed(k), SawRunning(k), Recreated(k));
  }

  lemma HitsAreKills(early: seq<Event>, late: seq<Event>, k: Key)
    requires early <= late
    ensures Sum(late, KillHit(k)) - Sum(early, KillHit(k)) <= Sum(late, KilledBy(k)) - Sum(early, KilledBy(k))
  {
    var rest := late[|early|..];
    assert late == early + rest;
    SumConcat(early, rest, KillHit(k));
    SumConcat(early, rest, KilledBy(k));
    SumAtMost(rest, KillHit(k), KilledBy(k), Nothing());
    SumZero(rest, Nothing());
  }

  lemma OtherRunsDoNotProbe(maxAttempts: nat, s: State, t: nat, c: Choice, k: Key)
    requires Enabled(s, Run(t, c)) && ListenersOk(s) && s.threads[t] != Probing(k)
    ensures var n := Next(maxAttempts, s, Run(t, c));
            Sum(n.log, Probed(k)) == Sum(s.log, Probed(k)) && Sum(n.log, SawRunning(k)) == Sum(s.log, SawRunning(k))
  {
    assert ListenerOk(s.threads[t]);
    var e := Act(maxAttempts, s.store, s.msgs, s.threads[t], c);
    SumAppended(s.log, e.event, Probed(k));
    SumAppended(s.log, e.event, SawRunning(k));
  }

  // Only a probe's step probes.
  lemma OtherStepsDoNotProbe(maxAttempts: nat, s: State, l: Label, k: Key)
    requires Enabled(s, l) && ListenersOk(s) && !(l.Run? && s.threads[l.t] == Probing(k))
    ensures var n := Next(maxAttempts, s, l);
            Sum(n.log, Probed(k)) == Sum(s.log, Probed(k)) && Sum(n.log, SawRunning(k)) == Sum(s.log, SawRunning(k))
  {
    match l {
      case Deliver(_, m) =>
        SumSnoc(s.log, Responded(m, true), Probed(k));
        SumSnoc(s.log, Responded(m, true), SawRunning(k));
      case Expire(x) =>
        SumSnoc(s.log, Expired(x), Probed(k));
        SumSnoc(s.log, Expired(x), SawRunning(k));
      case Run(t, c) => OtherRunsDoNotProbe(maxAttempts, s, t, c, k);
      case _ =>
    }
  }

  // One Done report has released the key, and base watchdogs had come to their
  // verdicts by then.
  ghost predicate Released(s: State, k: Key, base: nat) {
    && WatchdogLaws(s, k) && Clean(s) && TakenOnce(s.log, k) && Sum(s.log, DoneReleased(k)) == 1
    && Sum(s.log, KillHit(k)) + base <= Sum(s.log, KilledBy(k))
    && Sum(s.log, SawRunning(k)) >= base
  }

  // Without a false report so far, no watchdog has removed anything since.
  lemma NoKillsSince(s: State, k: Key, base: nat)
    requires Released(s, k, base) && Sum(s.log, SawRunning(k)) == base
    ensures Sum(s.log, KillHit(k)) == 0 && Present(s, k) == Sum(s.log, Recreated(k))
    ensures Sum(s.log, Probed(k)) == base + Present(s, k)
  {
    KeyLaw(s, k);
    ProbesSplit(s.log, k);
  }

  lemma StepKeepsReleased(maxAttempts: nat, s: State, l: Label, k: Key, base: nat)
    requires Released(s, k, base) && Enabled(s, l) && CleanLabel(l)
    ensures var n := Next(maxAttempts, s, l);
            TakenOnce(n.log, k) && Sum(n.log, DoneReleased(k)) == 1 ==> Released(n, k, base)
    ensures s.log <= Next(maxAttempts, s, l).log
  {
    var n := Next(maxAttempts, s, l);
    StepKeepsValid(maxAttempts, s, l);
    StepKeepsWatchdogLaws(maxAttempts, s, l, k);
    StepKeepsClean(maxAttempts, s, l);
    HitsAreKills(s.log, n.log, k);
    SumGrows(s.log, n.log, SawRunning(k));
  }

  // The first probe after the release finds nothing.
  lemma FirstProbeIsRight(maxAttempts: nat, s: State, l: Label, k: Key, base: nat)
    requires Released(s, k, base) && Enabled(s, l) && CleanLabel(l)
    requires Sum(s.log, Probed(k)) <= base + 1 ==> Sum(s.log, SawRunning(k)) == base
    ensures var n := Next(maxAttempts, s, l);
            Sum(n.log, Probed(k)) <= base + 1 ==> Sum(n.log, SawRunning(k)) == base
  {
    if l.Run? && s.threads[l.t] == Probing(k) {
      var e := Act(maxAttempts, s.store, s.msgs, s.threads[l.t], l.choice);
      SumAppended(s.log, e.event, Probed(k));
      SumAppended(s.log, e.event, SawRunning(k));
      if Sum(s.log, Probed(k)) <= base {
        NoKillsSince(s, k, base);
      }
    } else {
      OtherStepsDoNotProbe(maxAttempts, s, l, k);
    }
  }

  lemma Squeezed(early: seq<Event>, log: seq<Event>, late: seq<Event>, k: Key)
    requires early <= log <= late
    requires TakenOnce(early, k) && TakenOnce(late, k)
    requires Sum(early, DoneReleased(k)) == Sum(late, DoneReleased(k))
    ensures TakenOnce(log, k) && Sum(log, DoneReleased(k)) == Sum(early, DoneReleased(k))
  {
    SumGrows(early, log, Took(Handler, k));
    SumGrows(log, late, Took(Handler, k));
    SumGrows(early, log, Dispatched(k));
    SumGrows(log, late, Took(ResultListener, k));
    SumGrows(log, late, Took(CommandListener, k));
    SumGrows(early, log, DoneReleased(k));
    SumGrows(log, late, DoneReleased(k));
  }

  lemma {:induction false} FirstProbeIsRightOverRuns(maxAttempts: nat, s: State, ls: seq<Label>, k: Key, base: nat)
    requires Released(s, k, base) && EnabledRun(maxAttempts, s, ls) && forall l :: l in ls ==> CleanLabel(l)
    requires Sum(s.log, Probed(k)) <= base + 1 ==> Sum(s.log, SawRunning(k)) == base
    requires var e := RunOf(maxAttempts, s, ls); TakenOnce(e.log, k) && Sum(e.log, DoneReleased(k)) == 1
    ensures var e := RunOf(maxAttempts, s, ls);
            && Released(e, k, base)
            && (Sum(e.log, Probed(k)) <= base + 1 ==> Sum(e.log, SawRunning(k)) == base)
    decreases |ls|
  {
    if ls != [] {
      var l := ls[0];
      assert l in ls;
      var n, e := Next(maxAttempts, s, l), RunOf(maxAttempts, s, ls);
      StepKeepsReleased(maxAttempts, s, l, k, base);
      StepKeepsWatchdogLaws(maxAttempts, s, l, k);
      StepKeepsClean(maxAttempts, s, l);
      CleanRuns(maxAttempts, n, ls[1..], k);
      Squeezed(s.log, n.log, e.log, k);
      FirstProbeIsRight(maxAttempts, s, l, k, base);
      FirstProbeIsRightOverRuns(maxAttempts, n, ls[1..], k, base);
    }
  }

  // From a state s in which one Done report has released the key, with no
  // watchdog between probe and DEL and none that has removed or remade the key:
  // whatever follows but another acquisition or Done report, no watchdog reports
  // falsely exactly when at most one of them probes.
  lemma FalseReportIff(maxAttempts: nat, s: State, ls: seq<Label>, k: Key)
    requires WatchdogLaws(s, k) && Clean(s) && EnabledRun(maxAttempts, s, ls)
    requires forall l :: l in ls ==> CleanLabel(l)
    requires TakenOnce(s.log, k) && Sum(s.log, DoneReleased(k)) == 1
    requires Sum(s.log, Recreated(k)) == 0 && Sum(s.log, KillHit(k)) == 0 && Sum(s.threads, KillingOf(k)) == 0
    requires var e := RunOf(maxAttempts, s, ls); TakenOnce(e.log, k) && Sum(e.log, DoneReleased(k)) == 1
    ensures var e := RunOf(maxAttempts, s, ls);
            Sum(e.log, SawRunning(k)) == Sum(s.log, SawRunning(k))
            <==> Sum(e.log, Probed(k)) <= Sum(s.log, Probed(k)) + 1
  {
    var e, base := RunOf(maxAttempts, s, ls), Sum(s.log, SawRunning(k));
    ProbesSplit(s.log, k);
    FirstProbeIsRightOverRuns(maxAttempts, s, ls, k, base);
    if Sum(e.log, SawRunning(k)) == base {
      NoKillsSince(e, k, base);
    }
  }

  // ---------- a false report ----------

  lemma DeliveredOnce(s: State, k: Key) returns (ls: seq<Label>)
    requires s == State(map[], [Idle], [], [])
    ensures EnabledRun(3, s, ls)
    ensures RunOf(3, s, ls) == State(map[], [Received(0, 1)], [Message(Request(k), 1, Out)], [])
  {
    ls := OneMore(3, s, [], Submit(Request(k)));
    ls := OneMore(3, s, ls, Deliver(0, 0));
  }

  lemma DispatchedOnce(s: State, before: seq<Label>, k: Key) returns (ls: seq<Label>)
    requires EnabledRun(3, s, before)
    requires RunOf(3, s, before) == State(map[], [Received(0, 1)], [Message(Request(k), 1, Out)], [])
    ensures EnabledRun(3, s, ls)
    ensures var e := RunOf(3, s, ls);
            e.store == map[k := 1] && e.threads == [Publishing(Started(0, k))] && |e.msgs| == 1
  {
    ls := OneMore(3, s, before, Run(0, Go));
    ls := OneMore(3, s, ls, Run(0, Redis(Applied)));
    assert RunOf(3, s, ls).threads == [Working(0, 1, k)];
    ls := OneMore(3, s, ls, Run(0, Succeeds(true)));
  }

  // A request is judged, dispatched and reported as started.
  lemma Judged(k: Key) returns (s: State, ls: seq<Label>)
    ensures Initial(s) && EnabledRun(3, s, ls)
    ensures var e := RunOf(3, s, ls); e.threads == [Idle] && e.store == map[k := 1]
  {
    s := State(map[], [Idle], [], []);
    ls := DeliveredOnce(s, k);
    ls := DispatchedOnce(s, ls, k);
    ls := OneMore(3, s, ls, Run(0, Succeeds(true)));
    assert RunOf(3, s, ls).threads == [Responding(0, true)];
    ls := OneMore(3, s, ls, Run(0, Go));
  }

  // A run-command report of an exit with status 0 starts a watchdog.
  lemma CommandReported(s: State, before: seq<Label>, k: Key, v: string) returns (ls: seq<Label>)
    requires EnabledRun(3, s, before)
    requires var b := RunOf(3, s, before); b.threads != [] && b.threads[0] == Idle && k + v !in b.store
    ensures EnabledRun(3, s, ls)
    ensures var b, e := RunOf(3, s, before), RunOf(3, s, ls);
            e.threads == b.threads + [Probing(k)] && e.store == b.store[k + v := 1]
  {
    ls := OneMore(3, s, before, Notify(0, CommandListener, k, v));
    ls := OneMore(3, s, ls, Run(0, Redis(Applied)));
    ls := OneMore(3, s, ls, Run(0, Fetched(Verdict(true, true))));
  }

  lemma ResultRead(s: State, before: seq<Label>, k: Key, v: string, r: Report) returns (ls: seq<Label>)
    requires EnabledRun(3, s, before)
    requires var b := RunOf(3, s, before);
             b.threads != [] && b.threads[0] == Idle && k + v !in b.store && k in b.store && v != ""
    requires r == Report(FromResult(k, v), k, true, true)
    ensures EnabledRun(3, s, ls)
    ensures var b, e := RunOf(3, s, before), RunOf(3, s, ls);
            e.threads == b.threads[0 := Publishing(r)] && k in e.store
  {
    ls := OneMore(3, s, before, Notify(0, ResultListener, k, v));
    ls := OneMore(3, s, ls, Run(0, Redis(Applied)));
    assert RunOf(3, s, ls).threads == RunOf(3, s, before).threads[0 := Reading(ResultListener, k, v)];
    ls := OneMore(3, s, ls, Run(0, Fetched(Verdict(true, true))));
  }

  // A final result is reported and releases the solution.
  lemma ResultReported(s: State, before: seq<Label>, k: Key, v: string) returns (ls: seq<Label>)
    requires EnabledRun(3, s, before)
    requires var b := RunOf(3, s, before);
             b.threads != [] && b.threads[0] == Idle && k + v !in b.store && k in b.store && v != ""
    ensures EnabledRun(3, s, ls)
    ensures var b, e := RunOf(3, s, before), RunOf(3, s, ls);
            && e.threads == b.threads && k !in e.store
            && e.log != [] && e.log[|e.log| - 1] == Deleted(Reporter, k, true, false)
  {
    var r := Report(FromResult(k, v), k, true, true);
    ls := ResultRead(s, before, k, v, r);
    ls := OneMore(3, s, ls, Run(0, Succeeds(true)));
    assert RunOf(3, s, ls).threads == RunOf(3, s, before).threads[0 := Clearing(r)];
    ls := OneMore(3, s, ls, Run(0, Redis(Applied)));
  }

  // Both watchdogs probe; the first makes the key, and the second finds it.
  lemma BothProbe(s: State, before: seq<Label>, k: Key) returns (ls: seq<Label>)
    requires EnabledRun(3, s, before)
    requires var b := RunOf(3, s, before); b.threads == [Idle, Probing(k), Probing(k)] && k !in b.store
    ensures EnabledRun(3, s, ls)
    ensures var b, e := RunOf(3, s, before), RunOf(3, s, ls);
            && e.threads == [Idle, Idle, Killing(k)]
            && e.log == b.log + [Incremented(Watchdog, k, 1, true), Incremented(Watchdog, k, 2, true)]
  {
    ls := OneMore(3, s, before, Run(1, Redis(Applied)));
    ls := OneMore(3, s, ls, Run(2, Redis(Applied)));
  }

  lemma SecondReports(s: State, before: seq<Label>, k: Key) returns (ls: seq<Label>)
    requires EnabledRun(3, s, before) && RunOf(3, s, before).threads == [Idle, Idle, Killing(k)]
    ensures EnabledRun(3, s, ls)
    ensures var b, e := RunOf(3, s, before), RunOf(3, s, ls);
            && b.log <= e.log && |e.log| == |b.log| + 2
            && e.log[|e.log| - 1] == Published(Report(FromWatchdog(k), k, false, true), true)
  {
    ls := OneMore(3, s, before, Run(2, Redis(Applied)));
    ls := OneMore(3, s, ls, Run(2, Succeeds(true)));
  }

  lemma KeysDiffer(k: Key, v: string, w: string)
    requires v != w
    ensures k + v != k + w
  {
    assert (k + v)[|k|..] == v && (k + w)[|k|..] == w;
  }

  // From the start: one request, two run-command reports, a final result, and
  // then a watchdog that reports the result as missing.
  lemma FalseReport(k: Key)
    ensures exists s, ls ::
              && Initial(s) && EnabledRun(3, s, ls)
              && var log := RunOf(3, s, ls).log;
              && |log| > 1 && Deleted(Reporter, k, true, false) in log[..|log| - 1]
              && log[|log| - 1] == Published(Report(FromWatchdog(k), k, false, true), true)
  {
    KeysDiffer(k, "", "1");
    KeysDiffer(k, "", "2");
    KeysDiffer(k, "", "3");
    KeysDiffer(k, "1", "2");
    KeysDiffer(k, "1", "3");
    KeysDiffer(k, "2", "3");
    assert k + "" == k;
    var s, ls := Judged(k);
    ls := CommandReported(s, ls, k, "1");
    ls := CommandReported(s, ls, k, "2");
    assert RunOf(3, s, ls).threads == [Idle, Probing(k), Probing(k)];
    ls := ResultReported(s, ls, k, "3");
    var log := RunOf(3, s, ls).log;
    assert log[|log| - 1] == Deleted(Reporter, k, true, false);
    ls := BothProbe(s, ls, k);
    ls := SecondReports(s, ls, k);
    var later := RunOf(3, s, ls).log;
    assert later[..|later| - 1][|log| - 1] == log[|log| - 1];
  }
}
