/**
The delayed watchdog of the run-command listener: it reports "exited before
reporting done" exactly when no Done report has released the solution's key.
*/
module JudgeWatchdog {
  import opened Wrappers
  import opened Tally
  import opened Judge
  import opened JudgeLedgers
  import opened JudgeLocks

  // ---------- ledgers of the watchdogs of one solution ----------

  function Spawned(k: Key): Event -> nat {
    (e: Event) => if e.Completed? && e.watch == Some(k) then 1 else 0
  }

  function Probed(k: Key): Event -> nat {
    (e: Event) => if e.Incremented? && e.role == Watchdog && e.key == k then 1 else 0
  }

  // the probe answered "exists"
  function SawRunning(k: Key): Event -> nat {
    (e: Event) => if e.Incremented? && e.role == Watchdog && e.key == k && !(e.seen && e.got == 1) then 1 else 0
  }

  function KilledBy(k: Key): Event -> nat {
    (e: Event) => if e.Deleted? && e.role == Watchdog && e.key == k then 1 else 0
  }

  function WatchdogReports(k: Key): Event -> nat {
    (e: Event) => if e.Published? && e.report == Report(FromWatchdog(k), k, false, true) then 1 else 0
  }

  function ProbingOf(k: Key): Thread -> nat {
    (th: Thread) => if th == Probing(k) then 1 else 0
  }

  function KillingOf(k: Key): Thread -> nat {
    (th: Thread) => if th == Killing(k) then 1 else 0
  }

  function ReportingOf(k: Key): Thread -> nat {
    (th: Thread) => if th == Publishing(Report(FromWatchdog(k), k, false, true)) then 1 else 0
  }

  function Probes(k: Key): Ledger {
    Ledger(Spawned(k), Probed(k), ProbingOf(k))
  }

  function Kills(k: Key): Ledger {
    Ledger(SawRunning(k), KilledBy(k), KillingOf(k))
  }

  function Reports(k: Key): Ledger {
    Ledger(KilledBy(k), WatchdogReports(k), ReportingOf(k))
  }

  ghost predicate WatchdogLaws(s: State, k: Key) {
    && LockLaws(s, Handler, k) && LockLaws(s, ResultListener, k) && LockLaws(s, CommandListener, k)
    && Balanced(s, Probes(k)) && Balanced(s, Kills(k)) && Balanced(s, Reports(k))
  }

  lemma InitialWatchdogLaws(s: State, k: Key)
    requires Initial(s)
    ensures WatchdogLaws(s, k)
  {
    InitialLaws(s, Handler, k);
    InitialLaws(s, ResultListener, k);
    InitialLaws(s, CommandListener, k);
    forall t | t in s.threads ensures t.Idle? {
    }
    SumZero(s.threads, ProbingOf(k));
    SumZero(s.threads, KillingOf(k));
    SumZero(s.threads, ReportingOf(k));
  }

  lemma ActKeepsProbeLedger(maxAttempts: nat, s: State, t: nat, c: Choice, k: Key)
    requires Enabled(s, Run(t, c)) && ListenersOk(s)
    ensures ActBalances(maxAttempts, s, t, c, Probes(k))
  {
    assert ListenerOk(s.threads[t]);
  }

  lemma ActKeepsVerdictLedgers(maxAttempts: nat, s: State, t: nat, c: Choice, k: Key)
    requires Enabled(s, Run(t, c)) && ListenersOk(s)
    ensures ActBalances(maxAttempts, s, t, c, Kills(k))
    ensures ActBalances(maxAttempts, s, t, c, Reports(k))
  {
    assert ListenerOk(s.threads[t]);
  }

  lemma StepKeepsWatchdogLaws(maxAttempts: nat, s: State, l: Label, k: Key)
    requires Enabled(s, l) && WatchdogLaws(s, k)
    ensures WatchdogLaws(Next(maxAttempts, s, l), k)
  {
    LocksOverRuns(maxAttempts, s, [l], Handler, k);
    LocksOverRuns(maxAttempts, s, [l], ResultListener, k);
    LocksOverRuns(maxAttempts, s, [l], CommandListener, k);
    assert RunOf(maxAttempts, s, [l]) == Next(maxAttempts, s, l);
    if l.Run? {
      ActKeepsProbeLedger(maxAttempts, s, l.t, l.choice, k);
      ActKeepsVerdictLedgers(maxAttempts, s, l.t, l.choice, k);
    }
    StepKeepsBalance(maxAttempts, s, l, Probes(k));
    StepKeepsBalance(maxAttempts, s, l, Kills(k));
    StepKeepsBalance(maxAttempts, s, l, Reports(k));
  }

  // ---------- runs without expiry and without Redis errors ----------

  predicate CleanLabel(l: Label) {
    !l.Expire? && (l.Run? && l.choice.Redis? ==> l.choice.reach == Applied)
  }

  predicate CleanEvent(e: Event) {
    match e
    case Expired(_) => false
    case Incremented(role, _, got, seen) => seen && got > 0 && role != Reporter
    case Deleted(role, _, _, own) =>
      if own then role == Handler || role == ResultListener || role == CommandListener
      else role == Watchdog || role == Reporter
    case _ => true
  }

  ghost predicate Clean(s: State) {
    && (forall t :: 0 <= t < |s.threads| ==> (s.threads[t].Failing? ==> s.threads[t].held))
    && (forall e :: e in s.log ==> CleanEvent(e))
  }

  lemma StepKeepsClean(maxAttempts: nat, s: State, l: Label)
    requires Enabled(s, l) && CleanLabel(l) && Clean(s) && ListenersOk(s)
    ensures Clean(Next(maxAttempts, s, l))
  {
    if l.Run? {
      assert ListenerOk(s.threads[l.t]);
      var e := Act(maxAttempts, s.store, s.msgs, s.threads[l.t], l.choice);
      assert e.event != None ==> CleanEvent(e.event.value);
      assert e.thread.Failing? ==> e.thread.held;
    }
  }

  lemma {:induction false} CleanRuns(maxAttempts: nat, s: State, ls: seq<Label>, k: Key)
    requires EnabledRun(maxAttempts, s, ls) && WatchdogLaws(s, k) && Clean(s)
    requires forall l :: l in ls ==> CleanLabel(l)
    ensures var e := RunOf(maxAttempts, s, ls); WatchdogLaws(e, k) && Clean(e) && s.log <= e.log
    decreases |ls|
  {
    if ls != [] {
      assert ls[0] in ls;
      StepKeepsWatchdogLaws(maxAttempts, s, ls[0], k);
      StepKeepsClean(maxAttempts, s, ls[0]);
      StepKeepsValid(maxAttempts, s, ls[0]);
      CleanRuns(maxAttempts, Next(maxAttempts, s, ls[0]), ls[1..], k);
    }
  }

  // ---------- the verdict ----------

  // a Done report whose DEL removed the key
  function DoneReleased(k: Key): Event -> nat {
    (e: Event) => if e.Deleted? && e.role == Reporter && e.key == k && e.hit then 1 else 0
  }

  function ListenersTook(k: Key): Event -> nat {
    (e: Event) => if e.Incremented? && e.role != Handler && e.key == k && e.got == 1 then 1 else 0
  }

  // One acquisition so far, and its command was dispatched: whoever removed the
  // key can only have been a Done report.
  lemma OnlyDoneReportsRelease(s: State, k: Key)
    requires WatchdogLaws(s, k) && Clean(s)
    requires Sum(s.log, Acquired(k)) == 1 && Sum(s.log, Dispatched(k)) >= 1 && Sum(s.log, KilledBy(k)) == 0
    ensures Sum(s.log, Removed(k)) == Sum(s.log, DoneReleased(k))
  {
    var log := s.log;
    SumAtLeast(log, Acquired(k), Took(Handler, k), ListenersTook(k));
    SumAtLeast(log, Spent(Handler, k), Dispatched(k), GaveBack(Handler, k));
    SumAtMost(log, Took(ResultListener, k), ListenersTook(k), Nothing());
    SumAtMost(log, Took(CommandListener, k), ListenersTook(k), Nothing());
    SumZero(log, Nothing());
    SumAtMost(log, GaveBack(ResultListener, k), Spent(ResultListener, k), Nothing());
    SumAtMost(log, GaveBack(CommandListener, k), Spent(CommandListener, k), Nothing());
    SumZero(log, GaveBack(Handler, k));
    SumZero(log, GaveBack(ResultListener, k));
    SumZero(log, GaveBack(CommandListener, k));
    SumZero(log, KilledBy(k));
    forall e | e in log ensures Removed(k)(e) == DoneReleased(k)(e) {
      assert CleanEvent(e);
      assert GaveBack(Handler, k)(e) == 0 && GaveBack(ResultListener, k)(e) == 0;
      assert GaveBack(CommandListener, k)(e) == 0 && KilledBy(k)(e) == 0;
    }
    SumAtMost(log, Removed(k), DoneReleased(k), Nothing());
    SumAtLeast(log, Removed(k), DoneReleased(k), Nothing());
  }

  // The probe goes on to report exactly when no Done report released the key.
  lemma ProbeSeesUnreported(maxAttempts: nat, s: State, t: nat, k: Key)
    requires WatchdogLaws(s, k) && Clean(s) && t < |s.threads| && s.threads[t] == Probing(k)
    requires Sum(s.log, Acquired(k)) == 1 && Sum(s.log, Dispatched(k)) >= 1 && Sum(s.log, KilledBy(k)) == 0
    requires Enabled(s, Run(t, Redis(Applied)))
    ensures var n := Next(maxAttempts, s, Run(t, Redis(Applied)));
            && n.threads[t] == (if Sum(s.log, DoneReleased(k)) == 0 then Killing(k) else Idle)
            && Sum(n.log, SawRunning(k))
               == Sum(s.log, SawRunning(k)) + (if Sum(s.log, DoneReleased(k)) == 0 then 1 else 0)
            && Sum(n.log, Probed(k)) == Sum(s.log, Probed(k)) + 1
  {
    OnlyDoneReportsRelease(s, k);
    var e := Act(maxAttempts, s.store, s.msgs, s.threads[t], Redis(Applied));
    SumAppended(s.log, e.event, SawRunning(k));
    SumAppended(s.log, e.event, Probed(k));
  }

  lemma LaterProbes(early: seq<Event>, late: seq<Event>, k: Key)
    requires early <= late && Sum(late, Probed(k)) == Sum(early, Probed(k))
    ensures Sum(late, SawRunning(k)) == Sum(early, SawRunning(k))
  {
    var rest := late[|early|..];
    assert late == early + rest;
    SumConcat(early, rest, Probed(k));
    SumConcat(early, rest, SawRunning(k));
    SumAtMost(rest, SawRunning(k), Probed(k), Nothing());
    SumZero(rest, Nothing());
  }

  lemma FirstProbe(s: State, t: nat, k: Key)
    requires WatchdogLaws(s, k) && Sum(s.log, Spawned(k)) == 1
    requires t < |s.threads| && s.threads[t] == Probing(k)
    ensures Sum(s.log, Probed(k)) == 0 && Sum(s.log, SawRunning(k)) == 0 && Sum(s.log, KilledBy(k)) == 0
  {
    SumUpdate(s.threads, t, Idle, ProbingOf(k));
    SumAtMost(s.log, SawRunning(k), Probed(k), Nothing());
    SumZero(s.log, Nothing());
  }

  // The one probe settles whether the watchdog reports.
  lemma ProbeDecides(maxAttempts: nat, s: State, t: nat, k: Key)
    requires WatchdogLaws(s, k) && Clean(s) && t < |s.threads| && s.threads[t] == Probing(k)
    requires Sum(s.log, Acquired(k)) == 1 && Sum(s.log, Dispatched(k)) >= 1 && Sum(s.log, Spawned(k)) == 1
    requires Enabled(s, Run(t, Redis(Applied)))
    ensures var n := Next(maxAttempts, s, Run(t, Redis(Applied)));
            && WatchdogLaws(n, k) && Clean(n) && Sum(n.log, Probed(k)) == 1
            && Sum(n.log, SawRunning(k)) == if Sum(s.log, DoneReleased(k)) == 0 then 1 else 0
  {
    FirstProbe(s, t, k);
    ProbeSeesUnreported(maxAttempts, s, t, k);
    StepKeepsWatchdogLaws(maxAttempts, s, Run(t, Redis(Applied)), k);
    StepKeepsClean(maxAttempts, s, Run(t, Redis(Applied)));
  }

  // ---------- the key after the verdict ----------

  // A key acquired once is gone after the watchdog's DEL.
  ghost predicate GoneInv(s: State, k: Key) {
    && Sum(s.log, Acquired(k)) >= 1
    && (Sum(s.log, KilledBy(k)) >= 1 && Sum(s.log, Acquired(k)) == 1 ==> k !in s.store)
  }

  lemma ActKills(maxAttempts: nat, s: State, t: nat, c: Choice, k: Key)
    requires Enabled(s, Run(t, c)) && CleanLabel(Run(t, c)) && ListenersOk(s)
    ensures var e := Act(maxAttempts, s.store, s.msgs, s.threads[t], c);
            Of(KilledBy(k), e.event) == 1 ==> k !in e.store
  {
    assert ListenerOk(s.threads[t]);
  }

  lemma RunKeepsGone(maxAttempts: nat, s: State, t: nat, c: Choice, k: Key)
    requires Enabled(s, Run(t, c)) && CleanLabel(Run(t, c)) && ListenersOk(s) && Valid(s) && GoneInv(s, k)
    ensures GoneInv(Next(maxAttempts, s, Run(t, c)), k)
  {
    var e := Act(maxAttempts, s.store, s.msgs, s.threads[t], c);
    ActKills(maxAttempts, s, t, c, k);
    ActMovesStore(maxAttempts, s, t, c, k);
    SumAppended(s.log, e.event, Acquired(k));
    SumAppended(s.log, e.event, KilledBy(k));
  }

  lemma StepKeepsGone(maxAttempts: nat, s: State, l: Label, k: Key)
    requires Enabled(s, l) && CleanLabel(l) && WatchdogLaws(s, k) && GoneInv(s, k)
    ensures GoneInv(Next(maxAttempts, s, l), k)
  {
    match l {
      case Deliver(_, m) =>
        SumSnoc(s.log, Responded(m, true), Acquired(k));
        SumSnoc(s.log, Responded(m, true), KilledBy(k));
      case Run(t, c) => RunKeepsGone(maxAttempts, s, t, c, k);
      case _ =>
    }
  }

  lemma ProbeStartsGone(maxAttempts: nat, s: State, t: nat, k: Key)
    requires WatchdogLaws(s, k) && t < |s.threads| && s.threads[t] == Probing(k)
    requires Sum(s.log, Acquired(k)) == 1 && Sum(s.log, Spawned(k)) == 1
    requires Enabled(s, Run(t, Redis(Applied)))
    ensures GoneInv(Next(maxAttempts, s, Run(t, Redis(Applied))), k)
  {
    FirstProbe(s, t, k);
    StepKeepsGone(maxAttempts, s, Run(t, Redis(Applied)), k);
  }

  // ---------- whole runs ----------

  // With one watchdog started there is no second probe.
  lemma ProbedOnce(early: seq<Event>, e: State, k: Key)
    requires WatchdogLaws(e, k) && early <= e.log
    requires Sum(early, Probed(k)) == 1 && Sum(e.log, Spawned(k)) == 1
    ensures Sum(e.log, Probed(k)) == 1
  {
    SumGrows(early, e.log, Probed(k));
  }

  // Every probe that found the key has been followed by a DEL and a report.
  lemma WatchdogsThrough(s: State, k: Key)
    requires WatchdogLaws(s, k)
    requires forall th :: th in s.threads ==> KillingOf(k)(th) == 0 && ReportingOf(k)(th) == 0
    ensures Sum(s.log, SawRunning(k)) == Sum(s.log, KilledBy(k)) == Sum(s.log, WatchdogReports(k))
  {
    SumZero(s.threads, KillingOf(k));
    SumZero(s.threads, ReportingOf(k));
  }

  lemma {:induction false} GoneOverRuns(maxAttempts: nat, s: State, ls: seq<Label>, k: Key)
    requires EnabledRun(maxAttempts, s, ls) && WatchdogLaws(s, k) && GoneInv(s, k)
    requires forall l :: l in ls ==> CleanLabel(l)
    ensures GoneInv(RunOf(maxAttempts, s, ls), k)
    decreases |ls|
  {
    if ls != [] {
      assert ls[0] in ls;
      StepKeepsGone(maxAttempts, s, ls[0], k);
      StepKeepsWatchdogLaws(maxAttempts, s, ls[0], k);
      GoneOverRuns(maxAttempts, Next(maxAttempts, s, ls[0]), ls[1..], k);
    }
  }

  // the watchdog's reports that were sent
  function SentReports(k: Key): Event -> nat {
    (e: Event) => if e == Published(Report(FromWatchdog(k), k, false, true), true) then 1 else 0
  }

  lemma SentAreReports(log: seq<Event>, k: Key)
    requires forall r, ok :: Published(r, ok) in log && r.origin == FromWatchdog(k) ==> ok
    ensures Sum(log, SentReports(k)) == Sum(log, WatchdogReports(k))
  {
    forall e | e in log && e.Published? && e.report.origin == FromWatchdog(k) ensures e.ok {
      assert Published(e.report, e.ok) in log;
    }
    SumAtMost(log, SentReports(k), WatchdogReports(k), Nothing());
    SumAtMost(log, WatchdogReports(k), SentReports(k), Nothing());
    SumZero(log, Nothing());
  }

  // A whole run s0 -> s -> n -> e with one acquisition, one dispatched command
  // and one watchdog, whose probe is the step from s to n.  Once the watchdog is
  // through, it has deleted the key and published its report exactly once if no
  // Done report released the key before the probe, and never otherwise; and after
  // its DEL the key is gone unless somebody has taken it anew.
  lemma WatchdogReportsExactlyTheUnreported(
      maxAttempts: nat, s0: State, before: seq<Label>, s: State, t: nat, n: State, after: seq<Label>, e: State, k: Key)
    requires Initial(s0) && EnabledRun(maxAttempts, s0, before) && s == RunOf(maxAttempts, s0, before)
    requires t < |s.threads| && s.threads[t] == Probing(k) && Enabled(s, Run(t, Redis(Applied)))
    requires n == Next(maxAttempts, s, Run(t, Redis(Applied)))
    requires EnabledRun(maxAttempts, n, after) && e == RunOf(maxAttempts, n, after)
    requires forall l :: l in before || l in after ==> CleanLabel(l)
    requires Sum(s.log, Acquired(k)) == 1 && Sum(s.log, Dispatched(k)) >= 1
    requires Sum(s.log, Spawned(k)) == 1 && Sum(e.log, Spawned(k)) == 1
    requires forall th :: th in e.threads ==> KillingOf(k)(th) == 0 && ReportingOf(k)(th) == 0
    ensures Sum(e.log, WatchdogReports(k)) == (if Sum(s.log, DoneReleased(k)) == 0 then 1 else 0)
    ensures Sum(e.log, KilledBy(k)) == Sum(e.log, WatchdogReports(k))
    ensures (forall r, ok :: Published(r, ok) in e.log && r.origin == FromWatchdog(k) ==> ok)
            ==> Sum(e.log, SentReports(k)) == Sum(e.log, WatchdogReports(k))
    ensures Sum(s.log, DoneReleased(k)) == 0 && Sum(e.log, Acquired(k)) == 1 ==> k !in e.store
  {
    InitialWatchdogLaws(s0, k);
    CleanRuns(maxAttempts, s0, before, k);
    ProbeStartsGone(maxAttempts, s, t, k);
    ProbeDecides(maxAttempts, s, t, k);
    CleanRuns(maxAttempts, n, after, k);
    ProbedOnce(n.log, e, k);
    LaterProbes(n.log, e.log, k);
    WatchdogsThrough(e, k);
    GoneOverRuns(maxAttempts, n, after, k);
    if forall r, ok :: Published(r, ok) in e.log && r.origin == FromWatchdog(k) ==> ok {
      SentAreReports(e.log, k);
    }
  }
}
