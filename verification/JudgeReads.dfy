/**
Every report and every DEL is accounted for: a report of a result or a command by
an object that was read, with the verdict found in it; a report of a start by a
dispatch or a lock found taken; the DEL of a solution by a Done report of it.
*/
module JudgeReads {
  import opened Wrappers
  import opened Tally
  import opened Judge
  import opened JudgeLedgers

  // ---------- ledgers over whole runs ----------

  ghost predicate Lawful(maxAttempts: nat, l: Ledger) {
    forall s, t, c :: Enabled(s, Run(t, c)) && ListenersOk(s) ==> ActBalances(maxAttempts, s, t, c, l)
  }

  lemma InitiallyBalanced(s: State, l: Ledger)
    requires Initial(s) && l.held(Idle) == 0
    ensures Balanced(s, l) && ListenersOk(s)
  {
    forall th | th in s.threads ensures l.held(th) == 0 {
      assert th.Idle?;
    }
    SumZero(s.threads, l.held);
  }

  lemma {:induction false} BalancedOverRuns(maxAttempts: nat, s: State, ls: seq<Label>, l: Ledger)
    requires EnabledRun(maxAttempts, s, ls) && ListenersOk(s)
    requires Lawful(maxAttempts, l) && Neutral(l) && Balanced(s, l)
    ensures Balanced(RunOf(maxAttempts, s, ls), l)
    decreases |ls|
  {
    if ls != [] {
      if ls[0].Run? {
        assert ActBalances(maxAttempts, s, ls[0].t, ls[0].choice, l);
      }
      StepKeepsBalance(maxAttempts, s, ls[0], l);
      StepKeepsListeners(maxAttempts, s, ls[0]);
      BalancedOverRuns(maxAttempts, Next(maxAttempts, s, ls[0]), ls[1..], l);
    }
  }

  // ---------- DELs of a solution by its reports ----------

  function SentDone(k: Key): Event -> nat {
    (e: Event) => if e.Published? && e.ok && e.report.done && e.report.solution == k then 1 else 0
  }

  function ReporterDeletes(k: Key): Event -> nat {
    (e: Event) => if e.Deleted? && e.role == Reporter && e.key == k then 1 else 0
  }

  function ClearingOf(k: Key): Thread -> nat {
    (th: Thread) => if th.Clearing? && th.report.solution == k then 1 else 0
  }

  lemma ActClears(maxAttempts: nat, s: State, t: nat, c: Choice, k: Key)
    requires Enabled(s, Run(t, c)) && ListenersOk(s)
    ensures ActBalances(maxAttempts, s, t, c, Ledger(SentDone(k), ReporterDeletes(k), ClearingOf(k)))
  {
    assert ListenerOk(s.threads[t]);
  }

  // In every run the DELs of a solution by its reporters are as many as the Done
  // reports of it that were sent, but for those about to follow.
  lemma DeletesFollowDoneReports(maxAttempts: nat, s: State, ls: seq<Label>, k: Key)
    requires Initial(s) && EnabledRun(maxAttempts, s, ls)
    ensures var e := RunOf(maxAttempts, s, ls);
            Sum(e.log, SentDone(k)) == Sum(e.log, ReporterDeletes(k)) + Sum(e.threads, ClearingOf(k))
  {
    var l := Ledger(SentDone(k), ReporterDeletes(k), ClearingOf(k));
    forall s, t, c | Enabled(s, Run(t, c)) && ListenersOk(s) ensures ActBalances(maxAttempts, s, t, c, l) {
      ActClears(maxAttempts, s, t, c, k);
    }
    InitiallyBalanced(s, l);
    BalancedOverRuns(maxAttempts, s, ls, l);
  }

  // ---------- starts ----------

  // a command dispatched, or a lock found taken
  function Begun(k: Key): Event -> nat {
    (e: Event) =>
      if (e.Completed? && e.role == Handler && e.key == k)
         || (e.Incremented? && e.role == Handler && e.key == k && e.seen && e.got > 1) then 1 else 0
  }

  predicate ReportsStart(r: Report, k: Key) {
    r.origin.FromMessage? && r.solution == k && r.success && !r.done
  }

  function StartReported(k: Key): Event -> nat {
    (e: Event) => if e.Published? && ReportsStart(e.report, k) then 1 else 0
  }

  function ReportingStart(k: Key): Thread -> nat {
    (th: Thread) => if th.Publishing? && ReportsStart(th.report, k) then 1 else 0
  }

  lemma ActStarts(maxAttempts: nat, s: State, t: nat, c: Choice, k: Key)
    requires Enabled(s, Run(t, c)) && ListenersOk(s)
    ensures ActBalances(maxAttempts, s, t, c, Ledger(Begun(k), StartReported(k), ReportingStart(k)))
  {
    assert ListenerOk(s.threads[t]);
  }

  // In every run "Judge started" is reported once for every command dispatched and
  // every lock found taken, and for nothing else.
  lemma StartsAreReported(maxAttempts: nat, s: State, ls: seq<Label>, k: Key)
    requires Initial(s) && EnabledRun(maxAttempts, s, ls)
    ensures var e := RunOf(maxAttempts, s, ls);
            Sum(e.log, Begun(k)) == Sum(e.log, StartReported(k)) + Sum(e.threads, ReportingStart(k))
  {
    var l := Ledger(Begun(k), StartReported(k), ReportingStart(k));
    forall s, t, c | Enabled(s, Run(t, c)) && ListenersOk(s) ensures ActBalances(maxAttempts, s, t, c, l) {
      ActStarts(maxAttempts, s, t, c, k);
    }
    InitiallyBalanced(s, l);
    BalancedOverRuns(maxAttempts, s, ls, l);
  }

  // ---------- failed INCRs ----------

  function TakeFailed(k: Key): Event -> nat {
    (e: Event) => if e.Incremented? && e.role == Handler && e.key == k && !e.seen then 1 else 0
  }

  function DeletedUnheld(k: Key): Event -> nat {
    (e: Event) => if e.Deleted? && e.role == Handler && e.key == k && !e.own then 1 else 0
  }

  function FailingUnheld(k: Key): Thread -> nat {
    (th: Thread) => if th.Failing? && th.key == k && !th.held then 1 else 0
  }

  lemma ActFailsTake(maxAttempts: nat, s: State, t: nat, c: Choice, k: Key)
    requires Enabled(s, Run(t, c)) && ListenersOk(s)
    ensures ActBalances(maxAttempts, s, t, c, Ledger(TakeFailed(k), DeletedUnheld(k), FailingUnheld(k)))
  {
    assert ListenerOk(s.threads[t]);
  }

  // In every run each INCR by a handler that gets no answer is followed by one DEL
  // of the same key by a handler that does not hold it, and no other is.
  lemma FailedTakesDelete(maxAttempts: nat, s: State, ls: seq<Label>, k: Key)
    requires Initial(s) && EnabledRun(maxAttempts, s, ls)
    ensures var e := RunOf(maxAttempts, s, ls);
            Sum(e.log, TakeFailed(k)) == Sum(e.log, DeletedUnheld(k)) + Sum(e.threads, FailingUnheld(k))
  {
    var l := Ledger(TakeFailed(k), DeletedUnheld(k), FailingUnheld(k));
    forall s, t, c | Enabled(s, Run(t, c)) && ListenersOk(s) ensures ActBalances(maxAttempts, s, t, c, l) {
      ActFailsTake(maxAttempts, s, t, c, k);
    }
    InitiallyBalanced(s, l);
    BalancedOverRuns(maxAttempts, s, ls, l);
  }

  // ---------- objects read ----------

  datatype Object = Object(role: Role, solution: Key, etag: string, fetch: Fetch)

  // the object that a goroutine reads in a step
  function ReadAt(s: State, l: Label): seq<Object>
    requires Enabled(s, l)
  {
    if l.Run? && s.threads[l.t].Reading? then
      [Object(s.threads[l.t].role, s.threads[l.t].solution, s.threads[l.t].etag, l.choice.fetch)]
    else []
  }

  function Reads(maxAttempts: nat, s: State, ls: seq<Label>): seq<Object>
    requires EnabledRun(maxAttempts, s, ls)
    decreases |ls|
  {
    if ls == [] then [] else ReadAt(s, ls[0]) + Reads(maxAttempts, Next(maxAttempts, s, ls[0]), ls[1..])
  }

  // what the objects read call for, what has been done about it, what is still held
  datatype ReadLedger = ReadLedger(calls: Object -> nat, done: Event -> nat, held: Thread -> nat)

  ghost predicate Quiet(l: ReadLedger) {
    Neutral(Ledger((e: Event) => 0, l.done, l.held))
  }

  ghost predicate ActAnswers(maxAttempts: nat, s: State, t: nat, c: Choice, l: ReadLedger)
    requires Enabled(s, Run(t, c))
  {
    var e := Act(maxAttempts, s.store, s.msgs, s.threads[t], c);
    Sum(ReadAt(s, Run(t, c)), l.calls) + l.held(s.threads[t])
    == Of(l.done, e.event) + l.held(e.thread) + Of(l.held, e.spawn)
  }

  ghost predicate Answering(maxAttempts: nat, l: ReadLedger) {
    forall s, t, c :: Enabled(s, Run(t, c)) && ListenersOk(s) ==> ActAnswers(maxAttempts, s, t, c, l)
  }

  lemma StepAnswers(maxAttempts: nat, s: State, step: Label, l: ReadLedger)
    requires Enabled(s, step) && Quiet(l)
    requires step.Run? ==> ActAnswers(maxAttempts, s, step.t, step.choice, l)
    ensures var n := Next(maxAttempts, s, step);
            Sum(ReadAt(s, step), l.calls) + Sum(s.log, l.done) + Sum(s.threads, l.held)
            == Sum(n.log, l.done) + Sum(n.threads, l.held)
  {
    var n := Next(maxAttempts, s, step);
    match step {
      case Submit(_) =>
      case Timeout(_) =>
      case Deliver(t, m) =>
        SumUpdate(s.threads, t, n.threads[t], l.held);
        SumSnoc(s.log, Responded(m, true), l.done);
      case Notify(t, _, _, _) => SumUpdate(s.threads, t, n.threads[t], l.held);
      case Expire(k) => SumSnoc(s.log, Expired(k), l.done);
      case Run(t, c) =>
        var e := Act(maxAttempts, s.store, s.msgs, s.threads[t], c);
        SumUpdate(s.threads, t, e.thread, l.held);
        SumAppended(s.threads[t := e.thread], e.spawn, l.held);
        SumAppended(s.log, e.event, l.done);
    }
  }

  lemma {:induction false} RunAnswers(maxAttempts: nat, s: State, ls: seq<Label>, l: ReadLedger)
    requires EnabledRun(maxAttempts, s, ls) && ListenersOk(s) && Answering(maxAttempts, l) && Quiet(l)
    ensures var e := RunOf(maxAttempts, s, ls);
            Sum(Reads(maxAttempts, s, ls), l.calls) + Sum(s.log, l.done) + Sum(s.threads, l.held)
            == Sum(e.log, l.done) + Sum(e.threads, l.held)
    decreases |ls|
  {
    if ls != [] {
      var n := Next(maxAttempts, s, ls[0]);
      if ls[0].Run? {
        assert ActAnswers(maxAttempts, s, ls[0].t, ls[0].choice, l);
      }
      StepAnswers(maxAttempts, s, ls[0], l);
      StepKeepsListeners(maxAttempts, s, ls[0]);
      RunAnswers(maxAttempts, n, ls[1..], l);
      SumConcat(ReadAt(s, ls[0]), Reads(maxAttempts, n, ls[1..]), l.calls);
    }
  }

  lemma RunAnswersFromStart(maxAttempts: nat, s: State, ls: seq<Label>, l: ReadLedger)
    requires Initial(s) && EnabledRun(maxAttempts, s, ls) && Answering(maxAttempts, l) && Quiet(l)
    ensures var e := RunOf(maxAttempts, s, ls);
            Sum(Reads(maxAttempts, s, ls), l.calls) == Sum(e.log, l.done) + Sum(e.threads, l.held)
  {
    InitiallyBalanced(s, Ledger((e: Event) => 0, l.done, l.held));
    RunAnswers(maxAttempts, s, ls, l);
  }

  lemma SumOne<T>(x: T, f: T -> nat)
    ensures Sum([x], f) == f(x)
  {
    assert [x] == [] + [x];
    SumSnoc([], x, f);
  }

  // ---------- what the objects are reported as ----------

  // The result listener reports the verdict found, final or not, and an object that
  // does not parse as a final failure of no solution.  The command listener reports
  // a command that failed as a final failure of its solution, and no other.
  function CallsFor(r: Report): Object -> nat {
    (o: Object) =>
      if (&& r.origin == FromResult(o.solution, o.etag) && o.role == ResultListener
          && if o.fetch.Verdict? then r.solution == o.solution && r.success && r.done == o.fetch.done
             else o.fetch == Invalid && r.solution == "" && !r.success && r.done)
         || (&& r.origin == FromCommand(o.solution, o.etag) && o.role == CommandListener
             && o.fetch.Verdict? && !o.fetch.success
             && r.solution == o.solution && !r.success && r.done)
      then 1 else 0
  }

  function PublishedAs(r: Report): Event -> nat {
    (e: Event) => if e.Published? && e.report == r then 1 else 0
  }

  function PublishingIt(r: Report): Thread -> nat {
    (th: Thread) => if th == Publishing(r) then 1 else 0
  }

  lemma ActReports(maxAttempts: nat, s: State, t: nat, c: Choice, r: Report)
    requires Enabled(s, Run(t, c)) && ListenersOk(s) && (r.origin.FromResult? || r.origin.FromCommand?)
    ensures ActAnswers(maxAttempts, s, t, c, ReadLedger(CallsFor(r), PublishedAs(r), PublishingIt(r)))
  {
    assert ListenerOk(s.threads[t]);
    if s.threads[t].Reading? {
      SumOne(ReadAt(s, Run(t, c))[0], CallsFor(r));
    }
  }

  // In every run each report of a result or a command has been published, or is
  // about to be, as often as objects that call for it have been read: no verdict is
  // altered, none is dropped and none is made up.
  lemma ReportsAreOfReads(maxAttempts: nat, s: State, ls: seq<Label>, r: Report)
    requires Initial(s) && EnabledRun(maxAttempts, s, ls)
    requires r.origin.FromResult? || r.origin.FromCommand?
    ensures var e := RunOf(maxAttempts, s, ls);
            Sum(Reads(maxAttempts, s, ls), CallsFor(r))
            == Sum(e.log, PublishedAs(r)) + Sum(e.threads, PublishingIt(r))
  {
    var l := ReadLedger(CallsFor(r), PublishedAs(r), PublishingIt(r));
    forall s, t, c | Enabled(s, Run(t, c)) && ListenersOk(s) ensures ActAnswers(maxAttempts, s, t, c, l) {
      ActReports(maxAttempts, s, t, c, r);
    }
    RunAnswersFromStart(maxAttempts, s, ls, l);
  }

  // So a Done report of a result is published only if a final verdict of its
  // solution was read, or an object that did not parse.
  lemma DoneNeedsFinalVerdict(maxAttempts: nat, s: State, ls: seq<Label>, r: Report, ok: bool)
    requires Initial(s) && EnabledRun(maxAttempts, s, ls) && r.origin.FromResult? && r.done
    requires Published(r, ok) in RunOf(maxAttempts, s, ls).log
    ensures exists o :: o in Reads(maxAttempts, s, ls) && o.role == ResultListener
                        && o.solution == r.origin.solution && o.etag == r.origin.etag
                        && ((o.fetch.Verdict? && o.fetch.done && r.solution == o.solution)
                            || (o.fetch == Invalid && r.solution == ""))
  {
    ReportsAreOfReads(maxAttempts, s, ls, r);
    SumZero(RunOf(maxAttempts, s, ls).log, PublishedAs(r));
    assert PublishedAs(r)(Published(r, ok)) == 1;
    SumZero(Reads(maxAttempts, s, ls), CallsFor(r));
    var o :| o in Reads(maxAttempts, s, ls) && CallsFor(r)(o) != 0;
  }

  // ---------- watchdogs and keys given back ----------

  function CallsForWatchdog(k: Key): Object -> nat {
    (o: Object) =>
      if o.role == CommandListener && o.solution == k && o.fetch.Verdict? && o.fetch.success then 1 else 0
  }

  function WatchStarted(k: Key): Event -> nat {
    (e: Event) => if e.Completed? && e.role == CommandListener && e.watch == Some(k) then 1 else 0
  }

  function NoThreadHolds(): Thread -> nat {
    (th: Thread) => 0
  }

  lemma ActWatches(maxAttempts: nat, s: State, t: nat, c: Choice, k: Key)
    requires Enabled(s, Run(t, c)) && ListenersOk(s)
    ensures ActAnswers(maxAttempts, s, t, c, ReadLedger(CallsForWatchdog(k), WatchStarted(k), NoThreadHolds()))
  {
    assert ListenerOk(s.threads[t]);
    if s.threads[t].Reading? {
      SumOne(ReadAt(s, Run(t, c))[0], CallsForWatchdog(k));
    }
  }

  // In every run a watchdog is started once for every report of a command that
  // exited well, and for nothing else.
  lemma WatchdogsAreOfReads(maxAttempts: nat, s: State, ls: seq<Label>, k: Key)
    requires Initial(s) && EnabledRun(maxAttempts, s, ls)
    ensures Sum(Reads(maxAttempts, s, ls), CallsForWatchdog(k))
            == Sum(RunOf(maxAttempts, s, ls).log, WatchStarted(k))
  {
    var l := ReadLedger(CallsForWatchdog(k), WatchStarted(k), NoThreadHolds());
    forall s, t, c | Enabled(s, Run(t, c)) && ListenersOk(s) ensures ActAnswers(maxAttempts, s, t, c, l) {
      ActWatches(maxAttempts, s, t, c, k);
    }
    RunAnswersFromStart(maxAttempts, s, ls, l);
    SumZero(RunOf(maxAttempts, s, ls).threads, NoThreadHolds());
  }

  // An object that is missing, or that the result listener cannot read.
  function CallsForDrop(role: Role, key: Key): Object -> nat {
    (o: Object) =>
      if o.role == role && o.solution + o.etag == key
         && (o.fetch == Missing || (o.fetch == Unreadable && role == ResultListener)) then 1 else 0
  }

  function Dropped(role: Role, key: Key): Event -> nat {
    (e: Event) => if e.Deleted? && e.role == role && e.own && e.key == key then 1 else 0
  }

  function DroppingIt(role: Role, key: Key): Thread -> nat {
    (th: Thread) => if th == Dropping(role, key) then 1 else 0
  }

  lemma ActDrops(maxAttempts: nat, s: State, t: nat, c: Choice, role: Role, key: Key)
    requires Enabled(s, Run(t, c)) && ListenersOk(s) && (role.ResultListener? || role.CommandListener?)
    ensures ActAnswers(maxAttempts, s, t, c,
                       ReadLedger(CallsForDrop(role, key), Dropped(role, key), DroppingIt(role, key)))
  {
    assert ListenerOk(s.threads[t]);
    if s.threads[t].Reading? {
      SumOne(ReadAt(s, Run(t, c))[0], CallsForDrop(role, key));
    }
  }

  // In every run a listener gives its key back once for every object that it could
  // not have, and for nothing else.
  lemma DropsAreOfReads(maxAttempts: nat, s: State, ls: seq<Label>, role: Role, key: Key)
    requires Initial(s) && EnabledRun(maxAttempts, s, ls) && (role.ResultListener? || role.CommandListener?)
    ensures var e := RunOf(maxAttempts, s, ls);
            Sum(Reads(maxAttempts, s, ls), CallsForDrop(role, key))
            == Sum(e.log, Dropped(role, key)) + Sum(e.threads, DroppingIt(role, key))
  {
    var l := ReadLedger(CallsForDrop(role, key), Dropped(role, key), DroppingIt(role, key));
    forall s, t, c | Enabled(s, Run(t, c)) && ListenersOk(s) ensures ActAnswers(maxAttempts, s, t, c, l) {
      ActDrops(maxAttempts, s, t, c, role, key);
    }
    RunAnswersFromStart(maxAttempts, s, ls, l);
  }
}
