/**
What the test-and-set counters guarantee over every interleaving: how often a
solution can be dispatched, and how often a result can be reported.
*/
module JudgeLocks {
  import opened Wrappers
  import opened Tally
  import opened Judge
  import opened JudgeLedgers

  ghost predicate Locker(role: Role) {
    role == Handler || role == ResultListener || role == CommandListener
  }

  ghost predicate LockLaws(s: State, role: Role, k: Key) {
    Valid(s) && ListenersOk(s) && StoreLaw(s, k) && Balanced(s, LockLedger(role, k))
  }

  lemma InitialLaws(s: State, role: Role, k: Key)
    requires Initial(s)
    ensures LockLaws(s, role, k)
  {
    forall t | t in s.threads ensures Holds(role, k)(t) == 0 {
      assert t.Idle?;
    }
    SumZero(s.threads, Holds(role, k));
  }

  lemma {:induction false} LocksOverRuns(maxAttempts: nat, s: State, ls: seq<Label>, role: Role, k: Key)
    requires LockLaws(s, role, k) && Locker(role) && EnabledRun(maxAttempts, s, ls)
    ensures LockLaws(RunOf(maxAttempts, s, ls), role, k)
    decreases |ls|
  {
    if ls != [] {
      var l := ls[0];
      StepKeepsValid(maxAttempts, s, l);
      StepKeepsListeners(maxAttempts, s, l);
      StepKeepsStoreLaw(maxAttempts, s, l, k);
      if l.Run? {
        ActKeepsLockLedger(maxAttempts, s, l.t, l.choice, role, k);
      }
      StepKeepsBalance(maxAttempts, s, l, LockLedger(role, k));
      LocksOverRuns(maxAttempts, Next(maxAttempts, s, l), ls[1..], role, k);
    }
  }

  // The key went away otherwise than by a holder of this role giving it back:
  // a Done report, a watchdog, an expiry, or a handler that deletes without holding.
  function ReleasedByOthers(role: Role, k: Key): Event -> nat {
    (e: Event) => if (e.Expired? && e.key == k)
            || (e.Deleted? && e.key == k && e.hit && !(e.own && e.role == role)) then 1 else 0
  }

  function Nothing(): Event -> nat {
    (e: Event) => 0
  }

  // Uses of a key plus holders that may still use it never exceed the key's
  // presence plus its releases by others: redeliveries, duplicate messages,
  // retries and lost Redis replies included.
  lemma UsesBounded(maxAttempts: nat, s: State, ls: seq<Label>, role: Role, k: Key)
    requires Initial(s) && Locker(role) && EnabledRun(maxAttempts, s, ls)
    ensures var e := RunOf(maxAttempts, s, ls);
            Sum(e.log, Used(role, k)) + Sum(e.threads, Holds(role, k))
            <= Present(e, k) + Sum(e.log, ReleasedByOthers(role, k))
  {
    InitialLaws(s, role, k);
    LocksOverRuns(maxAttempts, s, ls, role, k);
    var e := RunOf(maxAttempts, s, ls);
    SumAtMost(e.log, Took(role, k), Acquired(k), Nothing());
    SumZero(e.log, Nothing());
    SumAtLeast(e.log, Spent(role, k), Used(role, k), GaveBack(role, k));
    SumAtMost(e.log, Removed(k), ReleasedByOthers(role, k), GaveBack(role, k));
  }

  function Dispatched(k: Key): Event -> nat {
    (e: Event) => if e.Completed? && e.role == Handler && e.key == k then 1 else 0
  }

  // Dispatched commands of one solution, and handlers that hold its lock.
  lemma DispatchesBounded(maxAttempts: nat, s: State, ls: seq<Label>, k: Key)
    requires Initial(s) && EnabledRun(maxAttempts, s, ls)
    ensures var e := RunOf(maxAttempts, s, ls);
            && Sum(e.log, Dispatched(k)) + Sum(e.threads, Holds(Handler, k))
               <= Present(e, k) + Sum(e.log, ReleasedByOthers(Handler, k))
            && (Sum(e.log, ReleasedByOthers(Handler, k)) == 0 ==>
                  Sum(e.log, Dispatched(k)) + Sum(e.threads, Holds(Handler, k)) <= 1)
  {
    UsesBounded(maxAttempts, s, ls, Handler, k);
    var e := RunOf(maxAttempts, s, ls);
    SumAtMost(e.log, Dispatched(k), Used(Handler, k), Nothing());
    SumZero(e.log, Nothing());
  }

  // ---------- results are reported at most once ----------

  // The deduplication keys of the listeners are no solution's key.
  predicate KeyApart(l: Label, key: Key) {
    match l
    case Submit(Request(solution)) => solution != key
    case Notify(_, _, solution, _) => solution != key
    case _ => true
  }

  // Only listeners delete the key, and only after they have taken it.
  predicate ApartEvent(e: Event, key: Key) {
    e.Deleted? && e.key == key ==> e.own && (e.role == ResultListener || e.role == CommandListener)
  }

  predicate ApartThread(th: Thread, key: Key) {
    match th
    case Locking(_, _, k) => k != key
    case Working(_, _, k) => k != key
    case Failing(_, _, k, _) => k != key
    case Publishing(r) => r.solution != key
    case Clearing(r) => r.solution != key
    case Noticed(_, solution, _) => solution != key
    case Reading(_, solution, _) => solution != key
    case Probing(k) => k != key
    case Killing(k) => k != key
    case _ => true
  }

  ghost predicate Apart(s: State, key: Key) {
    && key != "" && ListenersOk(s)
    && (forall m :: 0 <= m < |s.msgs| ==> s.msgs[m].body != Request(key))
    && (forall t :: 0 <= t < |s.threads| ==> ApartThread(s.threads[t], key))
    && (forall e :: e in s.log ==> ApartEvent(e, key))
  }

  lemma ActKeepsApart(maxAttempts: nat, s: State, t: nat, c: Choice, key: Key)
    requires Enabled(s, Run(t, c)) && Apart(s, key)
    ensures var e := Act(maxAttempts, s.store, s.msgs, s.threads[t], c);
            && ApartThread(e.thread, key)
            && (e.spawn != None ==> ApartThread(e.spawn.value, key))
            && (e.event != None ==> ApartEvent(e.event.value, key))
            && |e.msgs| == |s.msgs| && forall m :: 0 <= m < |s.msgs| ==> e.msgs[m].body == s.msgs[m].body
  {
    assert ApartThread(s.threads[t], key) && ListenerOk(s.threads[t]);
  }

  lemma StepKeepsApart(maxAttempts: nat, s: State, l: Label, key: Key)
    requires Enabled(s, l) && Apart(s, key) && KeyApart(l, key)
    ensures Apart(Next(maxAttempts, s, l), key)
  {
    StepKeepsListeners(maxAttempts, s, l);
    if l.Run? {
      ActKeepsApart(maxAttempts, s, l.t, l.choice, key);
    }
  }

  lemma {:induction false} ApartOverRuns(maxAttempts: nat, s: State, ls: seq<Label>, key: Key)
    requires EnabledRun(maxAttempts, s, ls) && Apart(s, key)
    requires forall l :: l in ls ==> KeyApart(l, key)
    ensures Apart(RunOf(maxAttempts, s, ls), key)
    decreases |ls|
  {
    if ls != [] {
      assert ls[0] in ls;
      StepKeepsApart(maxAttempts, s, ls[0], key);
      ApartOverRuns(maxAttempts, Next(maxAttempts, s, ls[0]), ls[1..], key);
    }
  }

  function KeyReports(key: Key): Event -> nat {
    (e: Event) => if e.Published? && ReportsKey(e.report, key) then 1 else 0
  }

  function ResultReports(solution: Key, etag: string): Event -> nat {
    (e: Event) => if e.Published? && e.report.origin == FromResult(solution, etag) then 1 else 0
  }

  function Expiries(key: Key): Event -> nat {
    (e: Event) => if e.Expired? && e.key == key then 1 else 0
  }

  // what either listener gave back
  function Dropped(key: Key): Event -> nat {
    (e: Event) =>
      if e.Deleted? && e.own && e.key == key && (e.role == ResultListener || e.role == CommandListener) then 1 else 0
  }

  lemma DroppedIsBoth(log: seq<Event>, key: Key)
    ensures Sum(log, Dropped(key)) <= Sum(log, GaveBack(ResultListener, key)) + Sum(log, GaveBack(CommandListener, key))
  {
    SumAtMost(log, Dropped(key), GaveBack(ResultListener, key), GaveBack(CommandListener, key));
  }

  // The two listeners share the counter of a key; together they take it at most
  // once more than it is given back or expires.
  lemma ListenersShareKey(s: State, key: Key)
    requires LockLaws(s, ResultListener, key) && LockLaws(s, CommandListener, key) && Apart(s, key)
    ensures Sum(s.log, KeyReports(key)) <= 1 + Sum(s.log, Expiries(key))
  {
    var log := s.log;
    SumAtLeast(log, Acquired(key), Took(ResultListener, key), Took(CommandListener, key));
    SumAtLeast(log, Spent(ResultListener, key), KeyReports(key), GaveBack(ResultListener, key));
    SumAtMost(log, GaveBack(CommandListener, key), Spent(CommandListener, key), Nothing());
    SumZero(log, Nothing());
    SumAtMost(log, Removed(key), Dropped(key), Expiries(key));
    DroppedIsBoth(log, key);
  }

  // Across judgers, repeated notifications and failed reads, the reports made
  // of one result object are at most one more than the expiries of its key, also
  // when a run-command report has the same key.
  lemma ResultReportedAtMostOnce(maxAttempts: nat, s: State, ls: seq<Label>, solution: Key, etag: string)
    requires Initial(s) && EnabledRun(maxAttempts, s, ls) && solution + etag != ""
    requires forall l :: l in ls ==> KeyApart(l, solution + etag)
    ensures var e := RunOf(maxAttempts, s, ls);
            Sum(e.log, ResultReports(solution, etag)) <= 1 + Sum(e.log, Expiries(solution + etag))
  {
    var key := solution + etag;
    assert Apart(s, key);
    ApartOverRuns(maxAttempts, s, ls, key);
    InitialLaws(s, ResultListener, key);
    InitialLaws(s, CommandListener, key);
    LocksOverRuns(maxAttempts, s, ls, ResultListener, key);
    LocksOverRuns(maxAttempts, s, ls, CommandListener, key);
    var e := RunOf(maxAttempts, s, ls);
    ListenersShareKey(e, key);
    SumAtMost(e.log, ResultReports(solution, etag), KeyReports(key), Nothing());
    SumZero(e.log, Nothing());
  }

  // ---------- what a result's Done report clears ----------

  // A report of a result carries its solution, or nothing if the result did not parse.
  predicate ResultReportOk(th: Thread) {
    (th.Publishing? || th.Clearing?) && th.report.origin.FromResult? ==>
      if th.report.success then th.report.solution == th.report.origin.solution
      else th.report.solution == "" && th.report.done
  }

  ghost predicate ResultReportsOk(s: State) {
    forall t :: 0 <= t < |s.threads| ==> ResultReportOk(s.threads[t])
  }

  lemma StepKeepsResultReports(maxAttempts: nat, s: State, l: Label)
    requires Enabled(s, l) && ResultReportsOk(s)
    ensures ResultReportsOk(Next(maxAttempts, s, l))
  {
    if l.Run? {
      assert ResultReportOk(s.threads[l.t]);
      var e := Act(maxAttempts, s.store, s.msgs, s.threads[l.t], l.choice);
      assert ResultReportOk(e.thread) && (e.spawn != None ==> ResultReportOk(e.spawn.value));
    }
  }

  lemma {:induction false} ResultReportsOverRuns(maxAttempts: nat, s: State, ls: seq<Label>)
    requires EnabledRun(maxAttempts, s, ls) && ResultReportsOk(s)
    ensures ResultReportsOk(RunOf(maxAttempts, s, ls))
    decreases |ls|
  {
    if ls != [] {
      StepKeepsResultReports(maxAttempts, s, ls[0]);
      ResultReportsOverRuns(maxAttempts, Next(maxAttempts, s, ls[0]), ls[1..]);
    }
  }

  // In every interleaving, when the DEL that follows the final report of a result
  // gets through, it removes the key of that result's solution and no other.  The
  // report of a result that does not parse carries no solution ID: its DEL removes
  // the key of the empty ID and leaves the solution's lock to the watchdog.
  lemma DoneResultClears(maxAttempts: nat, s: State, ls: seq<Label>, t: nat, r: Report, reach: Reach)
    requires Initial(s) && EnabledRun(maxAttempts, s, ls)
    requires var e := RunOf(maxAttempts, s, ls);
             t < |e.threads| && e.threads[t] == Clearing(r) && r.origin.FromResult?
    ensures var e := RunOf(maxAttempts, s, ls);
            && Enabled(e, Run(t, Redis(reach)))
            && Next(maxAttempts, e, Run(t, Redis(reach))).store
               == if reach == NotApplied then e.store else e.store - {if r.success then r.origin.solution else ""}
  {
    ResultReportsOverRuns(maxAttempts, s, ls);
    var e := RunOf(maxAttempts, s, ls);
    assert ResultReportOk(e.threads[t]);
    var cleared := if r.success then r.origin.solution else "";
    assert cleared !in e.store ==> e.store - {cleared} == e.store;
  }
}
