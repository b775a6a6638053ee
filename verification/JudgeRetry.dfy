/**
The life of one judge message in runs where NSQ does not redeliver an unanswered
delivery: bounded deliveries, one finish, one report, and progress.
*/
module JudgeRetry {
  import opened Wrappers
  import opened Tally
  import opened Judge
  import opened JudgeLedgers

  // How many steps a delivery of the message may still take at most.
  function StageOf(th: Thread, m: nat): nat {
    match th
    case Received(x, _) => if x == m then 7 else 0
    case Locking(x, _, _) => if x == m then 6 else 0
    case Working(x, _, _) => if x == m then 5 else 0
    case Failing(x, _, _, _) => if x == m then 4 else 0
    case Publishing(r) => if r.origin == FromMessage(m) then 3 else 0
    case Clearing(r) => if r.origin == FromMessage(m) then 2 else 0
    case Responding(x, _) => if x == m then 1 else 0
    case _ => 0
  }

  predicate Concerned(th: Thread, m: nat) {
    StageOf(th, m) > 0
  }

  predicate ReportedBy(th: Thread, m: nat) {
    (th.Clearing? && th.report.origin == FromMessage(m)) || th == Responding(m, true)
  }

  function Stage(m: nat): Thread -> nat {
    (th: Thread) => StageOf(th, m)
  }

  function Concerns(m: nat): Thread -> nat {
    (th: Thread) => if Concerned(th, m) then 1 else 0
  }

  function PastReport(m: nat): Thread -> nat {
    (th: Thread) => if ReportedBy(th, m) then 1 else 0
  }

  function MessageReports(m: nat): Event -> nat {
    (e: Event) => if e.Published? && e.report.origin == FromMessage(m) then 1 else 0
  }

  function Finishes(m: nat): Event -> nat {
    (e: Event) => if e == Responded(m, true) then 1 else 0
  }

  // "Judge started", or a final failure, of the message's own solution
  predicate ReportOk(r: Report, msg: Message) {
    r.origin.FromMessage? ==>
      msg.body.Request?
      && r in {Report(r.origin, msg.body.solution, true, false), Report(r.origin, msg.body.solution, false, true)}
  }

  // A delivery knows its own number, is judged only up to the limit and
  // requeued only below it.
  predicate AttemptOk(th: Thread, msg: Message, maxAttempts: nat) {
    match th
    case Received(_, a) => a == msg.deliveries
    case Locking(_, a, k) => a == msg.deliveries && a <= Attempts16(maxAttempts) && msg.body == Request(k)
    case Working(_, a, k) => a == msg.deliveries && a <= Attempts16(maxAttempts) && msg.body == Request(k)
    case Failing(_, a, k, _) => a == msg.deliveries && a <= Attempts16(maxAttempts) && msg.body == Request(k)
    case Publishing(r) => msg.body.Request? && ReportOk(r, msg)
    case Clearing(r) => msg.body.Request?
    case Responding(_, finish) => finish || msg.deliveries <= Attempts16(maxAttempts)
    case _ => true
  }

  ghost predicate CountsOk(maxAttempts: nat, s: State, m: nat)
    requires m < |s.msgs|
  {
    var msg := s.msgs[m];
    && Sum(s.threads, Concerns(m)) == (if msg.status == Out then 1 else 0)
    && msg.deliveries <= Attempts16(maxAttempts) + (if msg.status == Queued then 0 else 1)
    && Sum(s.log, Finishes(m)) == (if msg.status == Finished then 1 else 0)
    && Sum(s.log, MessageReports(m))
       == (if msg.body.Garbage? then 0
           else Sum(s.threads, PastReport(m)) + if msg.status == Finished then 1 else 0)
  }

  ghost predicate AttemptsOk(maxAttempts: nat, s: State, m: nat)
    requires m < |s.msgs|
  {
    forall t :: 0 <= t < |s.threads| && Concerned(s.threads[t], m) ==> AttemptOk(s.threads[t], s.msgs[m], maxAttempts)
  }

  ghost predicate ReportsOk(s: State, m: nat)
    requires m < |s.msgs|
  {
    forall e :: e in s.log && e.Published? && e.report.origin == FromMessage(m) ==> ReportOk(e.report, s.msgs[m])
  }

  ghost predicate MessageInv(maxAttempts: nat, s: State, m: nat) {
    if m >= |s.msgs| then
      && Sum(s.threads, Concerns(m)) == 0 && Sum(s.log, MessageReports(m)) == 0 && Sum(s.log, Finishes(m)) == 0
    else
      CountsOk(maxAttempts, s, m) && AttemptsOk(maxAttempts, s, m) && ReportsOk(s, m)
  }

  lemma InitialMessages(maxAttempts: nat, s: State, m: nat)
    requires Initial(s)
    ensures MessageInv(maxAttempts, s, m)
  {
    forall th | th in s.threads ensures !Concerned(th, m) {
      assert th.Idle?;
    }
    SumZero(s.threads, Concerns(m));
  }

  // ---------- one step of a goroutine ----------

  predicate Unconcerned(x: Option<Thread>, m: nat) {
    x == None || (!Concerned(x.value, m) && !ReportedBy(x.value, m))
  }

  lemma ActElsewhere(maxAttempts: nat, s: State, t: nat, c: Choice, m: nat)
    requires Enabled(s, Run(t, c)) && !Concerned(s.threads[t], m)
    ensures var e := Act(maxAttempts, s.store, s.msgs, s.threads[t], c);
            && Unconcerned(Some(e.thread), m) && Unconcerned(e.spawn, m)
            && Of(MessageReports(m), e.event) == 0 && Of(Finishes(m), e.event) == 0
            && |e.msgs| == |s.msgs| && (m < |s.msgs| ==> e.msgs[m] == s.msgs[m])
            && (e.event != None && e.event.value.Published? ==> e.event.value.report.origin != FromMessage(m))
  {
  }

  lemma ActOnDelivery(maxAttempts: nat, s: State, t: nat, c: Choice, m: nat)
    requires Enabled(s, Run(t, c)) && Attempts16(maxAttempts) < 0xFFFF && m < |s.msgs|
    requires Concerned(s.threads[t], m) && s.msgs[m].status == Out
    requires AttemptOk(s.threads[t], s.msgs[m], maxAttempts)
    ensures var e := Act(maxAttempts, s.store, s.msgs, s.threads[t], c); var msg := e.msgs[m];
            && |e.msgs| == |s.msgs|
            && msg == s.msgs[m].(status := msg.status) && e.spawn == None
            && (msg.status == Queued ==> msg.deliveries <= Attempts16(maxAttempts))
            && (Concerned(e.thread, m) <==> msg.status == Out)
            && (msg.status == Out ==> AttemptOk(e.thread, msg, maxAttempts))
            && Of(Finishes(m), e.event) == (if msg.status == Finished then 1 else 0)
            && (e.event != None && e.event.value.Published? ==> ReportOk(e.event.value.report, msg))
            && StageOf(e.thread, m) < StageOf(s.threads[t], m)
  {
    match s.threads[t] {
      case Received(_, _) =>
      case Publishing(_) =>
      case Failing(_, _, _, _) =>
      case Responding(_, _) =>
      case _ =>
    }
  }

  lemma ActReports(maxAttempts: nat, s: State, t: nat, c: Choice, m: nat)
    requires Enabled(s, Run(t, c)) && Attempts16(maxAttempts) < 0xFFFF && m < |s.msgs|
    requires Concerned(s.threads[t], m) && s.msgs[m].status == Out
    requires AttemptOk(s.threads[t], s.msgs[m], maxAttempts)
    ensures var e := Act(maxAttempts, s.store, s.msgs, s.threads[t], c);
            if s.msgs[m].body.Garbage? then Of(MessageReports(m), e.event) == 0
            else Of(MessageReports(m), e.event) + PastReport(m)(s.threads[t])
                 == PastReport(m)(e.thread) + if e.msgs[m].status == Finished then 1 else 0
  {
    match s.threads[t] {
      case Received(_, _) =>
      case Publishing(_) =>
      case Responding(_, _) =>
      case _ =>
    }
  }

  // ---------- every step ----------

  lemma SumsAfterRun(maxAttempts: nat, s: State, t: nat, c: Choice, m: nat)
    requires Enabled(s, Run(t, c))
    ensures var e := Act(maxAttempts, s.store, s.msgs, s.threads[t], c); var n := Next(maxAttempts, s, Run(t, c));
            && Sum(n.threads, Concerns(m)) + Concerns(m)(s.threads[t])
               == Sum(s.threads, Concerns(m)) + Concerns(m)(e.thread) + Of(Concerns(m), e.spawn)
            && Sum(n.threads, PastReport(m)) + PastReport(m)(s.threads[t])
               == Sum(s.threads, PastReport(m)) + PastReport(m)(e.thread) + Of(PastReport(m), e.spawn)
            && Sum(n.threads, Stage(m)) + Stage(m)(s.threads[t])
               == Sum(s.threads, Stage(m)) + Stage(m)(e.thread) + Of(Stage(m), e.spawn)
            && Sum(n.log, MessageReports(m)) == Sum(s.log, MessageReports(m)) + Of(MessageReports(m), e.event)
            && Sum(n.log, Finishes(m)) == Sum(s.log, Finishes(m)) + Of(Finishes(m), e.event)
  {
    var e := Act(maxAttempts, s.store, s.msgs, s.threads[t], c);
    SumUpdate(s.threads, t, e.thread, Concerns(m));
    SumUpdate(s.threads, t, e.thread, PastReport(m));
    SumUpdate(s.threads, t, e.thread, Stage(m));
    SumAppended(s.threads[t := e.thread], e.spawn, Concerns(m));
    SumAppended(s.threads[t := e.thread], e.spawn, PastReport(m));
    SumAppended(s.threads[t := e.thread], e.spawn, Stage(m));
    SumAppended(s.log, e.event, MessageReports(m));
    SumAppended(s.log, e.event, Finishes(m));
  }

  lemma NoneConcerned(threads: seq<Thread>, m: nat)
    requires Sum(threads, Concerns(m)) == 0
    ensures forall t :: 0 <= t < |threads| ==> !Concerned(threads[t], m) && !ReportedBy(threads[t], m)
    ensures Sum(threads, PastReport(m)) == 0
  {
    SumZero(threads, Concerns(m));
    forall t | 0 <= t < |threads| ensures !Concerned(threads[t], m) {
      assert Concerns(m)(threads[t]) == 0;
    }
    SumZero(threads, PastReport(m));
  }

  // The counts of a message that the step does not concern stay as they are.
  lemma RunElsewhereKeepsCounts(maxAttempts: nat, s: State, t: nat, c: Choice, m: nat)
    requires Enabled(s, Run(t, c)) && !Concerned(s.threads[t], m)
    ensures var n := Next(maxAttempts, s, Run(t, c));
            && Sum(n.threads, Concerns(m)) == Sum(s.threads, Concerns(m))
            && Sum(n.threads, PastReport(m)) == Sum(s.threads, PastReport(m))
            && Sum(n.log, MessageReports(m)) == Sum(s.log, MessageReports(m))
            && Sum(n.log, Finishes(m)) == Sum(s.log, Finishes(m))
  {
    SumsAfterRun(maxAttempts, s, t, c, m);
    ActElsewhere(maxAttempts, s, t, c, m);
  }

  lemma RunElsewhereKeepsMessage(maxAttempts: nat, s: State, t: nat, c: Choice, m: nat)
    requires Enabled(s, Run(t, c)) && MessageInv(maxAttempts, s, m) && !Concerned(s.threads[t], m)
    ensures MessageInv(maxAttempts, Next(maxAttempts, s, Run(t, c)), m)
  {
    RunElsewhereKeepsCounts(maxAttempts, s, t, c, m);
    ActElsewhere(maxAttempts, s, t, c, m);
  }

  lemma RunOnKeepsAttempts(maxAttempts: nat, s: State, t: nat, c: Choice, m: nat)
    requires Enabled(s, Run(t, c)) && Attempts16(maxAttempts) < 0xFFFF
    requires Concerned(s.threads[t], m) && m < |s.msgs| && s.msgs[m].status == Out && AttemptsOk(maxAttempts, s, m)
    ensures var n := Next(maxAttempts, s, Run(t, c)); m < |n.msgs| && AttemptsOk(maxAttempts, n, m)
  {
    ActOnDelivery(maxAttempts, s, t, c, m);
  }

  lemma RunOnKeepsReports(maxAttempts: nat, s: State, t: nat, c: Choice, m: nat)
    requires Enabled(s, Run(t, c)) && Attempts16(maxAttempts) < 0xFFFF
    requires Concerned(s.threads[t], m) && m < |s.msgs| && s.msgs[m].status == Out
    requires AttemptsOk(maxAttempts, s, m) && ReportsOk(s, m)
    ensures var n := Next(maxAttempts, s, Run(t, c)); m < |n.msgs| && ReportsOk(n, m)
  {
    ActOnDelivery(maxAttempts, s, t, c, m);
  }

  lemma RunOnKeepsCounts(maxAttempts: nat, s: State, t: nat, c: Choice, m: nat)
    requires Enabled(s, Run(t, c)) && MessageInv(maxAttempts, s, m) && Attempts16(maxAttempts) < 0xFFFF
    requires Concerned(s.threads[t], m) && m < |s.msgs| && s.msgs[m].status == Out
    ensures var n := Next(maxAttempts, s, Run(t, c)); m < |n.msgs| && CountsOk(maxAttempts, n, m)
  {
    SumsAfterRun(maxAttempts, s, t, c, m);
    ActOnDelivery(maxAttempts, s, t, c, m);
    ActReports(maxAttempts, s, t, c, m);
  }

  lemma RunOnKeepsMessage(maxAttempts: nat, s: State, t: nat, c: Choice, m: nat)
    requires Enabled(s, Run(t, c)) && MessageInv(maxAttempts, s, m) && Attempts16(maxAttempts) < 0xFFFF
    requires Concerned(s.threads[t], m) && m < |s.msgs| && s.msgs[m].status == Out
    ensures MessageInv(maxAttempts, Next(maxAttempts, s, Run(t, c)), m)
  {
    RunOnKeepsCounts(maxAttempts, s, t, c, m);
    RunOnKeepsAttempts(maxAttempts, s, t, c, m);
    RunOnKeepsReports(maxAttempts, s, t, c, m);
  }

  lemma RunKeepsMessage(maxAttempts: nat, s: State, t: nat, c: Choice, m: nat)
    requires Enabled(s, Run(t, c)) && MessageInv(maxAttempts, s, m) && Attempts16(maxAttempts) < 0xFFFF
    ensures MessageInv(maxAttempts, Next(maxAttempts, s, Run(t, c)), m)
  {
    if Concerned(s.threads[t], m) {
      SumUpdate(s.threads, t, Idle, Concerns(m));
      RunOnKeepsMessage(maxAttempts, s, t, c, m);
    } else {
      RunElsewhereKeepsMessage(maxAttempts, s, t, c, m);
    }
  }

  // A queued message may be delivered once more, within the consumer's limit.
  lemma DeliverIsReceived(maxAttempts: nat, s: State, t: nat, x: nat)
    requires Enabled(s, Deliver(t, x)) && MessageInv(maxAttempts, s, x) && Attempts16(maxAttempts) < 0xFFFF
    ensures var n := Next(maxAttempts, s, Deliver(t, x)); var a := s.msgs[x].deliveries + 1;
            && a <= Attempts16(maxAttempts) + 1
            && n == s.(msgs := s.msgs[x := s.msgs[x].(deliveries := a, status := Out)],
                       threads := s.threads[t := Received(x, a)])
  {
    var a := s.msgs[x].deliveries + 1;
    assert Attempts16(a) == a && ConsumerLimit(maxAttempts) == Attempts16(maxAttempts) + 1;
  }

  lemma DeliverKeepsThisMessage(maxAttempts: nat, s: State, t: nat, m: nat)
    requires Enabled(s, Deliver(t, m)) && MessageInv(maxAttempts, s, m) && Attempts16(maxAttempts) < 0xFFFF
    ensures MessageInv(maxAttempts, Next(maxAttempts, s, Deliver(t, m)), m)
  {
    var received := Received(m, s.msgs[m].deliveries + 1);
    DeliverIsReceived(maxAttempts, s, t, m);
    NoneConcerned(s.threads, m);
    SumUpdate(s.threads, t, received, Concerns(m));
    SumUpdate(s.threads, t, received, PastReport(m));
  }

  lemma DeliverKeepsOtherMessage(maxAttempts: nat, s: State, t: nat, x: nat, m: nat)
    requires Enabled(s, Deliver(t, x)) && MessageInv(maxAttempts, s, m) && x != m
    requires MessageInv(maxAttempts, s, x) && Attempts16(maxAttempts) < 0xFFFF
    ensures MessageInv(maxAttempts, Next(maxAttempts, s, Deliver(t, x)), m)
  {
    var received := Received(x, s.msgs[x].deliveries + 1);
    DeliverIsReceived(maxAttempts, s, t, x);
    SumUpdate(s.threads, t, received, Concerns(m));
    SumUpdate(s.threads, t, received, PastReport(m));
    assert !Concerned(received, m) && !Concerned(s.threads[t], m);
  }

  lemma SubmitKeepsMessage(maxAttempts: nat, s: State, body: Body, m: nat)
    requires MessageInv(maxAttempts, s, m)
    ensures MessageInv(maxAttempts, Next(maxAttempts, s, Submit(body)), m)
  {
    if m == |s.msgs| {
      NoneConcerned(s.threads, m);
      SumZero(s.log, MessageReports(m));
    }
  }

  lemma StepKeepsMessage(maxAttempts: nat, s: State, l: Label, m: nat)
    requires Enabled(s, l) && !l.Timeout? && Attempts16(maxAttempts) < 0xFFFF
    requires MessageInv(maxAttempts, s, m)
    requires l.Deliver? ==> MessageInv(maxAttempts, s, l.m)
    ensures MessageInv(maxAttempts, Next(maxAttempts, s, l), m)
  {
    match l {
      case Submit(body) => SubmitKeepsMessage(maxAttempts, s, body, m);
      case Deliver(t, x) =>
        if x == m {
          DeliverKeepsThisMessage(maxAttempts, s, t, m);
        } else {
          DeliverKeepsOtherMessage(maxAttempts, s, t, x, m);
        }
      case Notify(t, role, solution, etag) =>
        SumUpdate(s.threads, t, Noticed(role, solution, etag), Concerns(m));
        SumUpdate(s.threads, t, Noticed(role, solution, etag), PastReport(m));
      case Expire(k) =>
        SumSnoc(s.log, Expired(k), MessageReports(m));
        SumSnoc(s.log, Expired(k), Finishes(m));
      case Run(t, c) => RunKeepsMessage(maxAttempts, s, t, c, m);
    }
  }

  lemma {:induction false} MessagesOverRuns(maxAttempts: nat, s: State, ls: seq<Label>)
    requires EnabledRun(maxAttempts, s, ls) && Attempts16(maxAttempts) < 0xFFFF
    requires forall l :: l in ls ==> !l.Timeout?
    requires forall m: nat :: MessageInv(maxAttempts, s, m)
    ensures forall m: nat :: MessageInv(maxAttempts, RunOf(maxAttempts, s, ls), m)
    decreases |ls|
  {
    if ls != [] {
      assert ls[0] in ls;
      forall m: nat ensures MessageInv(maxAttempts, Next(maxAttempts, s, ls[0]), m) {
        StepKeepsMessage(maxAttempts, s, ls[0], m);
      }
      MessagesOverRuns(maxAttempts, Next(maxAttempts, s, ls[0]), ls[1..]);
    }
  }

  function GoodReports(m: nat): Event -> nat {
    (e: Event) => if e.Published? && e.report.origin == FromMessage(m) && e.ok then 1 else 0
  }

  function NoThread(): Thread -> nat {
    (th: Thread) => 0
  }

  // Every message of every run: at most MaxAttempts + 1 deliveries, one finish
  // and no further delivery of a finished message, and for a parsable one a
  // single publish, of either "Judge started" or one Done failure.
  lemma RetryLifecycle(maxAttempts: nat, s: State, ls: seq<Label>, m: nat)
    requires Initial(s) && EnabledRun(maxAttempts, s, ls) && Attempts16(maxAttempts) < 0xFFFF
    requires forall l :: l in ls ==> !l.Timeout?
    requires m < |RunOf(maxAttempts, s, ls).msgs|
    ensures var e := RunOf(maxAttempts, s, ls); var msg := e.msgs[m]; var finished := msg.status == Finished;
            && msg.deliveries <= Attempts16(maxAttempts) + 1
            && Sum(e.log, Finishes(m)) == (if finished then 1 else 0)
            && Sum(e.log, MessageReports(m)) <= (if msg.body.Request? then 1 else 0)
            && (finished && msg.body.Request? ==> Sum(e.log, MessageReports(m)) == 1)
            && (forall r, ok :: Published(r, ok) in e.log && r.origin == FromMessage(m) ==> ReportOk(r, msg))
  {
    forall x: nat ensures MessageInv(maxAttempts, s, x) {
      InitialMessages(maxAttempts, s, x);
    }
    MessagesOverRuns(maxAttempts, s, ls);
    var e := RunOf(maxAttempts, s, ls);
    assert MessageInv(maxAttempts, e, m);
    SumAtMost(e.threads, PastReport(m), Concerns(m), NoThread());
    SumZero(e.threads, NoThread());
  }

  function NoEvent(): Event -> nat {
    (e: Event) => 0
  }

  // With successful publishes, a finished parsable message has exactly one report out.
  lemma FinishedMessageReported(maxAttempts: nat, s: State, ls: seq<Label>, m: nat)
    requires Initial(s) && EnabledRun(maxAttempts, s, ls) && Attempts16(maxAttempts) < 0xFFFF
    requires forall l :: l in ls ==> !l.Timeout?
    requires m < |RunOf(maxAttempts, s, ls).msgs|
    requires RunOf(maxAttempts, s, ls).msgs[m].status == Finished && RunOf(maxAttempts, s, ls).msgs[m].body.Request?
    requires forall r, ok :: Published(r, ok) in RunOf(maxAttempts, s, ls).log ==> ok
    ensures Sum(RunOf(maxAttempts, s, ls).log, GoodReports(m)) == 1
  {
    RetryLifecycle(maxAttempts, s, ls, m);
    var log := RunOf(maxAttempts, s, ls).log;
    forall e | e in log && e.Published? ensures e.ok {
      assert Published(e.report, e.ok) in log;
    }
    SumAtMost(log, GoodReports(m), MessageReports(m), NoEvent());
    SumAtMost(log, MessageReports(m), GoodReports(m), NoEvent());
    SumZero(log, NoEvent());
  }

  // ---------- progress ----------

  // does this step handle the message?
  predicate Moves(s: State, l: Label, m: nat)
    requires Enabled(s, l)
  {
    (l.Deliver? && l.m == m) || (l.Run? && Concerned(s.threads[l.t], m))
  }

  function StepsFor(maxAttempts: nat, s: State, ls: seq<Label>, m: nat): nat
    requires EnabledRun(maxAttempts, s, ls)
    decreases |ls|
  {
    if ls == [] then 0
    else (if Moves(s, ls[0], m) then 1 else 0) + StepsFor(maxAttempts, Next(maxAttempts, s, ls[0]), ls[1..], m)
  }

  function Rank(maxAttempts: nat, s: State, m: nat): int
    requires m < |s.msgs|
  {
    (if s.msgs[m].status == Finished then 0 else 8 * (Attempts16(maxAttempts) + 1 - s.msgs[m].deliveries))
    + Sum(s.threads, Stage(m))
  }

  lemma RankDrops(maxAttempts: nat, s: State, l: Label, m: nat)
    requires Enabled(s, l) && !l.Timeout? && Attempts16(maxAttempts) < 0xFFFF && m < |s.msgs|
    requires MessageInv(maxAttempts, s, m) && (l.Deliver? ==> MessageInv(maxAttempts, s, l.m))
    ensures |Next(maxAttempts, s, l).msgs| >= |s.msgs|
    ensures Rank(maxAttempts, Next(maxAttempts, s, l), m)
            <= Rank(maxAttempts, s, m) - if Moves(s, l, m) then 1 else 0
  {
    match l {
      case Deliver(t, x) =>
        DeliverIsReceived(maxAttempts, s, t, x);
        SumUpdate(s.threads, t, Received(x, s.msgs[x].deliveries + 1), Stage(m));
      case Notify(t, role, solution, etag) =>
        SumUpdate(s.threads, t, Noticed(role, solution, etag), Stage(m));
      case Run(t, c) =>
        SumsAfterRun(maxAttempts, s, t, c, m);
        SumUpdate(s.threads, t, Idle, Concerns(m));
        if !Concerned(s.threads[t], m) {
          ActElsewhere(maxAttempts, s, t, c, m);
        } else {
          ActOnDelivery(maxAttempts, s, t, c, m);
        }
      case _ =>
    }
  }

  // A message takes at most 8 (MaxAttempts + 1) steps, whatever else goes on.
  lemma {:induction false} MessageStepsBounded(maxAttempts: nat, s: State, ls: seq<Label>, m: nat)
    requires EnabledRun(maxAttempts, s, ls) && Attempts16(maxAttempts) < 0xFFFF && m < |s.msgs|
    requires forall l :: l in ls ==> !l.Timeout?
    requires forall x: nat :: MessageInv(maxAttempts, s, x)
    ensures StepsFor(maxAttempts, s, ls, m) <= Rank(maxAttempts, s, m)
    decreases |ls|
  {
    if ls == [] {
      assert MessageInv(maxAttempts, s, m);
    } else {
      assert ls[0] in ls;
      var n := Next(maxAttempts, s, ls[0]);
      forall x: nat ensures MessageInv(maxAttempts, n, x) {
        StepKeepsMessage(maxAttempts, s, ls[0], x);
      }
      RankDrops(maxAttempts, s, ls[0], m);
      MessageStepsBounded(maxAttempts, n, ls[1..], m);
    }
  }

  // And while it is unfinished it can always move, given an idle handler for a
  // queued one: so it ends finished.
  lemma UnfinishedCanMove(maxAttempts: nat, s: State, m: nat, t: nat)
    requires Valid(s) && MessageInv(maxAttempts, s, m) && m < |s.msgs| && s.msgs[m].status != Finished
    requires t < |s.threads| && s.threads[t].Idle?
    ensures exists l :: Enabled(s, l) && !l.Timeout? && Moves(s, l, m)
  {
    if s.msgs[m].status == Queued {
      assert Enabled(s, Deliver(t, m)) && Moves(s, Deliver(t, m), m);
    } else {
      SumZero(s.threads, Concerns(m));
      var th :| th in s.threads && Concerned(th, m);
      var i :| 0 <= i < |s.threads| && s.threads[i] == th;
      var c := match th
        case Received(_, _) => Go
        case Responding(_, _) => Go
        case Working(_, _, _) => Succeeds(true)
        case Publishing(_) => Succeeds(true)
        case _ => Redis(Applied);
      assert Enabled(s, Run(i, c)) && Moves(s, Run(i, c), m);
    }
  }
}
