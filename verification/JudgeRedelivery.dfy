/**
The life of one judge message in every run, also when NSQ redelivers what has
not been answered in time: bounded deliveries, one finish, and how many reports.
*/
module JudgeRedelivery {
  import opened Wrappers
  import opened Tally
  import opened Judge
  import opened JudgeLedgers
  import opened JudgeRetry

  function Done(msg: Message): nat {
    if msg.status == Finished then 1 else 0
  }

  // Also when unanswered deliveries time out: a finished message stays finished.
  ghost predicate FinishInv(maxAttempts: nat, s: State, m: nat) {
    if m >= |s.msgs| then Sum(s.log, Finishes(m)) == 0
    else
      && s.msgs[m].deliveries <= Attempts16(maxAttempts) + 1 + Done(s.msgs[m])
      && Sum(s.log, Finishes(m)) == Done(s.msgs[m])
  }

  lemma ActFinishes(maxAttempts: nat, s: State, t: nat, c: Choice, m: nat)
    requires Enabled(s, Run(t, c))
    ensures var e := Act(maxAttempts, s.store, s.msgs, s.threads[t], c);
            && |e.msgs| == |s.msgs|
            && if m >= |s.msgs| then Of(Finishes(m), e.event) == 0
               else e.msgs[m].deliveries == s.msgs[m].deliveries
                    && Done(s.msgs[m]) + Of(Finishes(m), e.event) == Done(e.msgs[m])
  {
    match s.threads[t] {
      case Responding(_, _) =>
      case Reading(_, _, _) =>
      case _ =>
    }
  }

  lemma RunKeepsFinish(maxAttempts: nat, s: State, t: nat, c: Choice, m: nat)
    requires Enabled(s, Run(t, c)) && FinishInv(maxAttempts, s, m)
    ensures FinishInv(maxAttempts, Next(maxAttempts, s, Run(t, c)), m)
  {
    ActFinishes(maxAttempts, s, t, c, m);
    SumAppended(s.log, Act(maxAttempts, s.store, s.msgs, s.threads[t], c).event, Finishes(m));
  }

  lemma DeliverKeepsOtherFinish(maxAttempts: nat, s: State, t: nat, x: nat, m: nat)
    requires Enabled(s, Deliver(t, x)) && FinishInv(maxAttempts, s, m) && x != m
    ensures FinishInv(maxAttempts, Next(maxAttempts, s, Deliver(t, x)), m)
  {
    SumSnoc(s.log, Responded(x, true), Finishes(m));
  }

  lemma DeliverKeepsThisFinish(maxAttempts: nat, s: State, t: nat, m: nat)
    requires Enabled(s, Deliver(t, m)) && FinishInv(maxAttempts, s, m) && Attempts16(maxAttempts) < 0xFFFE
    ensures FinishInv(maxAttempts, Next(maxAttempts, s, Deliver(t, m)), m)
  {
    var a := s.msgs[m].deliveries + 1;
    assert a <= Attempts16(maxAttempts) + 2;
    assert ConsumerLimit(maxAttempts) == Attempts16(maxAttempts) + 1 && Attempts16(a) == a;
    SumSnoc(s.log, Responded(m, true), Finishes(m));
  }

  lemma StepKeepsFinish(maxAttempts: nat, s: State, l: Label, m: nat)
    requires Enabled(s, l) && FinishInv(maxAttempts, s, m) && Attempts16(maxAttempts) < 0xFFFE
    ensures FinishInv(maxAttempts, Next(maxAttempts, s, l), m)
  {
    match l {
      case Deliver(t, x) =>
        if x == m {
          DeliverKeepsThisFinish(maxAttempts, s, t, m);
        } else {
          DeliverKeepsOtherFinish(maxAttempts, s, t, x, m);
        }
      case Expire(k) => SumSnoc(s.log, Expired(k), Finishes(m));
      case Run(t, c) => RunKeepsFinish(maxAttempts, s, t, c, m);
      case _ =>
    }
  }

  lemma ActKeepsFinished(maxAttempts: nat, s: State, t: nat, c: Choice, m: nat)
    requires Enabled(s, Run(t, c)) && m < |s.msgs|
    ensures var e := Act(maxAttempts, s.store, s.msgs, s.threads[t], c);
            |e.msgs| == |s.msgs| && (s.msgs[m].status == Finished ==> e.msgs[m] == s.msgs[m])
  {
  }

  lemma FinishedStays(maxAttempts: nat, s: State, l: Label, m: nat)
    requires Enabled(s, l) && m < |s.msgs|
    ensures var n := Next(maxAttempts, s, l);
            m < |n.msgs| && (s.msgs[m].status == Finished ==> n.msgs[m] == s.msgs[m])
  {
    if l.Run? {
      ActKeepsFinished(maxAttempts, s, l.t, l.choice, m);
    }
  }

  // Every run, redeliveries of unanswered messages included: at most
  // MaxAttempts + 2 deliveries, and one finish, after which the message stays
  // finished.
  lemma {:induction false} FinishedOnceOverRuns(maxAttempts: nat, s: State, ls: seq<Label>, m: nat)
    requires EnabledRun(maxAttempts, s, ls) && FinishInv(maxAttempts, s, m) && Attempts16(maxAttempts) < 0xFFFE
    ensures var e := RunOf(maxAttempts, s, ls);
            && FinishInv(maxAttempts, e, m)
            && (m < |s.msgs| ==> m < |e.msgs| && (s.msgs[m].status == Finished ==> e.msgs[m] == s.msgs[m]))
    decreases |ls|
  {
    if ls != [] {
      StepKeepsFinish(maxAttempts, s, ls[0], m);
      if m < |s.msgs| {
        FinishedStays(maxAttempts, s, ls[0], m);
      }
      FinishedOnceOverRuns(maxAttempts, Next(maxAttempts, s, ls[0]), ls[1..], m);
    }
  }

  // ---------- how many reports ----------

  predicate Parsable(s: State, m: nat) {
    m < |s.msgs| && s.msgs[m].body.Request?
  }

  // goroutines that may still publish a report of the message
  function MayReport(limit: nat, parsable: bool, m: nat): Thread -> nat {
    (th: Thread) =>
      if (match th
          case Received(x, _) => x == m && parsable
          case Locking(x, _, _) => x == m
          case Working(x, _, _) => x == m
          case Failing(x, a, _, _) => x == m && a == limit
          case Publishing(r) => r.origin == FromMessage(m)
          case _ => false) then 1 else 0
  }

  function Reporting(maxAttempts: nat, s: State, m: nat): Thread -> nat {
    MayReport(Attempts16(maxAttempts), Parsable(s, m), m)
  }

  // reports published, and reports that may still come without another delivery
  function Potential(maxAttempts: nat, s: State, m: nat): nat {
    Sum(s.log, MessageReports(m)) + Sum(s.threads, Reporting(maxAttempts, s, m))
  }

  // a delivery that reaches a handler
  predicate Handed(maxAttempts: nat, s: State, l: Label, m: nat)
    requires Enabled(s, l)
  {
    && l.Deliver? && l.m == m
    && (ConsumerLimit(maxAttempts) > 0 ==> Attempts16(s.msgs[m].deliveries + 1) <= ConsumerLimit(maxAttempts))
  }

  lemma NoneReporting(maxAttempts: nat, s: State, m: nat, parsable: bool)
    requires Valid(s) && m >= |s.msgs|
    ensures Sum(s.threads, MayReport(Attempts16(maxAttempts), parsable, m)) == 0
  {
    forall th | th in s.threads ensures MayReport(Attempts16(maxAttempts), parsable, m)(th) == 0 {
      var t :| 0 <= t < |s.threads| && s.threads[t] == th;
      assert ThreadOk(s.threads[t], |s.msgs|);
    }
    SumZero(s.threads, MayReport(Attempts16(maxAttempts), parsable, m));
  }

  // A goroutine's step publishes or passes on what it may report, or drops it.
  lemma ActSpendsPotential(maxAttempts: nat, s: State, t: nat, c: Choice, m: nat)
    requires Enabled(s, Run(t, c))
    ensures var e := Act(maxAttempts, s.store, s.msgs, s.threads[t], c); var f := Reporting(maxAttempts, s, m);
            && Of(MessageReports(m), e.event) + f(e.thread) + Of(f, e.spawn) <= f(s.threads[t])
            && |e.msgs| == |s.msgs| && (m < |s.msgs| ==> e.msgs[m].body == s.msgs[m].body)
            && (m < |s.msgs| ==> e.msgs[m].deliveries == s.msgs[m].deliveries)
  {
    match s.threads[t] {
      case Received(_, _) =>
      case Failing(_, _, _, _) =>
      case Publishing(_) =>
      case Reading(_, _, _) =>
      case _ =>
    }
  }

  lemma RunSpendsPotential(maxAttempts: nat, s: State, t: nat, c: Choice, m: nat)
    requires Enabled(s, Run(t, c))
    ensures var e := Act(maxAttempts, s.store, s.msgs, s.threads[t], c); var f := Reporting(maxAttempts, s, m);
            Potential(maxAttempts, Next(maxAttempts, s, Run(t, c)), m) + f(s.threads[t])
            == Potential(maxAttempts, s, m) + Of(MessageReports(m), e.event) + f(e.thread) + Of(f, e.spawn)
  {
    var e := Act(maxAttempts, s.store, s.msgs, s.threads[t], c);
    var f := Reporting(maxAttempts, s, m);
    ActSpendsPotential(maxAttempts, s, t, c, m);
    assert Parsable(Next(maxAttempts, s, Run(t, c)), m) == Parsable(s, m);
    SumUpdate(s.threads, t, e.thread, f);
    SumAppended(s.threads[t := e.thread], e.spawn, f);
    SumAppended(s.log, e.event, MessageReports(m));
  }

  lemma DeliverRaisesPotential(maxAttempts: nat, s: State, t: nat, x: nat, m: nat)
    requires Enabled(s, Deliver(t, x))
    ensures Potential(maxAttempts, Next(maxAttempts, s, Deliver(t, x)), m)
            == Potential(maxAttempts, s, m)
               + if Handed(maxAttempts, s, Deliver(t, x), m) && Parsable(s, m) then 1 else 0
  {
    var f := Reporting(maxAttempts, s, m);
    assert Parsable(Next(maxAttempts, s, Deliver(t, x)), m) == Parsable(s, m);
    SumUpdate(s.threads, t, Received(x, Attempts16(s.msgs[x].deliveries + 1)), f);
    SumSnoc(s.log, Responded(x, true), MessageReports(m));
  }

  // Only a delivery that reaches a handler makes another report possible.
  lemma StepChangesPotential(maxAttempts: nat, s: State, l: Label, m: nat)
    requires Valid(s) && Enabled(s, l)
    ensures var before, after := Potential(maxAttempts, s, m), Potential(maxAttempts, Next(maxAttempts, s, l), m);
            if Handed(maxAttempts, s, l, m) && Parsable(s, m) then after == before + 1 else after <= before
  {
    match l {
      case Submit(_) =>
        if m >= |s.msgs| {
          NoneReporting(maxAttempts, s, m, true);
          NoneReporting(maxAttempts, s, m, false);
        }
      case Deliver(t, x) => DeliverRaisesPotential(maxAttempts, s, t, x, m);
      case Timeout(_) =>
      case Notify(t, role, solution, etag) =>
        SumUpdate(s.threads, t, Noticed(role, solution, etag), Reporting(maxAttempts, s, m));
      case Expire(k) => SumSnoc(s.log, Expired(k), MessageReports(m));
      case Run(t, c) =>
        ActSpendsPotential(maxAttempts, s, t, c, m);
        RunSpendsPotential(maxAttempts, s, t, c, m);
    }
  }

  ghost predicate PotentialInv(maxAttempts: nat, s: State, m: nat) {
    && Valid(s)
    && Potential(maxAttempts, s, m) <= (if m < |s.msgs| then s.msgs[m].deliveries else 0)
    && (Attempts16(maxAttempts) < 0xFFFE ==>
          FinishInv(maxAttempts, s, m) && Potential(maxAttempts, s, m) <= Attempts16(maxAttempts) + 1)
  }

  // How the delivery counter moves: as the deliveries do.
  lemma DeliveriesGrow(maxAttempts: nat, s: State, l: Label, m: nat)
    requires Enabled(s, l) && m < |s.msgs|
    ensures var n := Next(maxAttempts, s, l);
            && |n.msgs| >= |s.msgs|
            && n.msgs[m].deliveries == s.msgs[m].deliveries + if l.Deliver? && l.m == m then 1 else 0
  {
    if l.Run? {
      ActSpendsPotential(maxAttempts, s, l.t, l.choice, m);
    }
  }

  lemma StepKeepsPotential(maxAttempts: nat, s: State, l: Label, m: nat)
    requires Enabled(s, l) && PotentialInv(maxAttempts, s, m)
    ensures PotentialInv(maxAttempts, Next(maxAttempts, s, l), m)
  {
    StepKeepsValid(maxAttempts, s, l);
    StepChangesPotential(maxAttempts, s, l, m);
    if m < |s.msgs| {
      DeliveriesGrow(maxAttempts, s, l, m);
    }
    if Attempts16(maxAttempts) < 0xFFFE {
      StepKeepsFinish(maxAttempts, s, l, m);
    }
  }

  lemma {:induction false} PotentialOverRuns(maxAttempts: nat, s: State, ls: seq<Label>, m: nat)
    requires EnabledRun(maxAttempts, s, ls) && PotentialInv(maxAttempts, s, m)
    ensures PotentialInv(maxAttempts, RunOf(maxAttempts, s, ls), m)
    decreases |ls|
  {
    if ls != [] {
      StepKeepsPotential(maxAttempts, s, ls[0], m);
      PotentialOverRuns(maxAttempts, Next(maxAttempts, s, ls[0]), ls[1..], m);
    }
  }

  lemma InitialPotential(maxAttempts: nat, s: State, m: nat)
    requires Initial(s)
    ensures PotentialInv(maxAttempts, s, m)
  {
    NoneReporting(maxAttempts, s, m, Parsable(s, m));
  }

  // ---------- what the reports say ----------

  // Every report of a message is of the two kinds, for its own solution, and a
  // failure comes only when the deliveries have reached the limit.
  predicate ReportNamed(limit: nat, r: Report, msgs: seq<Message>) {
    r.origin.FromMessage? ==>
      && r.origin.m < |msgs| && ReportOk(r, msgs[r.origin.m])
      && (!r.success ==> msgs[r.origin.m].deliveries >= limit)
  }

  predicate AttemptNamed(m: nat, a: nat, k: Key, msgs: seq<Message>) {
    m < |msgs| && msgs[m].body == Request(k) && a <= msgs[m].deliveries
  }

  predicate Named(limit: nat, th: Thread, msgs: seq<Message>) {
    match th
    case Received(m, a) => m < |msgs| && a <= msgs[m].deliveries
    case Locking(m, a, k) => AttemptNamed(m, a, k, msgs)
    case Working(m, a, k) => AttemptNamed(m, a, k, msgs)
    case Failing(m, a, k, _) => AttemptNamed(m, a, k, msgs)
    case Publishing(r) => ReportNamed(limit, r, msgs)
    case _ => true
  }

  ghost predicate NamedInv(limit: nat, s: State) {
    && (forall t :: 0 <= t < |s.threads| ==> Named(limit, s.threads[t], s.msgs))
    && (forall e :: e in s.log && e.Published? ==> ReportNamed(limit, e.report, s.msgs))
  }

  lemma ActKeepsNamed(maxAttempts: nat, s: State, t: nat, c: Choice)
    requires Enabled(s, Run(t, c)) && Named(Attempts16(maxAttempts), s.threads[t], s.msgs)
    ensures var e := Act(maxAttempts, s.store, s.msgs, s.threads[t], c); var limit := Attempts16(maxAttempts);
            && Named(limit, e.thread, s.msgs) && (e.spawn != None ==> Named(limit, e.spawn.value, s.msgs))
            && (e.event != None && e.event.value.Published? ==> ReportNamed(limit, e.event.value.report, s.msgs))
            && |e.msgs| == |s.msgs|
            && forall m :: 0 <= m < |s.msgs| ==>
                 e.msgs[m].body == s.msgs[m].body && e.msgs[m].deliveries == s.msgs[m].deliveries
  {
    match s.threads[t] {
      case Received(_, _) =>
      case Locking(_, _, _) =>
      case Failing(_, _, _, _) =>
      case Reading(_, _, _) =>
      case _ =>
    }
  }

  ghost predicate Continues(before: seq<Message>, after: seq<Message>) {
    && |before| <= |after|
    && forall m :: 0 <= m < |before| ==>
         after[m].body == before[m].body && after[m].deliveries >= before[m].deliveries
  }

  lemma ContinuesNamed(limit: nat, th: Thread, before: seq<Message>, after: seq<Message>)
    requires Continues(before, after)
    ensures Named(limit, th, before) ==> Named(limit, th, after)
    ensures forall r :: ReportNamed(limit, r, before) ==> ReportNamed(limit, r, after)
  {
  }

  lemma StepKeepsNamed(maxAttempts: nat, s: State, l: Label)
    requires Enabled(s, l) && NamedInv(Attempts16(maxAttempts), s)
    ensures NamedInv(Attempts16(maxAttempts), Next(maxAttempts, s, l))
  {
    var n, limit := Next(maxAttempts, s, l), Attempts16(maxAttempts);
    if l.Run? {
      ActKeepsNamed(maxAttempts, s, l.t, l.choice);
    }
    assert Continues(s.msgs, n.msgs);
    forall th ensures Named(limit, th, s.msgs) ==> Named(limit, th, n.msgs) {
      ContinuesNamed(limit, th, s.msgs, n.msgs);
    }
    ContinuesNamed(limit, Idle, s.msgs, n.msgs);
  }

  lemma {:induction false} NamedOverRuns(maxAttempts: nat, s: State, ls: seq<Label>)
    requires EnabledRun(maxAttempts, s, ls) && NamedInv(Attempts16(maxAttempts), s)
    ensures NamedInv(Attempts16(maxAttempts), RunOf(maxAttempts, s, ls))
    decreases |ls|
  {
    if ls != [] {
      StepKeepsNamed(maxAttempts, s, ls[0]);
      NamedOverRuns(maxAttempts, Next(maxAttempts, s, ls[0]), ls[1..]);
    }
  }

  // Every message of every run, redeliveries of unanswered ones included: no more
  // reports than deliveries nor than MaxAttempts + 1, none of a message that does
  // not parse, and each either "Judge started" or, once the deliveries have reached
  // MaxAttempts, a Done failure of its solution.
  lemma ReportsBounded(maxAttempts: nat, s: State, ls: seq<Label>, m: nat)
    requires Initial(s) && EnabledRun(maxAttempts, s, ls)
    requires m < |RunOf(maxAttempts, s, ls).msgs|
    ensures var e := RunOf(maxAttempts, s, ls); var msg := e.msgs[m];
            && Sum(e.log, MessageReports(m)) <= msg.deliveries
            && (msg.body.Garbage? ==> Sum(e.log, MessageReports(m)) == 0)
            && (Attempts16(maxAttempts) < 0xFFFE ==>
                  && Sum(e.log, MessageReports(m)) <= Attempts16(maxAttempts) + 1
                  && msg.deliveries <= Attempts16(maxAttempts) + 2
                  && Sum(e.log, Finishes(m)) == Done(msg))
            && (forall r, ok :: Published(r, ok) in e.log && r.origin == FromMessage(m) ==>
                  ReportOk(r, msg) && (!r.success ==> msg.deliveries >= Attempts16(maxAttempts)))
  {
    var e := RunOf(maxAttempts, s, ls);
    InitialPotential(maxAttempts, s, m);
    PotentialOverRuns(maxAttempts, s, ls, m);
    NamedOverRuns(maxAttempts, s, ls);
    forall r, ok | Published(r, ok) in e.log && r.origin == FromMessage(m)
      ensures ReportOk(r, e.msgs[m]) && (!r.success ==> e.msgs[m].deliveries >= Attempts16(maxAttempts))
    {
      assert ReportNamed(Attempts16(maxAttempts), Published(r, ok).report, e.msgs);
    }
    if e.msgs[m].body.Garbage? {
      forall x | x in e.log ensures MessageReports(m)(x) == 0 {
        assert x.Published? ==> ReportNamed(Attempts16(maxAttempts), x.report, e.msgs);
      }
      SumZero(e.log, MessageReports(m));
    }
  }

  // ---------- when one report is all there can be ----------

  predicate OnlyGoroutines(ls: seq<Label>) {
    forall l :: l in ls ==> l.Run?
  }

  // a choice by which a goroutine that may report goes on towards its report
  function Towards(th: Thread): Choice {
    match th
    case Received(_, _) => Go
    case Working(_, _, _) => Succeeds(true)
    case Publishing(_) => Succeeds(true)
    case _ => Redis(Applied)
  }

  lemma TowardsKeepsPotential(maxAttempts: nat, s: State, t: nat, m: nat)
    requires Valid(s) && t < |s.threads| && Reporting(maxAttempts, s, m)(s.threads[t]) == 1
    ensures var c := Towards(s.threads[t]);
            && Enabled(s, Run(t, c))
            && var e := Act(maxAttempts, s.store, s.msgs, s.threads[t], c);
            && Of(MessageReports(m), e.event) + Reporting(maxAttempts, s, m)(e.thread) == 1 && e.spawn == None
            && Stage(m)(e.thread) < Stage(m)(s.threads[t])
  {
    assert ThreadOk(s.threads[t], |s.msgs|);
  }

  // Every report that may come can come, by steps of the goroutines alone.
  lemma {:induction false} PotentialIsReached(maxAttempts: nat, s: State, m: nat) returns (ls: seq<Label>)
    requires Valid(s)
    ensures OnlyGoroutines(ls) && EnabledRun(maxAttempts, s, ls)
    ensures Sum(RunOf(maxAttempts, s, ls).log, MessageReports(m)) == Potential(maxAttempts, s, m)
    decreases Sum(s.threads, Stage(m))
  {
    var f := Reporting(maxAttempts, s, m);
    SumZero(s.threads, f);
    if th :| th in s.threads && f(th) != 0 {
      var t: nat :| t < |s.threads| && s.threads[t] == th;
      var l := Run(t, Towards(th));
      TowardsKeepsPotential(maxAttempts, s, t, m);
      RunSpendsPotential(maxAttempts, s, t, Towards(th), m);
      SumsAfterRun(maxAttempts, s, t, Towards(th), m);
      StepKeepsValid(maxAttempts, s, l);
      var rest := PotentialIsReached(maxAttempts, Next(maxAttempts, s, l), m);
      ls := [l] + rest;
      assert ls[1..] == rest;
    } else {
      ls := [];
    }
  }

  lemma {:induction false} GoroutinesSpendPotential(maxAttempts: nat, s: State, ls: seq<Label>, m: nat)
    requires OnlyGoroutines(ls) && EnabledRun(maxAttempts, s, ls) && Valid(s)
    ensures Sum(RunOf(maxAttempts, s, ls).log, MessageReports(m)) <= Potential(maxAttempts, s, m)
    decreases |ls|
  {
    if ls != [] {
      assert ls[0] in ls;
      StepKeepsValid(maxAttempts, s, ls[0]);
      StepChangesPotential(maxAttempts, s, ls[0], m);
      GoroutinesSpendPotential(maxAttempts, Next(maxAttempts, s, ls[0]), ls[1..], m);
    }
  }

  ghost predicate SecondReportPossible(maxAttempts: nat, s: State, m: nat) {
    exists ls :: OnlyGoroutines(ls) && EnabledRun(maxAttempts, s, ls)
                 && Sum(RunOf(maxAttempts, s, ls).log, MessageReports(m)) >= 2
  }

  // The potential is exact: without another delivery there can be a second report
  // exactly when it has reached two.
  lemma SecondReportPossibleIff(maxAttempts: nat, s: State, m: nat)
    requires Valid(s)
    ensures SecondReportPossible(maxAttempts, s, m) <==> Potential(maxAttempts, s, m) >= 2
  {
    var ls := PotentialIsReached(maxAttempts, s, m);
    if SecondReportPossible(maxAttempts, s, m) {
      var more :| OnlyGoroutines(more) && EnabledRun(maxAttempts, s, more)
                  && Sum(RunOf(maxAttempts, s, more).log, MessageReports(m)) >= 2;
      GoroutinesSpendPotential(maxAttempts, s, more, m);
    }
  }

  // In every state of a run: no second report without another delivery.
  ghost predicate NeverSecondReport(maxAttempts: nat, s: State, ls: seq<Label>, m: nat)
    requires EnabledRun(maxAttempts, s, ls)
    decreases |ls|
  {
    && !SecondReportPossible(maxAttempts, s, m)
    && (ls == [] || NeverSecondReport(maxAttempts, Next(maxAttempts, s, ls[0]), ls[1..], m))
  }

  // Every delivery that reaches a handler finds no report made and none to come.
  predicate HandedUnreported(maxAttempts: nat, s: State, ls: seq<Label>, m: nat)
    requires EnabledRun(maxAttempts, s, ls)
    decreases |ls|
  {
    ls == []
    || ((Handed(maxAttempts, s, ls[0], m) && Parsable(s, m) ==> Potential(maxAttempts, s, m) == 0)
        && HandedUnreported(maxAttempts, Next(maxAttempts, s, ls[0]), ls[1..], m))
  }

  // A message keeps to one report, made or to come, in every state of a run
  // exactly when every delivery of it finds none made and none to come.
  lemma {:induction false} OneReportOverRunsIff(maxAttempts: nat, s: State, ls: seq<Label>, m: nat)
    requires EnabledRun(maxAttempts, s, ls) && Valid(s) && !SecondReportPossible(maxAttempts, s, m)
    ensures NeverSecondReport(maxAttempts, s, ls, m) <==> HandedUnreported(maxAttempts, s, ls, m)
    decreases |ls|
  {
    if ls != [] {
      var n := Next(maxAttempts, s, ls[0]);
      StepKeepsValid(maxAttempts, s, ls[0]);
      StepChangesPotential(maxAttempts, s, ls[0], m);
      SecondReportPossibleIff(maxAttempts, s, m);
      SecondReportPossibleIff(maxAttempts, n, m);
      if !SecondReportPossible(maxAttempts, n, m) {
        OneReportOverRunsIff(maxAttempts, n, ls[1..], m);
      }
    }
  }

  lemma OneMore(maxAttempts: nat, s: State, ls: seq<Label>, l: Label) returns (more: seq<Label>)
    requires EnabledRun(maxAttempts, s, ls) && Enabled(RunOf(maxAttempts, s, ls), l)
    ensures more == ls + [l] && EnabledRun(maxAttempts, s, more)
    ensures RunOf(maxAttempts, s, more) == Next(maxAttempts, RunOf(maxAttempts, s, ls), l)
  {
    RunSnoc(maxAttempts, s, ls, l);
    more := ls + [l];
  }

  lemma DeliveredTwice(s: State, k: Key) returns (ls: seq<Label>)
    requires s == State(map[], [Idle, Idle], [], [])
    ensures EnabledRun(3, s, ls)
    ensures RunOf(3, s, ls) == State(map[], [Received(0, 1), Received(0, 2)], [Message(Request(k), 2, Out)], [])
  {
    ls := OneMore(3, s, [], Submit(Request(k)));
    ls := OneMore(3, s, ls, Deliver(0, 0));
    ls := OneMore(3, s, ls, Timeout(0));
    ls := OneMore(3, s, ls, Deliver(1, 0));
  }

  lemma JudgedOnceOfTwice(s: State, before: seq<Label>, k: Key) returns (ls: seq<Label>)
    requires EnabledRun(3, s, before)
    requires RunOf(3, s, before) == State(map[], [Received(0, 1), Received(0, 2)], [Message(Request(k), 2, Out)], [])
    ensures EnabledRun(3, s, ls) && RunOf(3, s, ls).threads == [Working(0, 1, k), Publishing(Started(0, k))]
    ensures |RunOf(3, s, ls).msgs| == 1
    ensures RunOf(3, s, ls).log == [Incremented(Handler, k, 1, true), Incremented(Handler, k, 2, true)]
  {
    ls := OneMore(3, s, before, Run(0, Go));
    ls := OneMore(3, s, ls, Run(1, Go));
    assert RunOf(3, s, ls).threads == [Locking(0, 1, k), Locking(0, 2, k)];
    ls := OneMore(3, s, ls, Run(0, Redis(Applied)));
    ls := OneMore(3, s, ls, Run(1, Redis(Applied)));
  }

  lemma OneReports(s: State, before: seq<Label>, t: nat, k: Key) returns (ls: seq<Label>)
    requires EnabledRun(3, s, before) && |RunOf(3, s, before).msgs| == 1
    requires t < |RunOf(3, s, before).threads| && RunOf(3, s, before).threads[t] == Publishing(Started(0, k))
    ensures EnabledRun(3, s, ls) && |RunOf(3, s, ls).msgs| == 1
    ensures RunOf(3, s, ls).threads == RunOf(3, s, before).threads[t := Responding(0, true)]
    ensures Sum(RunOf(3, s, ls).log, MessageReports(0)) == Sum(RunOf(3, s, before).log, MessageReports(0)) + 1
  {
    ls := OneMore(3, s, before, Run(t, Succeeds(true)));
    SumSnoc(RunOf(3, s, before).log, Published(Started(0, k), true), MessageReports(0));
  }

  lemma BothReport(s: State, before: seq<Label>, k: Key) returns (ls: seq<Label>)
    requires EnabledRun(3, s, before)
    requires RunOf(3, s, before).threads == [Working(0, 1, k), Publishing(Started(0, k))]
    requires |RunOf(3, s, before).msgs| == 1
    requires RunOf(3, s, before).log == [Incremented(Handler, k, 1, true), Incremented(Handler, k, 2, true)]
    ensures EnabledRun(3, s, ls) && Sum(RunOf(3, s, ls).log, MessageReports(0)) == 2
  {
    ls := OneMore(3, s, before, Run(0, Succeeds(true)));
    SumZero(RunOf(3, s, ls).log, MessageReports(0));
    ls := OneReports(s, ls, 0, k);
    ls := OneReports(s, ls, 1, k);
  }

  // Redelivery can break it: a delivery that times out while it is
  // being judged is delivered again, and both report.
  lemma RedeliveryReportsTwice(k: Key)
    ensures exists s, ls :: Initial(s) && EnabledRun(3, s, ls) && Sum(RunOf(3, s, ls).log, MessageReports(0)) == 2
  {
    var s := State(map[], [Idle, Idle], [], []);
    var ls := DeliveredTwice(s, k);
    ls := JudgedOnceOfTwice(s, ls, k);
    ls := BothReport(s, ls, k);
  }

  // ---------- where the counters wrap ----------

  // The bounds need MaxAttempts below the wrap.  From 65535 (in 16 bits) a message
  // that does not parse is requeued for good; from 65534 one that is never
  // answered in time is delivered for good.
  lemma {:induction false} DeliveredForever(maxAttempts: nat, n: nat, timed: bool) returns (s: State, ls: seq<Label>)
    requires Attempts16(maxAttempts) >= if timed then 0xFFFE else 0xFFFF
    ensures Initial(s) && EnabledRun(maxAttempts, s, ls) && (timed || forall l :: l in ls ==> !l.Timeout?)
    ensures RunOf(maxAttempts, s, ls).threads == [Idle]
    ensures RunOf(maxAttempts, s, ls).msgs == [Message(Garbage, n, Queued)]
  {
    if n == 0 {
      s := State(map[], [Idle], [], []);
      ls := OneMore(maxAttempts, s, [], Submit(Garbage));
    } else {
      s, ls := DeliveredForever(maxAttempts, n - 1, timed);
      ls := OneMore(maxAttempts, s, ls, Deliver(0, 0));
      if timed {
        ls := OneMore(maxAttempts, s, ls, Timeout(0));
      }
      ls := OneMore(maxAttempts, s, ls, Run(0, Go));
      ls := OneMore(maxAttempts, s, ls, Run(0, Go));
    }
  }
}
