/**
The judger's code (judge/server/judger.go) over shared state that other
goroutines change whenever it pauses between two commands.  Every method is a
stretch of a run of module Judge, so what is proved of those runs holds of the
state that this code leaves behind.
*/
module Judger {
  import opened Wrappers
  import opened Tally
  import opened Judge
  import opened JudgeLedgers
  import opened JudgeLocks

  predicate Touches(l: Label, t: nat) {
    match l
    case Deliver(x, _) => x == t
    case Notify(x, _, _, _) => x == t
    case Run(x, _) => x == t
    case _ => false
  }

  function Noticing(l: Label, t: nat): seq<(Key, string)> {
    if l.Notify? && l.t == t then [(l.solution, l.etag)] else []
  }

  // the notifications that goroutine t has taken up in a run, in order
  function Notices(ls: seq<Label>, t: nat): seq<(Key, string)> {
    if ls == [] then []
    else Notices(ls[..|ls| - 1], t) + Noticing(ls[|ls| - 1], t)
  }

  // One notification record and how the commands that handle it end.
  datatype Notice = Notice(
    solution: Key, etag: string, take: Reach, fetch: Fetch, drop: Reach, sent: bool, clear: Reach)

  function Objects(notices: seq<Notice>): seq<(Key, string)> {
    if notices == [] then []
    else
      var n := notices[|notices| - 1];
      Objects(notices[..|notices| - 1]) + [(n.solution, n.etag)]
  }

  lemma ObjectsOfPrefix(notices: seq<Notice>, i: nat)
    requires i < |notices|
    ensures Objects(notices[..i + 1]) == Objects(notices[..i]) + [(notices[i].solution, notices[i].etag)]
    ensures i + 1 == |notices| ==> notices[..i + 1] == notices
  {
    assert notices[..i + 1][..i] == notices[..i];
  }

  // Between before and after one report was published, and, if it was sent and was
  // the last one, the DEL of its solution; nothing else was said.
  ghost predicate Tells(before: seq<Event>, after: seq<Event>, r: Report, sent: bool) {
    if sent && r.done
    then exists hit :: after == before + [Published(r, sent), Deleted(Reporter, r.solution, hit, false)]
    else after == before + [Published(r, sent)]
  }

  // A result notification: the counter, and for the first to take the object the
  // report of the verdict found in it, a final failure of no solution if it does not
  // parse, or the counter given back if it cannot be had.
  ghost predicate ResultSaid(before: seq<Event>, after: seq<Event>, n: Notice, got: nat) {
    var key, origin := n.solution + n.etag, FromResult(n.solution, n.etag);
    var claimed := before + [Incremented(ResultListener, key, got, n.take == Applied)];
    if n.take != Applied || got != 1 then after == claimed
    else match n.fetch
      case Verdict(_, done) => Tells(claimed, after, Report(origin, n.solution, true, done), n.sent)
      case Invalid => Tells(claimed, after, Report(origin, "", false, true), n.sent)
      case _ => exists hit :: after == claimed + [Deleted(ResultListener, key, hit, true)]
  }

  ghost predicate ResultTaken(before: seq<Event>, after: seq<Event>, n: Notice) {
    exists got :: ResultSaid(before, after, n, got)
  }

  // What a run-command report calls for once it has been read: a watchdog, the
  // report of a failure, or nothing.
  ghost predicate CommandRead(claimed: seq<Event>, after: seq<Event>, n: Notice) {
    var key := n.solution + n.etag;
    match n.fetch
    case Verdict(true, _) => after == claimed + [Completed(CommandListener, key, Some(n.solution))]
    case Verdict(false, _) =>
      Tells(claimed + [Completed(CommandListener, key, None)], after,
            Report(FromCommand(n.solution, n.etag), n.solution, false, true), n.sent)
    case Missing => exists hit :: after == claimed + [Deleted(CommandListener, key, hit, true)]
    case _ => after == claimed + [Completed(CommandListener, key, None)]
  }

  ghost predicate CommandSaid(before: seq<Event>, after: seq<Event>, n: Notice, got: nat) {
    var claimed := before + [Incremented(CommandListener, n.solution + n.etag, got, n.take == Applied)];
    if n.take != Applied || got != 1 then after == claimed else CommandRead(claimed, after, n)
  }

  ghost predicate CommandTaken(before: seq<Event>, after: seq<Event>, n: Notice) {
    exists got :: CommandSaid(before, after, n, got)
  }

  // the DEL of a watchdog and its report
  ghost predicate Killed(before: seq<Event>, after: seq<Event>, k: Key, sent: bool, hit: bool) {
    Tells(before + [Deleted(Watchdog, k, hit, false)], after, Report(FromWatchdog(k), k, false, true), sent)
  }

  // A watchdog's probe and, unless it found no key, its DEL and its report.
  ghost predicate WatchSaid(before: seq<Event>, after: seq<Event>, k: Key, probe: Reach, sent: bool, got: nat) {
    var probed := before + [Incremented(Watchdog, k, got, probe == Applied)];
    if probe == Applied && got == 1 then after == probed else exists hit :: Killed(probed, after, k, sent, hit)
  }

  class Judgers {
    // the Redis counters, the judge topic, what has happened, and where every
    // goroutine stands
    var store: map<Key, nat>
    var msgs: seq<Message>
    var log: seq<Event>
    var threads: seq<Thread>
    var pauses: nat
    const maxAttempts: nat
    // what the other goroutines try to do in each pause
    const others: nat -> seq<Label>
    ghost const start: State
    ghost var trace: seq<Label>
    // the part of the log that this code has written
    ghost var said: seq<Event>

    function Now(): State
      reads this
    {
      State(store, threads, msgs, log)
    }

    ghost predicate Valid()
      reads this
    {
      && EnabledRun(maxAttempts, start, trace) && Now() == RunOf(maxAttempts, start, trace)
      && Judge.Valid(Now())
      && forall e :: e in said ==> e in log
    }

    constructor (goroutines: nat, maxAttempts: nat, others: nat -> seq<Label>)
      ensures Valid() && Initial(start) && Now() == start && |threads| == goroutines
      ensures this.maxAttempts == maxAttempts && this.others == others
    {
      this.maxAttempts, this.others := maxAttempts, others;
      store, msgs, log, pauses := map[], [], [], 0;
      threads := seq(goroutines, _ => Idle);
      start := State(map[], seq(goroutines, _ => Idle), [], []);
      trace, said := [], [];
    }

    // goroutine t stands at th, and the state is one that a run reaches
    ghost predicate At(t: nat, th: Thread)
      reads this
    {
      Valid() && t < |threads| && threads[t] == th
    }

    // The run has gone on, without a new notification for goroutine t.
    twostate predicate Onward(t: nat)
      reads this
    {
      old(trace) <= trace && Notices(trace, t) == Notices(old(trace), t)
    }

    // A step of the system has been taken.
    ghost method Took(before: State, l: Label)
      requires EnabledRun(maxAttempts, start, trace) && before == RunOf(maxAttempts, start, trace)
      requires Judge.Valid(before) && Enabled(before, l) && Now() == Next(maxAttempts, before, l)
      requires forall e :: e in said ==> e in log
      modifies this`trace
      ensures Valid() && trace == old(trace) + [l]
      ensures forall t :: Notices(trace, t) == Notices(old(trace), t) + Noticing(l, t)
    {
      RunSnoc(maxAttempts, start, trace, l);
      StepKeepsValid(maxAttempts, before, l);
      trace := trace + [l];
    }

    // A step of another goroutine, NSQ or Redis, if it is possible now.
    method Other(t: nat, l: Label)
      requires Valid() && t < |threads|
      modifies this
      ensures At(t, old(threads[t])) && Onward(t) && pauses == old(pauses) && said == old(said)
      ensures |msgs| >= old(|msgs|) && |threads| >= old(|threads|) && old(log) <= log
    {
      if Enabled(Now(), l) && !Touches(l, t) {
        ghost var before := Now();
        var next := Next(maxAttempts, Now(), l);
        StepKeepsValid(maxAttempts, Now(), l);
        store, threads, msgs, log := next.store, next.threads, next.msgs, next.log;
        Took(before, l);
      }
    }

    // The other goroutines go on for a while.
    method Pause(t: nat)
      requires Valid() && t < |threads|
      modifies this
      ensures At(t, old(threads[t])) && Onward(t) && said == old(said)
      ensures |msgs| >= old(|msgs|) && |threads| >= old(|threads|) && old(log) <= log
    {
      var ls := others(pauses);
      pauses := pauses + 1;
      for k := 0 to |ls|
        invariant At(t, old(threads[t])) && Onward(t) && said == old(said)
        invariant |msgs| >= old(|msgs|) && |threads| >= old(|threads|) && old(log) <= log
      {
        Other(t, ls[k]);
      }
    }

    ghost predicate Does(t: nat, c: Choice, e: Effect)
      reads this
    {
      Valid() && Enabled(Now(), Run(t, c)) && Act(maxAttempts, store, msgs, threads[t], c) == e
    }

    // A step of the code that goes on at th and at most records an event.
    method Step(t: nat, ghost c: Choice, th: Thread, event: Option<Event>)
      requires Does(t, c, Effect(th, None, store, msgs, event))
      modifies this`threads, this`log, this`trace, this`said
      ensures At(t, th) && Onward(t) && |threads| == old(|threads|) && log == Appended(old(log), event)
      ensures said == Appended(old(said), event)
    {
      ghost var before := Now();
      log, said := Appended(log, event), Appended(said, event);
      threads := threads[t := th];
      Took(before, Run(t, c));
    }

    // ---------- the commands ----------

    method CheckIfRequestExists(role: Role, k: Key, reach: Reach) returns (present: bool, err: bool)
      modifies this`store, this`log
      ensures err <==> reach != Applied
      ensures present <==> err || Get(old(store), k) > 0
      ensures store == if reach == NotApplied then old(store) else old(store)[k := Get(old(store), k) + 1]
      ensures log == old(log)
                     + [Incremented(role, k, if reach == NotApplied then 0 else Get(old(store), k) + 1, !err)]
    {
      if reach == NotApplied {
        log := log + [Incremented(role, k, 0, false)];
        return true, true;
      }
      var n := Get(store, k) + 1;
      store := store[k := n];
      log := log + [Incremented(role, k, n, reach == Applied)];
      if reach == ReplyLost {
        return true, true;
      }
      return n != 1, false;
    }

    // own: by a goroutine that has taken the key
    method SetRequestNotExist(role: Role, k: Key, own: bool, reach: Reach) returns (err: bool)
      modifies this`store, this`log
      ensures err <==> reach != Applied
      ensures store == if reach == NotApplied then old(store) else old(store) - {k}
      ensures log == old(log) + [Deleted(role, k, k in old(store) && reach != NotApplied, own)]
    {
      log := log + [Deleted(role, k, k in store && reach != NotApplied, own)];
      if reach != NotApplied {
        store := store - {k};
      }
      return reach != Applied;
    }

    // INCR as a step: goroutine t goes on at first, at rest or, after an error, at failed.
    method Take(t: nat, role: Role, k: Key, reach: Reach, first: Thread, rest: Thread, failed: Thread)
      returns (present: bool, err: bool, ghost got: nat)
      requires Does(t, Redis(reach), Incr(store, msgs, role, k, reach, first, rest, failed))
      modifies this`store, this`log, this`threads, this`trace, this`said
      ensures At(t, if err then failed else if present then rest else first)
      ensures Onward(t) && |threads| == old(|threads|)
      ensures (err <==> reach != Applied) && (present <==> err || got > 1)
      ensures got == if reach == NotApplied then 0 else Get(old(store), k) + 1
      ensures said == old(said) + [Incremented(role, k, got, !err)]
    {
      ghost var before := Now();
      got := if reach == NotApplied then 0 else Get(store, k) + 1;
      present, err := CheckIfRequestExists(role, k, reach);
      said := said + [Incremented(role, k, got, !err)];
      threads := threads[t := if err then failed else if present then rest else first];
      Took(before, Run(t, Redis(reach)));
    }

    // DEL as a step: goroutine t goes on at next.
    method Release(t: nat, role: Role, k: Key, own: bool, reach: Reach, next: Thread) returns (err: bool)
      requires Does(t, Redis(reach), Del(store, msgs, role, k, own, reach, next))
      modifies this`store, this`log, this`threads, this`trace, this`said
      ensures At(t, next) && Onward(t) && |threads| == old(|threads|)
      ensures err <==> reach != Applied
      ensures store == if reach == NotApplied then old(store) else old(store) - {k}
      ensures log == old(log) + [Deleted(role, k, k in old(store) && reach != NotApplied, own)]
      ensures said == old(said) + [Deleted(role, k, k in old(store) && reach != NotApplied, own)]
    {
      ghost var before := Now();
      said := said + [Deleted(role, k, k in store && reach != NotApplied, own)];
      err := SetRequestNotExist(role, k, own, reach);
      threads := threads[t := next];
      Took(before, Run(t, Redis(reach)));
    }

    // Publish, and release the solution when the report is the last one.
    method PublishToReport(t: nat, r: Report, sent: bool, clear: Reach) returns (err: bool)
      requires At(t, Publishing(r)) && ThreadOk(Publishing(r), |msgs|)
      modifies this
      ensures At(t, AfterReport(r)) && Onward(t) && |msgs| >= old(|msgs|) && |threads| >= old(|threads|)
      ensures err <==> !sent || (r.done && clear != Applied)
      ensures old(log) + [Published(r, sent)] <= log
      ensures if sent && r.done
              then (exists hit :: log[|log| - 1] == Deleted(Reporter, r.solution, hit, false))
                   && (clear != NotApplied ==> r.solution !in store)
              else log == old(log) + [Published(r, sent)] && store == old(store)
      ensures Tells(old(said), said, r, sent)
    {
      Step(t, Succeeds(sent), if sent && r.done then Clearing(r) else AfterReport(r), Some(Published(r, sent)));
      if !sent {
        return true;
      }
      err := false;
      if r.done {
        Pause(t);
        err := Release(t, Reporter, r.solution, false, clear, AfterReport(r));
      }
    }

    // Finish or requeue; nothing happens when the delivery has timed out.
    method Respond(t: nat, m: nat, finish: bool)
      requires At(t, Responding(m, finish)) && m < |msgs|
      modifies this
      ensures At(t, Idle) && Onward(t)
      ensures if old(msgs[m].status) == Out
              then msgs == old(msgs)[m := old(msgs[m]).(status := if finish then Finished else Queued)]
                   && said == old(said) + [Responded(m, finish)]
              else msgs == old(msgs) && said == old(said)
    {
      ghost var before := Now();
      if msgs[m].status == Out {
        msgs := msgs[m := msgs[m].(status := if finish then Finished else Queued)];
        log, said := log + [Responded(m, finish)], said + [Responded(m, finish)];
      }
      threads := threads[t := Idle];
      Took(before, Run(t, Go));
    }

    // ---------- messages ----------

    // From the problem data to the command that the bridge is given.
    method Dispatch(t: nat, m: nat, attempts: nat, k: Key, judged: bool) returns (err: bool)
      requires At(t, Working(m, attempts, k)) && m < |msgs|
      modifies this`threads, this`log, this`trace, this`said
      ensures At(t, if judged then Publishing(Started(m, k)) else Failing(m, attempts, k, true)) && Onward(t)
      ensures err <==> !judged
      ensures said == old(said) + if judged then [Completed(Handler, k, None)] else []
    {
      if !judged {
        Step(t, Succeeds(false), Failing(m, attempts, k, true), None);
        return true;
      }
      Step(t, Succeeds(true), Publishing(Started(m, k)), Some(Completed(Handler, k, None)));
      return false;
    }

    // take: the INCR; judged: the problem data, the bridge and the object store
    method ProcessJudge(t: nat, m: nat, attempts: nat, k: Key, take: Reach, judged: bool)
      returns (err: bool, ghost got: nat)
      requires At(t, Locking(m, attempts, k)) && m < |msgs|
      modifies this
      ensures Valid() && t < |threads| && Onward(t) && |msgs| >= old(|msgs|)
      ensures if err then threads[t].Failing? && threads[t] == Failing(m, attempts, k, threads[t].held)
              else threads[t] == Publishing(Started(m, k))
      ensures err <==> take != Applied || (got == 1 && !judged)
      ensures take == Applied ==> got > 0
      ensures err ==> (threads[t].held <==> take == Applied)
      ensures var locked := old(said) + [Incremented(Handler, k, got, take == Applied)];
              said == if !err && got == 1 then locked + [Completed(Handler, k, None)] else locked
    {
      var present;
      present, err, got := Take(t, Handler, k, take,
                           Working(m, attempts, k), Publishing(Started(m, k)), Failing(m, attempts, k, false));
      if present {
        return;
      }
      Pause(t);
      err := Dispatch(t, m, attempts, k, judged);
    }

    // The lock was given back and, on the last attempt, the failure reported.
    ghost predicate Freed(before: seq<Event>, after: seq<Event>, m: nat, k: Key, own: bool, last: bool, sent: bool,
                          hit: bool)
    {
      var freed := before + [Deleted(Handler, k, hit, own)];
      if last then Tells(freed, after, Report(FromMessage(m), k, false, true), sent) else after == freed
    }

    ghost predicate GaveUp(before: seq<Event>, after: seq<Event>, m: nat, k: Key, own: bool, last: bool, sent: bool) {
      exists hit :: Freed(before, after, m, k, own, last, sent, hit)
    }

    // What trying to judge says: the lock; then, unless it was free and the dispatch
    // failed or the lock gave no answer, the dispatch if it was free, and the start;
    // else the lock given back, and on the last attempt the failure.
    ghost predicate Tried(before: seq<Event>, after: seq<Event>, m: nat, attempts: nat, k: Key,
                          take: Reach, judged: bool, sent: bool, got: nat, finish: bool)
    {
      var locked := before + [Incremented(Handler, k, got, take == Applied)];
      if take == Applied && got > 1 then
        finish && Tells(locked, after, Report(FromMessage(m), k, true, false), sent)
      else if take == Applied && judged then
        finish && Tells(locked + [Completed(Handler, k, None)], after, Report(FromMessage(m), k, true, false), sent)
      else
        && finish == (attempts == Attempts16(maxAttempts))
        && GaveUp(locked, after, m, k, take == Applied, finish, sent)
    }

    method ReportFailure(t: nat, m: nat, k: Key, sent: bool, clear: Reach)
      requires At(t, Publishing(Failure(m, k))) && m < |msgs|
      modifies this
      ensures At(t, Responding(m, true)) && Onward(t) && m < |msgs|
      ensures Tells(old(said), said, Report(FromMessage(m), k, false, true), sent)
    {
      Pause(t);
      var lost := PublishToReport(t, Failure(m, k), sent, clear);
    }

    // After an error: release the solution, and report it on the last attempt.
    method GiveUp(t: nat, m: nat, attempts: nat, k: Key, drop: Reach, sent: bool, clear: Reach) returns (finish: bool)
      requires Valid() && t < |threads| && m < |msgs|
      requires threads[t].Failing? && threads[t] == Failing(m, attempts, k, threads[t].held)
      modifies this
      ensures At(t, Responding(m, finish)) && Onward(t) && m < |msgs|
      ensures finish <==> attempts == Attempts16(maxAttempts)
      ensures GaveUp(old(said), said, m, k, old(threads[t].held), finish, sent)
    {
      finish := attempts == Attempts16(maxAttempts);
      ghost var hit := k in store && drop != NotApplied;
      var errs := Release(t, Handler, k, threads[t].held, drop,
                          if finish then Publishing(Failure(m, k)) else Responding(m, false));
      if finish {
        ReportFailure(t, m, k, sent, clear);
      }
      assert Freed(old(said), said, m, k, old(threads[t].held), finish, sent, hit);
    }

    // a message that may be judged
    method JudgeOnce(t: nat, m: nat, attempts: nat, k: Key,
                     take: Reach, judged: bool, drop: Reach, sent: bool, clear: Reach)
      returns (finish: bool, ghost got: nat)
      requires At(t, Locking(m, attempts, k)) && m < |msgs| && attempts <= Attempts16(maxAttempts)
      modifies this
      ensures At(t, Responding(m, finish)) && Onward(t) && m < |msgs|
      ensures Tried(old(said), said, m, attempts, k, take, judged, sent, got, finish)
    {
      var err;
      err, got := ProcessJudge(t, m, attempts, k, take, judged);
      Pause(t);
      if !err {
        finish := true;
        var lost := PublishToReport(t, Started(m, k), sent, clear);
        return;
      }
      ghost var locked := said;
      finish := GiveUp(t, m, attempts, k, drop, sent, clear);
      assert GaveUp(locked, said, m, k, take == Applied, finish, sent);
    }

    // a message that parses
    method HandleRequest(t: nat, m: nat, attempts: nat, k: Key,
                         take: Reach, judged: bool, drop: Reach, sent: bool, clear: Reach)
      returns (finish: bool)
      requires At(t, Received(m, attempts)) && m < |msgs| && msgs[m].body == Request(k)
      modifies this
      ensures At(t, Responding(m, finish)) && Onward(t) && m < |msgs|
      ensures attempts > Attempts16(maxAttempts) ==>
                finish && Tells(old(said), said, Report(FromMessage(m), k, false, true), sent)
      ensures attempts <= Attempts16(maxAttempts) ==>
                exists got :: Tried(old(said), said, m, attempts, k, take, judged, sent, got, finish)
    {
      if attempts > Attempts16(maxAttempts) {
        Step(t, Go, Publishing(Failure(m, k)), None);
        ReportFailure(t, m, k, sent, clear);
        return true;
      }
      Step(t, Go, Locking(m, attempts, k), None);
      Pause(t);
      ghost var got;
      finish, got := JudgeOnce(t, m, attempts, k, take, judged, drop, sent, clear);
    }

    // Whatever the others do and however the commands end, the handler takes the
    // delivery to its answer by steps of the system.
    method HandleMessage(t: nat, m: nat, attempts: nat,
                         take: Reach, judged: bool, drop: Reach, sent: bool, clear: Reach)
      returns (finish: bool, ghost told: seq<Event>)
      requires At(t, Received(m, attempts)) && m < |msgs|
      modifies this
      ensures At(t, Idle) && Onward(t)
      // one answer, unless the delivery has timed out
      ensures said == told || said == told + [Responded(m, finish)]
      ensures match old(msgs[m].body)
              case Garbage => told == old(said) && (finish <==> attempts > Attempts16(maxAttempts))
              case Request(k) =>
                if attempts > Attempts16(maxAttempts)
                then finish && Tells(old(said), told, Report(FromMessage(m), k, false, true), sent)
                else exists got :: Tried(old(said), told, m, attempts, k, take, judged, sent, got, finish)
    {
      if msgs[m].body.Garbage? {
        finish := attempts > Attempts16(maxAttempts);
        Step(t, Go, Responding(m, finish), None);
      } else {
        finish := HandleRequest(t, m, attempts, msgs[m].body.solution, take, judged, drop, sent, clear);
      }
      told := said;
      Pause(t);
      Respond(t, m, finish);
    }

    // ---------- notifications ----------

    // the next notification off the channel
    method TakeUp(t: nat, role: Role, n: Notice)
      requires At(t, Idle) && (role.ResultListener? || role.CommandListener?)
      modifies this`threads, this`trace
      ensures At(t, Noticed(role, n.solution, n.etag)) && old(trace) <= trace
      ensures Notices(trace, t) == Notices(old(trace), t) + [(n.solution, n.etag)]
    {
      ghost var before := Now();
      threads := threads[t := Noticed(role, n.solution, n.etag)];
      Took(before, Notify(t, role, n.solution, n.etag));
    }

    // The INCR on solution and ETag; first: nobody else has taken the object.
    method Claim(t: nat, role: Role, n: Notice) returns (first: bool, ghost got: nat)
      requires At(t, Idle) && (role.ResultListener? || role.CommandListener?)
      modifies this
      ensures At(t, if first then Reading(role, n.solution, n.etag) else Idle)
      ensures old(trace) <= trace && Notices(trace, t) == Notices(old(trace), t) + [(n.solution, n.etag)]
      ensures first <==> n.take == Applied && got == 1
      ensures said == old(said) + [Incremented(role, n.solution + n.etag, got, n.take == Applied)]
    {
      TakeUp(t, role, n);
      Pause(t);
      var key := n.solution + n.etag;
      var present, err;
      present, err, got := Take(t, role, key, n.take, Reading(role, n.solution, n.etag), Idle, Idle);
      first := !present;
    }

    method DropKey(t: nat, role: Role, key: Key, drop: Reach)
      requires At(t, Dropping(role, key))
      modifies this
      ensures At(t, Idle) && Onward(t)
      ensures drop != NotApplied ==> key !in store
      ensures exists hit :: said == old(said) + [Deleted(role, key, hit, true)]
    {
      var err := Release(t, role, key, true, drop, Idle);
    }

    // The object could not be read: forget that it was taken.
    method Drop(t: nat, role: Role, n: Notice)
      requires At(t, Reading(role, n.solution, n.etag))
      requires n.fetch == Missing || (n.fetch == Unreadable && role == ResultListener)
      modifies this
      ensures At(t, Idle) && Onward(t)
      ensures exists hit :: said == old(said) + [Deleted(role, n.solution + n.etag, hit, true)]
    {
      var key := n.solution + n.etag;
      Step(t, Fetched(n.fetch), Dropping(role, key), None);
      Pause(t);
      DropKey(t, role, key, n.drop);
    }

    method ReportResult(t: nat, n: Notice)
      requires At(t, Reading(ResultListener, n.solution, n.etag))
      requires n.fetch == Invalid || n.fetch.Verdict?
      modifies this
      ensures At(t, Idle) && Onward(t)
      ensures Tells(old(said), said,
                    if n.fetch == Invalid then Report(FromResult(n.solution, n.etag), "", false, true)
                    else Report(FromResult(n.solution, n.etag), n.solution, true, n.fetch.done), n.sent)
    {
      var report := if n.fetch == Invalid then Report(FromResult(n.solution, n.etag), "", false, true)
                    else Report(FromResult(n.solution, n.etag), n.solution, true, n.fetch.done);
      Step(t, Fetched(n.fetch), Publishing(report), None);
      Pause(t);
      var err := PublishToReport(t, report, n.sent, n.clear);
    }

    // one turn of the loop over result notifications
    method HandleResult(t: nat, n: Notice)
      requires At(t, Idle)
      modifies this
      ensures At(t, Idle) && old(trace) <= trace
      ensures Notices(trace, t) == Notices(old(trace), t) + [(n.solution, n.etag)]
      ensures ResultTaken(old(said), said, n)
    {
      Pause(t);
      var first;
      ghost var got;
      first, got := Claim(t, ResultListener, n);
      if !first {
        assert ResultSaid(old(said), said, n, got);
        return;
      }
      Pause(t);
      if n.fetch == Missing || n.fetch == Unreadable {
        Drop(t, ResultListener, n);
      } else {
        ReportResult(t, n);
      }
      assert ResultSaid(old(said), said, n, got);
    }

    // marks: what had been said when each notification was taken up, and in the end
    method ListenResults(t: nat, notices: seq<Notice>) returns (ghost marks: seq<seq<Event>>)
      requires At(t, Idle)
      modifies this
      ensures At(t, Idle) && old(trace) <= trace
      ensures Notices(trace, t) == Notices(old(trace), t) + Objects(notices)
      ensures |marks| == |notices| + 1 && marks[0] == old(said) && marks[|notices|] == said
      ensures forall i :: 0 <= i < |notices| ==> ResultTaken(marks[i], marks[i + 1], notices[i])
    {
      marks := [said];
      for i := 0 to |notices|
        invariant At(t, Idle) && old(trace) <= trace
        invariant Notices(trace, t) == Notices(old(trace), t) + Objects(notices[..i])
        invariant |marks| == i + 1 && marks[0] == old(said) && marks[i] == said
        invariant forall j :: 0 <= j < i ==> ResultTaken(marks[j], marks[j + 1], notices[j])
      {
        HandleResult(t, notices[i]);
        marks := marks + [said];
        ObjectsOfPrefix(notices, i);
      }
      assert notices[..|notices|] == notices;
    }

    // go func() { sleep; ... }
    method Spawn(t: nat, n: Notice)
      requires At(t, Reading(CommandListener, n.solution, n.etag))
      requires n.fetch.Verdict? && n.fetch.success
      modifies this
      ensures At(t, Idle) && Onward(t)
      ensures |threads| == old(|threads|) + 1 && threads[old(|threads|)] == Probing(n.solution)
      ensures said == old(said) + [Completed(CommandListener, n.solution + n.etag, Some(n.solution))]
    {
      ghost var before := Now();
      said := said + [Completed(CommandListener, n.solution + n.etag, Some(n.solution))];
      log := log + [Completed(CommandListener, n.solution + n.etag, Some(n.solution))];
      threads := threads[t := Idle] + [Probing(n.solution)];
      Took(before, Run(t, Fetched(n.fetch)));
    }

    method ReportCommand(t: nat, n: Notice)
      requires At(t, Reading(CommandListener, n.solution, n.etag)) && n.fetch != Missing
      modifies this
      ensures At(t, Idle) && Onward(t)
      ensures CommandRead(old(said), said, n)
    {
      var key := n.solution + n.etag;
      if !n.fetch.Verdict? {
        Step(t, Fetched(n.fetch), Idle, Some(Completed(CommandListener, key, None)));
      } else if !n.fetch.success {
        var report := Report(FromCommand(n.solution, n.etag), n.solution, false, true);
        Step(t, Fetched(n.fetch), Publishing(report), Some(Completed(CommandListener, key, None)));
        Pause(t);
        var err := PublishToReport(t, report, n.sent, n.clear);
      } else {
        Spawn(t, n);
      }
    }

    // one turn of the loop over run-command notifications
    method HandleCommand(t: nat, n: Notice)
      requires At(t, Idle)
      modifies this
      ensures At(t, Idle) && old(trace) <= trace
      ensures Notices(trace, t) == Notices(old(trace), t) + [(n.solution, n.etag)]
      ensures CommandTaken(old(said), said, n)
    {
      Pause(t);
      var first;
      ghost var got;
      first, got := Claim(t, CommandListener, n);
      if !first {
        assert CommandSaid(old(said), said, n, got);
        return;
      }
      Pause(t);
      if n.fetch == Missing {
        Drop(t, CommandListener, n);
      } else {
        ReportCommand(t, n);
      }
      assert CommandSaid(old(said), said, n, got);
    }

    method ListenCommands(t: nat, notices: seq<Notice>) returns (ghost marks: seq<seq<Event>>)
      requires At(t, Idle)
      modifies this
      ensures At(t, Idle) && old(trace) <= trace
      ensures Notices(trace, t) == Notices(old(trace), t) + Objects(notices)
      ensures |marks| == |notices| + 1 && marks[0] == old(said) && marks[|notices|] == said
      ensures forall i :: 0 <= i < |notices| ==> CommandTaken(marks[i], marks[i + 1], notices[i])
    {
      marks := [said];
      for i := 0 to |notices|
        invariant At(t, Idle) && old(trace) <= trace
        invariant Notices(trace, t) == Notices(old(trace), t) + Objects(notices[..i])
        invariant |marks| == i + 1 && marks[0] == old(said) && marks[i] == said
        invariant forall j :: 0 <= j < i ==> CommandTaken(marks[j], marks[j + 1], notices[j])
      {
        HandleCommand(t, notices[i]);
        marks := marks + [said];
        ObjectsOfPrefix(notices, i);
      }
      assert notices[..|notices|] == notices;
    }

    method Kill(t: nat, k: Key, drop: Reach, sent: bool, clear: Reach)
      requires At(t, Killing(k))
      modifies this
      ensures At(t, Idle) && Onward(t)
      ensures exists hit :: Killed(old(said), said, k, sent, hit)
    {
      var report := Report(FromWatchdog(k), k, false, true);
      Pause(t);
      ghost var hit := k in store && drop != NotApplied;
      var err := Release(t, Watchdog, k, false, drop, Publishing(report));
      Pause(t);
      err := PublishToReport(t, report, sent, clear);
      assert Killed(old(said), said, k, sent, hit);
    }

    // the delayed goroutine of a command that exited well
    method Watch(t: nat, k: Key, probe: Reach, drop: Reach, sent: bool, clear: Reach)
      requires At(t, Probing(k))
      modifies this
      ensures At(t, Idle) && Onward(t)
      ensures exists got :: WatchSaid(old(said), said, k, probe, sent, got)
    {
      Pause(t);
      var ex, err;
      ghost var got;
      ex, err, got := Take(t, Watchdog, k, probe, Idle, Killing(k), Killing(k));
      if ex {
        Kill(t, k, drop, sent, clear);
      }
      assert WatchSaid(old(said), said, k, probe, sent, got);
    }

    // What the runs guarantee holds of this state, at every point of the code
    // where it is valid.
    lemma DispatchesBoundedHere(k: Key)
      requires Valid() && Initial(start)
      ensures Sum(log, Dispatched(k)) + Sum(threads, Holds(Handler, k))
              <= Present(Now(), k) + Sum(log, ReleasedByOthers(Handler, k))
    {
      DispatchesBounded(maxAttempts, start, trace, k);
    }
  }
}
