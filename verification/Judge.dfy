/**
The judge request lifecycle (judge/server/judger.go) as a step system: several
judgers share Redis counters used as test-and-set locks, NSQ messages that are
retried with an attempt counter, notification listeners that deduplicate with
the same counters, and delayed watchdogs.  One step is one Redis command, one
publish, one bridge or object-store outcome, or one answer to NSQ.
*/
module Judge {
  import opened Wrappers

  // A Redis key without the configured prefix.
  type Key = string

  datatype Body = Garbage | Request(solution: Key)

  datatype Status = Queued | Out | Finished

  datatype Message = Message(body: Body, deliveries: nat, status: Status)

  datatype Role = Handler | ResultListener | CommandListener | Watchdog | Reporter

  datatype Origin =
    | FromMessage(m: nat) | FromResult(solution: Key, etag: string)
    | FromCommand(solution: Key, etag: string) | FromWatchdog(key: Key)

  datatype Report = Report(origin: Origin, solution: Key, success: bool, done: bool)

  // Where each goroutine stands.
  datatype Thread =
    | Idle
    | Received(m: nat, attempts: nat)
    | Locking(m: nat, attempts: nat, key: Key)
    | Working(m: nat, attempts: nat, key: Key)
      // held: this handler took the lock itself
    | Failing(m: nat, attempts: nat, key: Key, held: bool)
    | Responding(m: nat, finish: bool)
    | Publishing(report: Report)
    | Clearing(report: Report)
    | Noticed(role: Role, solution: Key, etag: string)
    | Reading(role: Role, solution: Key, etag: string)
    | Dropping(role: Role, key: Key)
    | Probing(key: Key)
    | Killing(key: Key)

  datatype Event =
      // got is the value INCR reached, 0 when it was not applied; seen: the reply arrived
    | Incremented(role: Role, key: Key, got: nat, seen: bool)
      // hit: the key was there; own: by a thread that had taken it
    | Deleted(role: Role, key: Key, hit: bool, own: bool)
    | Expired(key: Key)
      // a command dispatched (Handler), or an object read (CommandListener) and maybe a watchdog started
    | Completed(role: Role, key: Key, watch: Option<Key>)
    | Published(report: Report, ok: bool)
    | Responded(m: nat, finish: bool)

  datatype State = State(store: map<Key, nat>, threads: seq<Thread>, msgs: seq<Message>, log: seq<Event>)

  // How a Redis command ends: done, done but the reply lost, or not done.
  datatype Reach = Applied | ReplyLost | NotApplied

  datatype Fetch = Missing | Unreadable | Invalid | Verdict(success: bool, done: bool)

  datatype Choice = Go | Redis(reach: Reach) | Succeeds(ok: bool) | Fetched(fetch: Fetch)

  datatype Label =
    | Submit(body: Body)
    | Deliver(t: nat, m: nat)
    | Timeout(m: nat)
    | Notify(t: nat, role: Role, solution: Key, etag: string)
    | Expire(key: Key)
    | Run(t: nat, choice: Choice)

  // uint16(MaxAttempts), and the consumer's own limit, one more in 16 bits; 0 is no limit.
  function Attempts16(n: nat): nat {
    n % 0x1_0000
  }

  function ConsumerLimit(maxAttempts: nat): nat {
    Attempts16(Attempts16(maxAttempts) + 1)
  }

  function Get(store: map<Key, nat>, k: Key): nat {
    if k in store then store[k] else 0
  }

  // ---------- one step of one goroutine ----------

  datatype Effect = Effect(
    thread: Thread, spawn: Option<Thread>, store: map<Key, nat>, msgs: seq<Message>, event: Option<Event>)

  predicate Takes(th: Thread, c: Choice) {
    match th
    case Idle => false
    case Received(_, _) => c.Go?
    case Locking(_, _, _) => c.Redis?
    case Working(_, _, _) => c.Succeeds?
    case Failing(_, _, _, _) => c.Redis?
    case Responding(_, _) => c.Go?
    case Publishing(_) => c.Succeeds?
    case Clearing(_) => c.Redis?
    case Noticed(_, _, _) => c.Redis?
    case Reading(_, _, _) => c.Fetched?
    case Dropping(_, _) => c.Redis?
    case Probing(_) => c.Redis?
    case Killing(_) => c.Redis?
  }

  function AfterReport(r: Report): Thread {
    if r.origin.FromMessage? then Responding(r.origin.m, true) else Idle
  }

  function Started(m: nat, k: Key): Report {
    Report(FromMessage(m), k, true, false)
  }

  function Failure(m: nat, k: Key): Report {
    Report(FromMessage(m), k, false, true)
  }

  // DEL, leaving the goroutine at next
  function Del(store: map<Key, nat>, msgs: seq<Message>, role: Role, k: Key, own: bool, r: Reach,
               next: Thread): Effect
  {
    var hit := k in store && r != NotApplied;
    Effect(next, None, if hit then store - {k} else store, msgs, Some(Deleted(role, k, hit, own)))
  }

  // INCR through checkIfRequestExists: first is reached with the value 1, exists
  // with a larger one, failed after an error (which also answers "exists")
  function Incr(store: map<Key, nat>, msgs: seq<Message>, role: Role, k: Key, r: Reach,
                first: Thread, present: Thread, failed: Thread): Effect
  {
    if r == NotApplied then Effect(failed, None, store, msgs, Some(Incremented(role, k, 0, false)))
    else
      var n := Get(store, k) + 1;
      Effect(if r == ReplyLost then failed else if n == 1 then first else present,
             None, store[k := n], msgs, Some(Incremented(role, k, n, r == Applied)))
  }

  // What the two listeners do with the object they were notified of.  A result
  // that does not parse is reported without a solution ID.
  function Read(store: map<Key, nat>, msgs: seq<Message>, role: Role, solution: Key, etag: string, o: Fetch): Effect {
    var key := solution + etag;
    if o == Missing || (o == Unreadable && role == ResultListener) then
      Effect(Dropping(role, key), None, store, msgs, None)
    else if role == ResultListener then
      var report := if o.Verdict? then Report(FromResult(solution, etag), solution, true, o.done)
                    else Report(FromResult(solution, etag), "", false, true);
      Effect(Publishing(report), None, store, msgs, None)
    else if !o.Verdict? then Effect(Idle, None, store, msgs, Some(Completed(role, key, None)))
    else if o.success then
      Effect(Idle, Some(Probing(solution)), store, msgs, Some(Completed(role, key, Some(solution))))
    else
      Effect(Publishing(Report(FromCommand(solution, etag), solution, false, true)), None, store, msgs,
             Some(Completed(role, key, None)))
  }

  function Act(maxAttempts: nat, store: map<Key, nat>, msgs: seq<Message>, th: Thread, c: Choice): Effect
    requires Takes(th, c)
    requires th.Received? ==> th.m < |msgs|
    requires th.Responding? ==> th.m < |msgs|
  {
    var limit := Attempts16(maxAttempts);
    match th
    case Received(m, a) =>
      var next := match msgs[m].body
        case Garbage => Responding(m, a > limit)
        case Request(k) => if a > limit then Publishing(Failure(m, k)) else Locking(m, a, k);
      Effect(next, None, store, msgs, None)
    case Locking(m, a, k) =>
      Incr(store, msgs, Handler, k, c.reach, Working(m, a, k), Publishing(Started(m, k)), Failing(m, a, k, false))
    case Working(m, a, k) =>
      if c.ok then Effect(Publishing(Started(m, k)), None, store, msgs, Some(Completed(Handler, k, None)))
      else Effect(Failing(m, a, k, true), None, store, msgs, None)
    case Failing(m, a, k, held) =>
      Del(store, msgs, Handler, k, held, c.reach,
          if a == limit then Publishing(Failure(m, k)) else Responding(m, false))
    case Responding(m, finish) =>
      // an answer to a delivery that has meanwhile timed out has no effect
      if msgs[m].status != Out then Effect(Idle, None, store, msgs, None)
      else Effect(Idle, None, store, msgs[m := msgs[m].(status := if finish then Finished else Queued)],
                  Some(Responded(m, finish)))
    case Publishing(r) =>
      Effect(if c.ok && r.done then Clearing(r) else AfterReport(r), None, store, msgs, Some(Published(r, c.ok)))
    case Clearing(r) => Del(store, msgs, Reporter, r.solution, false, c.reach, AfterReport(r))
    case Noticed(role, solution, etag) =>
      Incr(store, msgs, role, solution + etag, c.reach, Reading(role, solution, etag), Idle, Idle)
    case Reading(role, solution, etag) => Read(store, msgs, role, solution, etag, c.fetch)
    case Dropping(role, key) => Del(store, msgs, role, key, true, c.reach, Idle)
    case Probing(k) => Incr(store, msgs, Watchdog, k, c.reach, Idle, Killing(k), Killing(k))
    case Killing(k) =>
      Del(store, msgs, Watchdog, k, false, c.reach, Publishing(Report(FromWatchdog(k), k, false, true)))
  }

  // ---------- the whole system ----------

  predicate ThreadOk(th: Thread, n: nat) {
    match th
    case Received(m, _) => m < n
    case Locking(m, _, _) => m < n
    case Working(m, _, _) => m < n
    case Failing(m, _, _, _) => m < n
    case Responding(m, _) => m < n
    case Publishing(r) => r.origin.FromMessage? ==> r.origin.m < n
    case Clearing(r) => r.origin.FromMessage? ==> r.origin.m < n
    case _ => true
  }

  ghost predicate Valid(s: State) {
    && (forall t :: 0 <= t < |s.threads| ==> ThreadOk(s.threads[t], |s.msgs|))
    && (forall k :: k in s.store ==> s.store[k] > 0)
  }

  predicate Enabled(s: State, l: Label) {
    match l
    case Submit(_) => true
    case Deliver(t, m) => t < |s.threads| && s.threads[t].Idle? && m < |s.msgs| && s.msgs[m].status.Queued?
    case Timeout(m) => m < |s.msgs| && s.msgs[m].status.Out?
    case Notify(t, role, _, _) =>
      t < |s.threads| && s.threads[t].Idle? && (role.ResultListener? || role.CommandListener?)
    case Expire(k) => k in s.store
    case Run(t, c) => t < |s.threads| && Takes(s.threads[t], c) && ThreadOk(s.threads[t], |s.msgs|)
  }

  function Appended<T>(xs: seq<T>, x: Option<T>): seq<T> {
    if x == None then xs else xs + [x.value]
  }

  function Next(maxAttempts: nat, s: State, l: Label): State
    requires Enabled(s, l)
  {
    match l
    case Submit(body) => s.(msgs := s.msgs + [Message(body, 0, Queued)])
    case Deliver(t, m) =>
      var a := Attempts16(s.msgs[m].deliveries + 1);
      var limit := ConsumerLimit(maxAttempts);
      var delivered := s.msgs[m].(deliveries := s.msgs[m].deliveries + 1);
      // the consumer gives up on its own beyond its limit
      if limit > 0 && a > limit then
        s.(msgs := s.msgs[m := delivered.(status := Finished)], log := s.log + [Responded(m, true)])
      else s.(msgs := s.msgs[m := delivered.(status := Out)], threads := s.threads[t := Received(m, a)])
    case Timeout(m) => s.(msgs := s.msgs[m := s.msgs[m].(status := Queued)])
    case Notify(t, role, solution, etag) => s.(threads := s.threads[t := Noticed(role, solution, etag)])
    case Expire(k) => s.(store := s.store - {k}, log := s.log + [Expired(k)])
    case Run(t, c) =>
      var e := Act(maxAttempts, s.store, s.msgs, s.threads[t], c);
      State(e.store, Appended(s.threads[t := e.thread], e.spawn), e.msgs, Appended(s.log, e.event))
  }

  predicate EnabledRun(maxAttempts: nat, s: State, ls: seq<Label>)
    decreases |ls|
  {
    ls == [] || (Enabled(s, ls[0]) && EnabledRun(maxAttempts, Next(maxAttempts, s, ls[0]), ls[1..]))
  }

  function RunOf(maxAttempts: nat, s: State, ls: seq<Label>): State
    requires EnabledRun(maxAttempts, s, ls)
    decreases |ls|
  {
    if ls == [] then s else RunOf(maxAttempts, Next(maxAttempts, s, ls[0]), ls[1..])
  }

  lemma {:induction false} RunSnoc(maxAttempts: nat, s: State, ls: seq<Label>, l: Label)
    requires EnabledRun(maxAttempts, s, ls) && Enabled(RunOf(maxAttempts, s, ls), l)
    ensures EnabledRun(maxAttempts, s, ls + [l])
    ensures RunOf(maxAttempts, s, ls + [l]) == Next(maxAttempts, RunOf(maxAttempts, s, ls), l)
    decreases |ls|
  {
    if ls == [] {
      assert ls + [l] == [l] && [l][1..] == [];
    } else {
      assert (ls + [l])[0] == ls[0] && (ls + [l])[1..] == ls[1..] + [l];
      RunSnoc(maxAttempts, Next(maxAttempts, s, ls[0]), ls[1..], l);
    }
  }

  predicate Initial(s: State) {
    s.store == map[] && s.msgs == [] && s.log == []
    && forall t :: 0 <= t < |s.threads| ==> s.threads[t].Idle?
  }

  lemma ActKeepsValid(maxAttempts: nat, s: State, t: nat, c: Choice)
    requires Valid(s) && Enabled(s, Run(t, c))
    ensures var e := Act(maxAttempts, s.store, s.msgs, s.threads[t], c);
            && |e.msgs| == |s.msgs| && ThreadOk(e.thread, |s.msgs|)
            && (e.spawn != None ==> ThreadOk(e.spawn.value, |s.msgs|))
            && forall k :: k in e.store ==> e.store[k] > 0
  {
  }

  lemma StepKeepsValid(maxAttempts: nat, s: State, l: Label)
    requires Valid(s) && Enabled(s, l)
    ensures Valid(Next(maxAttempts, s, l))
    ensures |Next(maxAttempts, s, l).msgs| >= |s.msgs|
    ensures s.log <= Next(maxAttempts, s, l).log
  {
    if l.Run? {
      ActKeepsValid(maxAttempts, s, l.t, l.choice);
    }
  }
}
