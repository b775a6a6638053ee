/**
Conservation laws of the judge system, over every interleaving of handlers,
listeners, watchdogs, expiries, redeliveries and lost Redis replies.  A ledger
says that what went in equals what came out plus what is still held.
*/
module JudgeLedgers {
  import opened Wrappers
  import opened Tally
  import opened Judge

  datatype Ledger = Ledger(credit: Event -> nat, debit: Event -> nat, held: Thread -> nat)

  ghost predicate Balanced(s: State, l: Ledger) {
    Sum(s.log, l.credit) == Sum(s.log, l.debit) + Sum(s.threads, l.held)
  }

  // Only running goroutines matter to the ledger.
  ghost predicate Neutral(l: Ledger) {
    && l.held(Idle) == 0
    && (forall m, a :: l.held(Received(m, a)) == 0)
    && (forall r, k, v :: l.held(Noticed(r, k, v)) == 0)
    && (forall m, f :: l.credit(Responded(m, f)) == 0 && l.debit(Responded(m, f)) == 0)
    && (forall k :: l.credit(Expired(k)) == 0 && l.debit(Expired(k)) == 0)
  }

  function Of<T>(f: T -> nat, x: Option<T>): nat {
    if x == None then 0 else f(x.value)
  }

  ghost predicate ActBalances(maxAttempts: nat, s: State, t: nat, c: Choice, l: Ledger)
    requires Enabled(s, Run(t, c))
  {
    var e := Act(maxAttempts, s.store, s.msgs, s.threads[t], c);
    Of(l.credit, e.event) + l.held(s.threads[t]) == Of(l.debit, e.event) + l.held(e.thread) + Of(l.held, e.spawn)
  }

  lemma SumAppended<T>(xs: seq<T>, x: Option<T>, f: T -> nat)
    ensures Sum(Appended(xs, x), f) == Sum(xs, f) + Of(f, x)
  {
    if x != None {
      SumSnoc(xs, x.value, f);
    }
  }

  lemma StepKeepsBalance(maxAttempts: nat, s: State, step: Label, l: Ledger)
    requires Enabled(s, step) && Balanced(s, l) && Neutral(l)
    requires step.Run? ==> ActBalances(maxAttempts, s, step.t, step.choice, l)
    ensures Balanced(Next(maxAttempts, s, step), l)
  {
    var n := Next(maxAttempts, s, step);
    match step {
      case Submit(_) =>
      case Timeout(_) =>
      case Deliver(t, m) =>
        SumUpdate(s.threads, t, n.threads[t], l.held);
        SumSnoc(s.log, Responded(m, true), l.credit);
        SumSnoc(s.log, Responded(m, true), l.debit);
      case Notify(t, _, _, _) => SumUpdate(s.threads, t, n.threads[t], l.held);
      case Expire(k) =>
        SumSnoc(s.log, Expired(k), l.credit);
        SumSnoc(s.log, Expired(k), l.debit);
      case Run(t, c) =>
        var e := Act(maxAttempts, s.store, s.msgs, s.threads[t], c);
        SumUpdate(s.threads, t, e.thread, l.held);
        SumAppended(s.threads[t := e.thread], e.spawn, l.held);
        SumAppended(s.log, e.event, l.credit);
        SumAppended(s.log, e.event, l.debit);
    }
  }

  // ---------- the store ----------

  function Acquired(k: Key): Event -> nat {
    (e: Event) => if e.Incremented? && e.key == k && e.got == 1 then 1 else 0
  }

  function Removed(k: Key): Event -> nat {
    (e: Event) => if (e.Deleted? && e.key == k && e.hit) || (e.Expired? && e.key == k) then 1 else 0
  }

  function Present(s: State, k: Key): nat {
    if k in s.store then 1 else 0
  }

  // A key is created by an INCR that reaches 1 and goes by a DEL or an expiry.
  ghost predicate StoreLaw(s: State, k: Key) {
    Sum(s.log, Acquired(k)) == Sum(s.log, Removed(k)) + Present(s, k)
  }

  ghost predicate StoreMoves(before: map<Key, nat>, e: Effect, k: Key) {
    Of(Acquired(k), e.event) + (if k in before then 1 else 0)
    == Of(Removed(k), e.event) + (if k in e.store then 1 else 0)
  }

  lemma ActMovesStore(maxAttempts: nat, s: State, t: nat, c: Choice, k: Key)
    requires Valid(s) && Enabled(s, Run(t, c))
    ensures StoreMoves(s.store, Act(maxAttempts, s.store, s.msgs, s.threads[t], c), k)
  {
    match s.threads[t] {
      case Reading(_, _, _) =>
      case Locking(_, _, _) =>
      case Failing(_, _, _, _) =>
      case Clearing(_) =>
      case Noticed(_, _, _) =>
      case Dropping(_, _) =>
      case Probing(_) =>
      case Killing(_) =>
      case _ =>
    }
  }

  lemma RunKeepsStoreLaw(maxAttempts: nat, s: State, t: nat, c: Choice, k: Key)
    requires Enabled(s, Run(t, c)) && StoreLaw(s, k)
    requires StoreMoves(s.store, Act(maxAttempts, s.store, s.msgs, s.threads[t], c), k)
    ensures StoreLaw(Next(maxAttempts, s, Run(t, c)), k)
  {
    var e := Act(maxAttempts, s.store, s.msgs, s.threads[t], c);
    SumAppended(s.log, e.event, Acquired(k));
    SumAppended(s.log, e.event, Removed(k));
  }

  lemma StepKeepsStoreLaw(maxAttempts: nat, s: State, l: Label, k: Key)
    requires Valid(s) && Enabled(s, l) && StoreLaw(s, k)
    ensures StoreLaw(Next(maxAttempts, s, l), k)
  {
    match l {
      case Deliver(_, m) =>
        SumSnoc(s.log, Responded(m, true), Acquired(k));
        SumSnoc(s.log, Responded(m, true), Removed(k));
      case Expire(x) =>
        SumSnoc(s.log, Expired(x), Acquired(k));
        SumSnoc(s.log, Expired(x), Removed(k));
      case Run(t, c) =>
        ActMovesStore(maxAttempts, s, t, c, k);
        RunKeepsStoreLaw(maxAttempts, s, t, c, k);
      case _ =>
    }
  }

  // ---------- locks taken, used, given back or still held ----------

  function Took(role: Role, k: Key): Event -> nat {
    (e: Event) => if e.Incremented? && e.role == role && e.key == k && e.got == 1 && e.seen then 1 else 0
  }

  // a report of the result object that the key stands for
  predicate ReportsKey(r: Report, k: Key) {
    r.origin.FromResult? && r.origin.solution + r.origin.etag == k
  }

  // the purpose of taking the key: a command dispatched, a result reported, an object read
  function Used(role: Role, k: Key): Event -> nat {
    (e: Event) => if (e.Completed? && e.role == role && e.key == k)
            || (e.Published? && role == ResultListener && ReportsKey(e.report, k)) then 1 else 0
  }

  function GaveBack(role: Role, k: Key): Event -> nat {
    (e: Event) => if e.Deleted? && e.own && e.role == role && e.key == k then 1 else 0
  }

  function Spent(role: Role, k: Key): Event -> nat {
    (e: Event) => if (e.Completed? && e.role == role && e.key == k)
            || (e.Published? && role == ResultListener && ReportsKey(e.report, k))
            || (e.Deleted? && e.own && e.role == role && e.key == k) then 1 else 0
  }

  function Holds(role: Role, k: Key): Thread -> nat {
    (th: Thread) =>
      if (match th
          case Working(_, _, key) => role == Handler && key == k
          case Failing(_, _, key, held) => held && role == Handler && key == k
          case Reading(r, solution, etag) => r == role && solution + etag == k
          case Dropping(r, key) => r == role && key == k
          case Publishing(r) => role == ResultListener && ReportsKey(r, k)
          case _ => false) then 1 else 0
  }

  function LockLedger(role: Role, k: Key): Ledger {
    Ledger(Took(role, k), Spent(role, k), Holds(role, k))
  }

  predicate ListenerOk(th: Thread) {
    match th
    case Noticed(r, k, v) => r == ResultListener || r == CommandListener
    case Reading(r, k, v) => r == ResultListener || r == CommandListener
    case Dropping(r, key) => r == ResultListener || r == CommandListener
    case _ => true
  }

  ghost predicate ListenersOk(s: State) {
    forall t :: 0 <= t < |s.threads| ==> ListenerOk(s.threads[t])
  }

  lemma StepKeepsListeners(maxAttempts: nat, s: State, l: Label)
    requires Enabled(s, l) && ListenersOk(s)
    ensures ListenersOk(Next(maxAttempts, s, l))
  {
    if l.Run? {
      assert ListenerOk(s.threads[l.t]);
    }
  }

  lemma ReadingKeepsLockLedger(maxAttempts: nat, s: State, t: nat, c: Choice, role: Role, k: Key)
    requires Enabled(s, Run(t, c)) && s.threads[t].Reading? && ListenerOk(s.threads[t])
    requires role == Handler || role == ResultListener || role == CommandListener
    ensures ActBalances(maxAttempts, s, t, c, LockLedger(role, k))
  {
  }

  lemma OthersKeepLockLedger(maxAttempts: nat, s: State, t: nat, c: Choice, role: Role, k: Key)
    requires Enabled(s, Run(t, c)) && !s.threads[t].Reading? && ListenerOk(s.threads[t])
    requires role == Handler || role == ResultListener || role == CommandListener
    ensures ActBalances(maxAttempts, s, t, c, LockLedger(role, k))
  {
  }

  lemma ActKeepsLockLedger(maxAttempts: nat, s: State, t: nat, c: Choice, role: Role, k: Key)
    requires Enabled(s, Run(t, c)) && ListenersOk(s)
    requires role == Handler || role == ResultListener || role == CommandListener
    ensures ActBalances(maxAttempts, s, t, c, LockLedger(role, k))
  {
    if s.threads[t].Reading? {
      ReadingKeepsLockLedger(maxAttempts, s, t, c, role, k);
    } else {
      OthersKeepLockLedger(maxAttempts, s, t, c, role, k);
    }
  }
}
