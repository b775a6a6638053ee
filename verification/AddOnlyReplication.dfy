/**
Replication without deletes: any server may accept any registration, and
notifications may arrive in any order and any number of times.  Every service
known anywhere is stored at, or on its way to, every server.
*/
module AddOnlyReplication {
  import opened Registry
  import opened RegistryIdentity
  import opened Replication

  // recordOf: each ID is always issued with one record
  ghost predicate Issued(r: Record, recordOf: UUID -> Record) {
    r.id != NIL && r == recordOf(r.id)
  }

  predicate Accepts(c: Cluster, s: Step)
    requires WellFormed(c) && Enabled(c, s)
  {
    s.ClientAdd? && Add(c.servers[s.at], s.service, s.uuid, s.pick).outcome == Done
  }

  function Registration(c: Cluster, s: Step): Record
    requires WellFormed(c) && Enabled(c, s) && Accepts(c, s)
  {
    Add(c.servers[s.at], s.service, s.uuid, s.pick).service
  }

  ghost function IssuedRule(recordOf: UUID -> Record): Rule {
    (c: Cluster, s: Step) =>
      && !s.ClientDelete?
      && (WellFormed(c) && Enabled(c, s) && Accepts(c, s) ==> Issued(Registration(c, s), recordOf))
  }

  // any registration anywhere, any delivery order, any repetition
  ghost function AddOnlyRule(): Rule {
    (c: Cluster, s: Step) => !s.ClientDelete?
  }

  ghost predicate StoredAt(c: Cluster, p: nat, r: Record)
    requires WellFormed(c) && p < |c.servers|
  {
    r in c.servers[p].services
  }

  ghost predicate KnownAt(c: Cluster, p: nat, r: Record)
    requires WellFormed(c) && p < |c.servers|
  {
    r in c.servers[p].services || AddMsg(r) in c.inbox[p]
  }

  ghost predicate ServerInv(v: View, msgs: seq<Msg>, recordOf: UUID -> Record) {
    && Consistent(v)
    && (forall r :: r in v.services ==> Issued(r, recordOf))
    && (forall m :: m in msgs ==> m.AddMsg? && Issued(m.service, recordOf))
  }

  ghost predicate Inv(c: Cluster, recordOf: UUID -> Record) {
    && WellFormed(c)
    && (forall p :: 0 <= p < |c.servers| ==> ServerInv(c.servers[p], c.inbox[p], recordOf))
    && (forall p, q, r :: 0 <= p < |c.servers| && 0 <= q < |c.servers| && KnownAt(c, p, r) ==> KnownAt(c, q, r))
  }

  lemma ReceiveStores(v: View, r: Record, recordOf: UUID -> Record)
    requires Consistent(v) && Issued(r, recordOf)
    requires forall s :: s in v.services ==> Issued(s, recordOf)
    ensures var w := Receive(v, AddMsg(r));
            Consistent(w) && forall s :: s in w.services <==> s in v.services || s == r
  {
    assert AddLocked(v, r) == Add(v, r, 1, 0);
    StepConsistentIff(v, OpAdd(r, 1, 0));
    if r.id in v.ids {
      var s :| s in v.services && s.id == r.id;
      assert s == r;
    }
  }

  lemma RemovedMessages(msgs: seq<Msg>, k: nat)
    requires k < |msgs|
    ensures forall m :: m in Remove(msgs, k) ==> m in msgs
    ensures forall m :: m in msgs ==> m == msgs[k] || m in Remove(msgs, k)
  {
    forall m | m in msgs && m != msgs[k] ensures m in Remove(msgs, k) {
      var j :| 0 <= j < |msgs| && msgs[j] == m;
      assert Remove(msgs, k)[if j < k then j else j - 1] == m;
    }
  }

  // Handling one pending message, kept or not, changes nothing that is known.
  lemma HandleKeepsInv(c: Cluster, to: nat, k: nat, kept: bool, recordOf: UUID -> Record)
    requires Inv(c, recordOf) && to < |c.servers| && k < |c.inbox[to]|
    ensures Inv(Next(c, if kept then Redeliver(to, k) else Deliver(to, k)), recordOf)
  {
    var e := Next(c, if kept then Redeliver(to, k) else Deliver(to, k));
    var m := c.inbox[to][k];
    assert m in c.inbox[to];
    ReceiveStores(c.servers[to], m.service, recordOf);
    RemovedMessages(c.inbox[to], k);
    assert ServerInv(e.servers[to], e.inbox[to], recordOf);
    forall p, r | 0 <= p < |c.servers| ensures KnownAt(e, p, r) <==> KnownAt(c, p, r) {
    }
  }

  // An accepted registration is then known everywhere, and nothing else is new.
  lemma AcceptedIsKnown(c: Cluster, at: nat, svc: Record, uuid: UUID, pick: nat, p: nat, r: Record)
    requires WellFormed(c) && Enabled(c, ClientAdd(at, svc, uuid, pick)) && p < |c.servers|
    requires Add(c.servers[at], svc, uuid, pick).outcome == Done
    ensures var e := Next(c, ClientAdd(at, svc, uuid, pick));
            KnownAt(e, p, r) <==> KnownAt(c, p, r) || r == Add(c.servers[at], svc, uuid, pick).service
  {
    var e := Next(c, ClientAdd(at, svc, uuid, pick));
    var m := AddMsg(Add(c.servers[at], svc, uuid, pick).service);
    if p != at {
      assert e.inbox[p] == c.inbox[p] + [m];
    }
  }

  lemma AcceptedKeepsServerInv(
      c: Cluster, at: nat, svc: Record, uuid: UUID, pick: nat, recordOf: UUID -> Record, p: nat)
    requires Inv(c, recordOf) && Enabled(c, ClientAdd(at, svc, uuid, pick))
    requires IssuedRule(recordOf)(c, ClientAdd(at, svc, uuid, pick)) && p < |c.servers|
    requires Add(c.servers[at], svc, uuid, pick).outcome == Done
    ensures var e := Next(c, ClientAdd(at, svc, uuid, pick)); ServerInv(e.servers[p], e.inbox[p], recordOf)
  {
    assert ServerInv(c.servers[p], c.inbox[p], recordOf);
    if p == at {
      StepConsistentIff(c.servers[at], OpAdd(svc, uuid, pick));
    }
  }

  lemma ClientAddKeepsInv(c: Cluster, at: nat, svc: Record, uuid: UUID, pick: nat, recordOf: UUID -> Record)
    requires Inv(c, recordOf) && Enabled(c, ClientAdd(at, svc, uuid, pick))
    requires IssuedRule(recordOf)(c, ClientAdd(at, svc, uuid, pick))
    ensures Inv(Next(c, ClientAdd(at, svc, uuid, pick)), recordOf)
  {
    var e := Next(c, ClientAdd(at, svc, uuid, pick));
    if Add(c.servers[at], svc, uuid, pick).outcome == Done {
      forall p: nat | p < |c.servers| ensures ServerInv(e.servers[p], e.inbox[p], recordOf) {
        AcceptedKeepsServerInv(c, at, svc, uuid, pick, recordOf, p);
      }
      forall p: nat, r | p < |c.servers|
        ensures KnownAt(e, p, r) <==> KnownAt(c, p, r) || r == Add(c.servers[at], svc, uuid, pick).service
      {
        AcceptedIsKnown(c, at, svc, uuid, pick, p, r);
      }
    } else {
      assert e == c;
    }
  }

  lemma {:induction false} RunsKnowEverywhere(c: Cluster, steps: seq<Step>, recordOf: UUID -> Record)
    requires WellFormed(c) && Inv(c, recordOf) && AllowedRun(c, steps, IssuedRule(recordOf))
    ensures Inv(RunOf(c, steps), recordOf)
    decreases |steps|
  {
    if steps != [] {
      match steps[0] {
        case ClientAdd(at, svc, uuid, pick) => ClientAddKeepsInv(c, at, svc, uuid, pick, recordOf);
        case ClientDelete(_, _) =>
        case Deliver(to, k) => HandleKeepsInv(c, to, k, false, recordOf);
        case Redeliver(to, k) => HandleKeepsInv(c, to, k, true, recordOf);
      }
      RunsKnowEverywhere(Next(c, steps[0]), steps[1..], recordOf);
    }
  }

  // In every reachable state of a cluster that started empty, what one server
  // stores is stored at, or pending to, every other.
  lemma StoredIsStoredOrPendingEverywhere(
      c: Cluster, steps: seq<Step>, recordOf: UUID -> Record, p: nat, q: nat, r: Record)
    requires WellFormed(c) && Empty(c) && AllowedRun(c, steps, IssuedRule(recordOf))
    requires p < |c.servers| && q < |c.servers|
    requires StoredAt(RunOf(c, steps), p, r)
    ensures KnownAt(RunOf(c, steps), q, r)
  {
    RunsKnowEverywhere(c, steps, recordOf);
    assert KnownAt(RunOf(c, steps), p, r);
  }

  lemma QuiescentServersAgree(c: Cluster, steps: seq<Step>, recordOf: UUID -> Record, p: nat, q: nat)
    requires WellFormed(c) && Empty(c) && AllowedRun(c, steps, IssuedRule(recordOf))
    requires p < |c.servers| && q < |c.servers|
    requires Quiescent(RunOf(c, steps))
    ensures var e := RunOf(c, steps);
            forall r :: r in e.servers[p].services <==> r in e.servers[q].services
  {
    var e := RunOf(c, steps);
    forall r ensures r in e.servers[p].services <==> r in e.servers[q].services {
      if StoredAt(e, p, r) {
        StoredIsStoredOrPendingEverywhere(c, steps, recordOf, p, q, r);
      }
      if StoredAt(e, q, r) {
        StoredIsStoredOrPendingEverywhere(c, steps, recordOf, q, p, r);
      }
    }
  }

  // ---------- exactly when the servers agree ----------

  // the records that clients have registered in a run
  ghost function Accepted(c: Cluster, steps: seq<Step>): set<Record>
    requires WellFormed(c) && EnabledRun(c, steps)
    decreases |steps|
  {
    if steps == [] then {}
    else
      (if Accepts(c, steps[0]) then {Registration(c, steps[0])} else {}) + Accepted(Next(c, steps[0]), steps[1..])
  }

  // What holds of every run without deletes, whatever is registered.
  ghost predicate Base(c: Cluster) {
    && WellFormed(c)
    && (forall p :: 0 <= p < |c.servers| ==> Identified(c.servers[p]))
    && (forall p, m :: 0 <= p < |c.inbox| && m in c.inbox[p] ==> m.AddMsg? && m.service.id != NIL)
  }

  ghost predicate Grows(c: Cluster, e: Cluster) {
    && |e.servers| == |c.servers|
    && forall p, r :: 0 <= p < |c.servers| && r in c.servers[p].services ==> r in e.servers[p].services
  }

  ghost predicate StoredSomewhere(c: Cluster, r: Record) {
    exists p :: 0 <= p < |c.servers| && r in c.servers[p].services
  }

  lemma RegistrationHasId(c: Cluster, s: Step)
    requires WellFormed(c) && Enabled(c, s) && Accepts(c, s)
    ensures Registration(c, s).id != NIL
    ensures Registration(c, s) in Next(c, s).servers[s.at].services
  {
  }

  lemma HandleKeepsBase(c: Cluster, to: nat, k: nat, kept: bool)
    requires Base(c) && to < |c.servers| && k < |c.inbox[to]|
    ensures var e := Next(c, if kept then Redeliver(to, k) else Deliver(to, k)); Base(e) && Grows(c, e)
  {
    var m := c.inbox[to][k];
    assert m in c.inbox[to];
    AddKeepsIdentity(c.servers[to], m.service, 1, 0);
    assert AddLocked(c.servers[to], m.service) == Add(c.servers[to], m.service, 1, 0);
    RemovedMessages(c.inbox[to], k);
  }

  lemma StepKeepsBase(c: Cluster, s: Step)
    requires Base(c) && Enabled(c, s) && !s.ClientDelete?
    ensures Base(Next(c, s)) && Grows(c, Next(c, s))
  {
    match s {
      case ClientAdd(at, svc, uuid, pick) =>
        AddKeepsIdentity(c.servers[at], svc, uuid, pick);
      case Deliver(to, k) => HandleKeepsBase(c, to, k, false);
      case Redeliver(to, k) => HandleKeepsBase(c, to, k, true);
    }
  }

  // What a server accepts or stores it stores to the end, one record per ID.
  lemma {:induction false} AcceptedStaysStored(c: Cluster, steps: seq<Step>)
    requires WellFormed(c) && Base(c) && AllowedRun(c, steps, AddOnlyRule())
    ensures var e := RunOf(c, steps);
            && Base(e) && Grows(c, e)
            && forall r :: r in Accepted(c, steps) ==> StoredSomewhere(e, r)
    decreases |steps|
  {
    if steps != [] {
      StepKeepsBase(c, steps[0]);
      AcceptedStaysStored(Next(c, steps[0]), steps[1..]);
      if Accepts(c, steps[0]) {
        RegistrationHasId(c, steps[0]);
        assert StoredSomewhere(RunOf(c, steps), Registration(c, steps[0]));
      }
    }
  }

  ghost predicate OneRecordPerId(rs: set<Record>) {
    forall r, s :: r in rs && s in rs && r.id == s.id ==> r == s
  }

  ghost function RecordIn(rs: set<Record>): UUID -> Record {
    (id: UUID) =>
      if exists r :: r in rs && r.id == id then (var r :| r in rs && r.id == id; r) else Record(id, "", "", [])
  }

  lemma {:induction false} AcceptedIsIssued(c: Cluster, steps: seq<Step>, rs: set<Record>)
    requires WellFormed(c) && AllowedRun(c, steps, AddOnlyRule())
    requires Accepted(c, steps) <= rs && OneRecordPerId(rs)
    ensures AllowedRun(c, steps, IssuedRule(RecordIn(rs)))
    decreases |steps|
  {
    if steps != [] {
      AcceptedIsIssued(Next(c, steps[0]), steps[1..], rs);
      if Accepts(c, steps[0]) {
        RegistrationHasId(c, steps[0]);
        assert Registration(c, steps[0]) in rs;
      }
    }
  }

  ghost predicate SameServices(c: Cluster) {
    forall p, q, r :: 0 <= p < |c.servers| && 0 <= q < |c.servers| && r in c.servers[p].services
      ==> r in c.servers[q].services
  }

  // With nothing pending, all servers of a cluster that started empty hold the
  // same services exactly when no two accepted registrations put different
  // records under one ID, whoever accepted them.
  lemma QuiescentServersAgreeIff(c: Cluster, steps: seq<Step>)
    requires WellFormed(c) && Empty(c) && AllowedRun(c, steps, AddOnlyRule()) && Quiescent(RunOf(c, steps))
    ensures SameServices(RunOf(c, steps)) <==> OneRecordPerId(Accepted(c, steps))
  {
    var e, rs := RunOf(c, steps), Accepted(c, steps);
    AcceptedStaysStored(c, steps);
    if SameServices(e) {
      forall r, s | r in rs && s in rs && r.id == s.id ensures r == s {
        var p :| 0 <= p < |e.servers| && r in e.servers[p].services;
        assert StoredSomewhere(e, s);
        assert s in e.servers[p].services;
      }
    }
    if OneRecordPerId(rs) {
      AcceptedIsIssued(c, steps, rs);
      forall p, q, r | 0 <= p < |e.servers| && 0 <= q < |e.servers| && r in e.servers[p].services
        ensures r in e.servers[q].services
      {
        QuiescentServersAgree(c, steps, RecordIn(rs), p, q);
      }
    }
  }
}
