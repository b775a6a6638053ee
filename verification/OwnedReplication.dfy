/**
Replication with deletes: every ID is mutated by clients at one server, its
owner.  A peer's view of an ID, caught up with the notifications pending for it,
is the owner's view as long as no notification overtakes another of its ID, or is
repeated, where it may not be; in particular when those of one ID arrive once each
and in order.
*/
module OwnedReplication {
  import opened Registry
  import opened RegistryIdentity
  import opened Replication

  datatype Discipline = Discipline(ownerOf: UUID -> nat, typeOf: UUID -> string)

  // One owner for every ID; notifications arrive in any order and any number of times.
  ghost predicate Owned(c: Cluster, s: Step, d: Discipline) {
    && WellFormed(c) && Enabled(c, s)
    && match s
       case ClientAdd(at, svc, uuid, pick) =>
         var m := Add(c.servers[at], svc, uuid, pick);
         m.outcome == Done ==> Typed(m.service, d.typeOf) && d.ownerOf(m.service.id) == at
       case ClientDelete(at, svc) => Typed(svc, d.typeOf) && d.ownerOf(svc.id) == at
       case Deliver(_, _) => true
       case Redeliver(_, _) => true
  }

  predicate Harmless(c: Cluster, s: Step)
    requires WellFormed(c) && Enabled(c, s)
  {
    match s
    case Deliver(to, k) =>
      MayOvertake(Lookup(c.servers[to].services, c.inbox[to][k].service.id), c.inbox[to], k)
    case Redeliver(to, k) =>
      MayRepeat(Lookup(c.servers[to].services, c.inbox[to][k].service.id), c.inbox[to], k)
    case _ => true
  }

  ghost function OwnerRule(d: Discipline): Rule {
    (c: Cluster, s: Step) => Owned(c, s, d)
  }

  ghost function HarmlessRule(d: Discipline): Rule {
    (c: Cluster, s: Step) => Owned(c, s, d) && Harmless(c, s)
  }

  // the notifications for one ID reach each peer once each and in the order issued
  ghost function InOrderRule(d: Discipline): Rule {
    (c: Cluster, s: Step) =>
      Owned(c, s, d) && !s.Redeliver? && (s.Deliver? ==> FirstOfId(c.inbox[s.to], s.k))
  }

  ghost predicate ServerInv(c: Cluster, p: nat, d: Discipline)
    requires WellFormed(c) && p < |c.servers|
  {
    && Sound(c.servers[p], d.typeOf)
    && (forall r :: r in c.servers[p].services ==> d.ownerOf(r.id) < |c.servers|)
    && (forall m :: m in c.inbox[p] ==>
          Typed(m.service, d.typeOf) && d.ownerOf(m.service.id) < |c.servers| && d.ownerOf(m.service.id) != p)
  }

  // The peer's record of an ID after its pending messages is the owner's record.
  ghost predicate CaughtUp(c: Cluster, p: nat, id: UUID, d: Discipline)
    requires WellFormed(c) && p < |c.servers| && d.ownerOf(id) < |c.servers|
  {
    Pending(Lookup(c.servers[p].services, id), c.inbox[p], id)
    == Lookup(c.servers[d.ownerOf(id)].services, id)
  }

  ghost predicate Inv(c: Cluster, d: Discipline) {
    && WellFormed(c)
    && (forall p :: 0 <= p < |c.servers| ==> ServerInv(c, p, d))
    && (forall p, id :: 0 <= p < |c.servers| && d.ownerOf(id) < |c.servers| ==> CaughtUp(c, p, id, d))
  }

  lemma EmptyInv(c: Cluster, d: Discipline)
    requires WellFormed(c) && Empty(c)
    ensures Inv(c, d)
  {
  }

  // A mutation that the owner performs and announces.
  lemma AnnounceKeepsInv(c: Cluster, at: nat, v: View, m: Msg, d: Discipline)
    requires Inv(c, d) && at < |c.servers|
    requires Typed(m.service, d.typeOf) && d.ownerOf(m.service.id) == at
    requires Sound(v, d.typeOf)
    requires forall id :: Lookup(v.services, id)
               == if m.service.id == id then Act(Lookup(c.servers[at].services, id), m)
                  else Lookup(c.servers[at].services, id)
    requires forall r :: r in v.services ==> r in c.servers[at].services || r.id == m.service.id
    ensures Inv(Cluster(c.servers[at := v], Notify(c.inbox, at, m)), d)
  {
    var e := Cluster(c.servers[at := v], Notify(c.inbox, at, m));
    forall p | 0 <= p < |e.servers| ensures ServerInv(e, p, d) {
      assert ServerInv(c, p, d);
    }
    forall p, id | 0 <= p < |e.servers| && d.ownerOf(id) < |e.servers| ensures CaughtUp(e, p, id, d) {
      assert CaughtUp(c, p, id, d);
      if p == at {
        if id == m.service.id {
          assert ServerInv(c, at, d);
          NothingPending(Lookup(v.services, id), c.inbox[at], id);
        }
      } else {
        PendingSnoc(Lookup(c.servers[p].services, id), c.inbox[p], m, id);
        assert CaughtUp(c, at, m.service.id, d);
        assert ServerInv(c, at, d);
        NothingPending(Lookup(c.servers[at].services, m.service.id), c.inbox[at], m.service.id);
      }
    }
  }

  lemma ReceivedRecords(v: View, m: Msg, typeOf: UUID -> string)
    requires Sound(v, typeOf) && Typed(m.service, typeOf)
    ensures forall r :: r in Receive(v, m).services ==> r in v.services || r == m.service
  {
    if m.DeleteMsg? {
      DeleteTyped(v, m.service, typeOf);
    }
  }

  // handling pending message k, which may come again
  function Handle(to: nat, k: nat, again: bool): Step {
    if again then Redeliver(to, k) else Deliver(to, k)
  }

  lemma HandleKeepsServerInv(c: Cluster, to: nat, k: nat, again: bool, d: Discipline)
    requires Inv(c, d) && Owned(c, Handle(to, k, again), d)
    ensures forall p :: 0 <= p < |c.servers| ==> ServerInv(Next(c, Handle(to, k, again)), p, d)
  {
    var e := Next(c, Handle(to, k, again));
    var m := c.inbox[to][k];
    assert ServerInv(c, to, d) && m in c.inbox[to];
    ReceiveActs(c.servers[to], m, d.typeOf, m.service.id);
    ReceivedRecords(c.servers[to], m, d.typeOf);
    assert ServerInv(e, to, d);
    forall p | 0 <= p < |e.servers| && p != to ensures ServerInv(e, p, d) {
      assert ServerInv(c, p, d);
    }
  }

  // The record a peer stores under an ID after handling a message.
  lemma HandleActs(c: Cluster, to: nat, k: nat, again: bool, d: Discipline, id: UUID)
    requires Inv(c, d) && Owned(c, Handle(to, k, again), d)
    ensures var e := Next(c, Handle(to, k, again)); var m := c.inbox[to][k];
            var was := Lookup(c.servers[to].services, id);
            && Lookup(e.servers[to].services, id) == (if m.service.id == id then Act(was, m) else was)
            && (d.ownerOf(id) == to ==> m.service.id != id)
  {
    assert ServerInv(c, to, d) && c.inbox[to][k] in c.inbox[to];
    ReceiveActs(c.servers[to], c.inbox[to][k], d.typeOf, id);
  }

  lemma HandleKeepsOthers(c: Cluster, to: nat, k: nat, again: bool, d: Discipline, p: nat, id: UUID)
    requires Inv(c, d) && Owned(c, Handle(to, k, again), d) && p < |c.servers| && d.ownerOf(id) < |c.servers|
    requires p != to || id != c.inbox[to][k].service.id
    ensures CaughtUp(Next(c, Handle(to, k, again)), p, id, d)
  {
    assert CaughtUp(c, p, id, d);
    HandleActs(c, to, k, again, d, id);
    if p == to {
      PendingOfOthers(Lookup(c.servers[to].services, id), c.inbox[to], k, id);
    }
  }

  // Handling a message keeps every peer caught up exactly when it may overtake
  // what it overtakes, or may be repeated; the owners' records stay in any case.
  lemma HandleKeepsInvIff(c: Cluster, to: nat, k: nat, again: bool, d: Discipline)
    requires Inv(c, d) && Owned(c, Handle(to, k, again), d)
    ensures Inv(Next(c, Handle(to, k, again)), d) <==> Harmless(c, Handle(to, k, again))
    ensures forall id :: d.ownerOf(id) == to ==>
              Lookup(Next(c, Handle(to, k, again)).servers[to].services, id) == Lookup(c.servers[to].services, id)
  {
    var e := Next(c, Handle(to, k, again));
    var mine := c.inbox[to][k].service.id;
    assert ServerInv(c, to, d) && c.inbox[to][k] in c.inbox[to];
    HandleKeepsServerInv(c, to, k, again, d);
    forall id ensures d.ownerOf(id) == to ==>
                        Lookup(e.servers[to].services, id) == Lookup(c.servers[to].services, id) {
      HandleActs(c, to, k, again, d, id);
    }
    OvertakingHarmlessIff(Lookup(c.servers[to].services, mine), c.inbox[to], k);
    RepeatHarmlessIff(Lookup(c.servers[to].services, mine), c.inbox[to], k);
    HandleActs(c, to, k, again, d, mine);
    assert CaughtUp(c, to, mine, d);
    assert CaughtUp(e, to, mine, d) <==> Harmless(c, Handle(to, k, again));
    forall p, id | 0 <= p < |e.servers| && d.ownerOf(id) < |e.servers| && (p != to || id != mine)
      ensures CaughtUp(e, p, id, d)
    {
      HandleKeepsOthers(c, to, k, again, d, p, id);
    }
  }

  lemma ClientAddKeepsInv(c: Cluster, at: nat, svc: Record, uuid: UUID, pick: nat, d: Discipline)
    requires Inv(c, d) && Owned(c, ClientAdd(at, svc, uuid, pick), d)
    ensures Inv(Next(c, ClientAdd(at, svc, uuid, pick)), d)
  {
    var v := c.servers[at];
    assert ServerInv(c, at, d);
    var m := Add(v, svc, uuid, pick);
    if m.outcome == Done {
      AddTyped(v, svc, uuid, pick, d.typeOf);
      forall id ensures Lookup(m.view.services, id)
        == if m.service.id == id then Act(Lookup(v.services, id), AddMsg(m.service)) else Lookup(v.services, id)
      {
        AddLockedActs(v, m.service, d.typeOf, id);
      }
      AnnounceKeepsInv(c, at, m.view, AddMsg(m.service), d);
    } else {
      assert Next(c, ClientAdd(at, svc, uuid, pick)) == c;
    }
  }

  lemma ClientDeleteKeepsInv(c: Cluster, at: nat, svc: Record, d: Discipline)
    requires Inv(c, d) && Owned(c, ClientDelete(at, svc), d)
    ensures Inv(Next(c, ClientDelete(at, svc)), d)
  {
    var v := c.servers[at];
    assert ServerInv(c, at, d);
    var m := Delete(v, svc);
    DeleteTyped(v, svc, d.typeOf);
    DeleteActs(v, svc, d.typeOf, svc.id);
    if m.outcome == Done {
      forall id ensures Lookup(m.view.services, id)
        == if svc.id == id then Act(Lookup(v.services, id), DeleteMsg(svc)) else Lookup(v.services, id)
      {
        DeleteActs(v, svc, d.typeOf, id);
      }
      AnnounceKeepsInv(c, at, m.view, DeleteMsg(svc), d);
    } else {
      assert Next(c, ClientDelete(at, svc)) == c;
    }
  }

  lemma StepKeepsInvIff(c: Cluster, s: Step, d: Discipline)
    requires Inv(c, d) && Owned(c, s, d)
    ensures Inv(Next(c, s), d) <==> Harmless(c, s)
  {
    match s {
      case ClientAdd(at, svc, uuid, pick) => ClientAddKeepsInv(c, at, svc, uuid, pick, d);
      case ClientDelete(at, svc) => ClientDeleteKeepsInv(c, at, svc, d);
      case Deliver(to, k) => HandleKeepsInvIff(c, to, k, false, d);
      case Redeliver(to, k) => HandleKeepsInvIff(c, to, k, true, d);
    }
  }

  ghost predicate AlwaysInv(c: Cluster, steps: seq<Step>, d: Discipline)
    requires WellFormed(c) && EnabledRun(c, steps)
    decreases |steps|
  {
    Inv(c, d) && (steps == [] || AlwaysInv(Next(c, steps[0]), steps[1..], d))
  }

  predicate AllHarmless(c: Cluster, steps: seq<Step>)
    requires WellFormed(c) && EnabledRun(c, steps)
    decreases |steps|
  {
    steps == [] || (Harmless(c, steps[0]) && AllHarmless(Next(c, steps[0]), steps[1..]))
  }

  // Every reachable state of a run with one owner for every ID: each server's
  // list, index and ID set are consistent, and each peer is the owner minus what
  // is pending, exactly when every delivery may overtake what it overtakes and
  // every repetition may be repeated.
  lemma {:induction false} AlwaysCaughtUpIff(c: Cluster, steps: seq<Step>, d: Discipline)
    requires WellFormed(c) && Inv(c, d) && AllowedRun(c, steps, OwnerRule(d))
    ensures AlwaysInv(c, steps, d) <==> AllHarmless(c, steps)
    decreases |steps|
  {
    if steps != [] {
      StepKeepsInvIff(c, steps[0], d);
      if Harmless(c, steps[0]) {
        AlwaysCaughtUpIff(Next(c, steps[0]), steps[1..], d);
      }
    }
  }

  // Notifications that arrive in order overtake nothing.
  lemma {:induction false} InOrderIsHarmless(c: Cluster, steps: seq<Step>, d: Discipline)
    requires WellFormed(c) && AllowedRun(c, steps, InOrderRule(d))
    ensures AllowedRun(c, steps, HarmlessRule(d))
    decreases |steps|
  {
    if steps != [] {
      var s := steps[0];
      if s.Deliver? {
        FirstMayOvertake(Lookup(c.servers[s.to].services, c.inbox[s.to][s.k].service.id), c.inbox[s.to], s.k);
      }
      InOrderIsHarmless(Next(c, s), steps[1..], d);
    }
  }

  lemma {:induction false} RunsStayCaughtUp(c: Cluster, steps: seq<Step>, d: Discipline)
    requires WellFormed(c) && Inv(c, d) && AllowedRun(c, steps, HarmlessRule(d))
    ensures Inv(RunOf(c, steps), d)
    decreases |steps|
  {
    if steps != [] {
      StepKeepsInvIff(c, steps[0], d);
      RunsStayCaughtUp(Next(c, steps[0]), steps[1..], d);
    }
  }

  // With nothing pending, all servers of a cluster that started empty hold the
  // same services.
  lemma QuiescentServersAgree(c: Cluster, steps: seq<Step>, d: Discipline, p: nat, q: nat)
    requires WellFormed(c) && Empty(c) && AllowedRun(c, steps, HarmlessRule(d))
    requires Quiescent(RunOf(c, steps)) && p < |c.servers| && q < |c.servers|
    ensures var e := RunOf(c, steps);
            && Consistent(e.servers[p])
            && forall r :: r in e.servers[p].services <==> r in e.servers[q].services
  {
    var e := RunOf(c, steps);
    EmptyInv(c, d);
    RunsStayCaughtUp(c, steps, d);
    assert ServerInv(e, p, d) && ServerInv(e, q, d);
    forall r ensures r in e.servers[p].services <==> r in e.servers[q].services {
      StoredIsLookedUp(e.servers[p], r);
      StoredIsLookedUp(e.servers[q], r);
      if d.ownerOf(r.id) < |e.servers| {
        assert CaughtUp(e, p, r.id, d) && CaughtUp(e, q, r.id, d);
      }
    }
  }

  // ---------- convergence ----------

  function Undelivered(inbox: seq<seq<Msg>>): nat {
    if inbox == [] then 0 else |inbox[0]| + Undelivered(inbox[1..])
  }

  lemma {:induction false} UndeliveredUpdate(inbox: seq<seq<Msg>>, p: nat, msgs: seq<Msg>)
    requires p < |inbox|
    ensures Undelivered(inbox[p := msgs]) == Undelivered(inbox) - |inbox[p]| + |msgs|
    ensures |inbox[p]| <= Undelivered(inbox)
  {
    if p == 0 {
      assert inbox[0 := msgs][1..] == inbox[1..];
    } else {
      assert inbox[p := msgs][1..] == inbox[1..][p - 1 := msgs];
      UndeliveredUpdate(inbox[1..], p - 1, msgs);
    }
  }

  // Notifications travel one hop, so each delivery leaves one fewer to come.
  lemma DeliveryShrinks(c: Cluster, to: nat, k: nat)
    requires WellFormed(c) && Enabled(c, Deliver(to, k))
    ensures Undelivered(Next(c, Deliver(to, k)).inbox) == Undelivered(c.inbox) - 1
  {
    UndeliveredUpdate(c.inbox, to, Remove(c.inbox[to], k));
  }

  lemma {:induction false} UndeliveredSomewhere(inbox: seq<seq<Msg>>)
    requires Undelivered(inbox) > 0
    ensures exists p :: 0 <= p < |inbox| && inbox[p] != []
  {
    if inbox[0] == [] {
      UndeliveredSomewhere(inbox[1..]);
      var p :| 0 <= p < |inbox[1..]| && inbox[1..][p] != [];
      assert inbox[p + 1] != [];
    }
  }

  lemma DeliveryPossible(c: Cluster, d: Discipline)
    requires WellFormed(c) && Undelivered(c.inbox) > 0
    ensures exists p: nat :: Owned(c, Deliver(p, 0), d) && FirstOfId(c.inbox[p], 0)
  {
    UndeliveredSomewhere(c.inbox);
    var p :| 0 <= p < |c.inbox| && c.inbox[p] != [];
    assert Owned(c, Deliver(p, 0), d);
  }

  // Once the clients stop, any harmless order of deliveries ends after as
  // many steps as notifications were pending, with every server holding exactly
  // what the owners held when the clients stopped.
  lemma {:induction false} DeliveriesConverge(c: Cluster, steps: seq<Step>, d: Discipline)
    requires WellFormed(c) && Inv(c, d) && AllowedRun(c, steps, HarmlessRule(d))
    requires forall s :: s in steps ==> s.Deliver?
    ensures |steps| <= Undelivered(c.inbox)
    ensures Undelivered(RunOf(c, steps).inbox) == Undelivered(c.inbox) - |steps|
    ensures |steps| == Undelivered(c.inbox) ==>
              forall p, id :: 0 <= p < |c.servers| && d.ownerOf(id) < |c.servers| ==>
                Lookup(RunOf(c, steps).servers[p].services, id) == Lookup(c.servers[d.ownerOf(id)].services, id)
    decreases |steps|
  {
    if steps == [] {
      forall p, id | 0 <= p < |c.servers| && d.ownerOf(id) < |c.servers| && Undelivered(c.inbox) == 0
        ensures Lookup(c.servers[p].services, id) == Lookup(c.servers[d.ownerOf(id)].services, id)
      {
        UndeliveredUpdate(c.inbox, p, []);
        assert CaughtUp(c, p, id, d);
      }
    } else {
      var s := steps[0];
      assert s in steps;
      var e := Next(c, s);
      DeliveryShrinks(c, s.to, s.k);
      HandleKeepsInvIff(c, s.to, s.k, false, d);
      DeliveriesConverge(e, steps[1..], d);
      forall id | d.ownerOf(id) < |c.servers|
        ensures Lookup(e.servers[d.ownerOf(id)].services, id) == Lookup(c.servers[d.ownerOf(id)].services, id)
      {
      }
    }
  }
}
