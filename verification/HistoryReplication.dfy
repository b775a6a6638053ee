/**
Replication with deletes and any number of mutating servers: what a server
stores is what the mutations it has handled leave, in its own order.  All servers
come to handle the same mutations, so they agree exactly where their orders leave
the same.
*/
module HistoryReplication {
  import opened Wrappers
  import opened Registry
  import opened RegistryIdentity
  import opened Replication

  // every ID always comes with one type
  ghost function TypedRule(typeOf: UUID -> string): Rule {
    (c: Cluster, s: Step) =>
      WellFormed(c) && Enabled(c, s)
      && match s
         case ClientAdd(at, svc, uuid, pick) =>
           var m := Add(c.servers[at], svc, uuid, pick);
           m.outcome == Done ==> Typed(m.service, typeOf)
         case ClientDelete(_, svc) => Typed(svc, typeOf)
         case _ => true
  }

  // the mutation that a client has performed and the server announces
  function Announced(c: Cluster, s: Step): seq<Msg>
    requires WellFormed(c) && Enabled(c, s)
  {
    match s
    case ClientAdd(at, svc, uuid, pick) =>
      var m := Add(c.servers[at], svc, uuid, pick);
      if m.outcome == Done then [AddMsg(m.service)] else []
    case ClientDelete(at, svc) => if Delete(c.servers[at], svc).outcome == Done then [DeleteMsg(svc)] else []
    case _ => []
  }

  // the mutation that server p handles in a step
  function Handled(c: Cluster, s: Step, p: nat): seq<Msg>
    requires WellFormed(c) && Enabled(c, s)
  {
    match s
    case ClientAdd(at, _, _, _) => if at == p then Announced(c, s) else []
    case ClientDelete(at, _) => if at == p then Announced(c, s) else []
    case Deliver(to, k) => if to == p then [c.inbox[to][k]] else []
    case Redeliver(to, k) => if to == p then [c.inbox[to][k]] else []
  }

  function History(c: Cluster, steps: seq<Step>, p: nat): seq<Msg>
    requires WellFormed(c) && EnabledRun(c, steps)
    decreases |steps|
  {
    if steps == [] then [] else Handled(c, steps[0], p) + History(Next(c, steps[0]), steps[1..], p)
  }

  function AllAnnounced(c: Cluster, steps: seq<Step>): seq<Msg>
    requires WellFormed(c) && EnabledRun(c, steps)
    decreases |steps|
  {
    if steps == [] then [] else Announced(c, steps[0]) + AllAnnounced(Next(c, steps[0]), steps[1..])
  }

  ghost predicate TypedInv(c: Cluster, typeOf: UUID -> string) {
    && WellFormed(c)
    && (forall p :: 0 <= p < |c.servers| ==> Sound(c.servers[p], typeOf))
    && (forall p, m :: 0 <= p < |c.inbox| && m in c.inbox[p] ==> Typed(m.service, typeOf))
  }

  lemma HandleKeepsTyped(c: Cluster, to: nat, k: nat, typeOf: UUID -> string, id: UUID)
    requires TypedInv(c, typeOf) && to < |c.servers| && k < |c.inbox[to]|
    ensures var v := Receive(c.servers[to], c.inbox[to][k]);
            && Sound(v, typeOf)
            && Lookup(v.services, id) == Pending(Lookup(c.servers[to].services, id), [c.inbox[to][k]], id)
  {
    var m := c.inbox[to][k];
    assert m in c.inbox[to];
    ReceiveActs(c.servers[to], m, typeOf, id);
    PendingSnoc(Lookup(c.servers[to].services, id), [], m, id);
    assert [] + [m] == [m];
  }

  lemma AddActs(v: View, svc: Record, uuid: UUID, pick: nat, typeOf: UUID -> string, id: UUID)
    requires Sound(v, typeOf) && uuid != NIL
    requires var m := Add(v, svc, uuid, pick); m.outcome == Done ==> Typed(m.service, typeOf)
    ensures var m := Add(v, svc, uuid, pick);
            && Sound(m.view, typeOf)
            && Lookup(m.view.services, id)
               == Pending(Lookup(v.services, id), if m.outcome == Done then [AddMsg(m.service)] else [], id)
  {
    var m := Add(v, svc, uuid, pick);
    AddTyped(v, svc, uuid, pick, typeOf);
    if m.outcome == Done {
      AddLockedActs(v, m.service, typeOf, id);
      PendingSnoc(Lookup(v.services, id), [], AddMsg(m.service), id);
      assert [] + [AddMsg(m.service)] == [AddMsg(m.service)];
    }
  }

  lemma ClientDeleteActs(v: View, svc: Record, typeOf: UUID -> string, id: UUID)
    requires Sound(v, typeOf) && Typed(svc, typeOf)
    ensures var m := Delete(v, svc);
            && Sound(m.view, typeOf)
            && Lookup(m.view.services, id)
               == Pending(Lookup(v.services, id), if m.outcome == Done then [DeleteMsg(svc)] else [], id)
  {
    DeleteActs(v, svc, typeOf, id);
    PendingSnoc(Lookup(v.services, id), [], DeleteMsg(svc), id);
    assert [] + [DeleteMsg(svc)] == [DeleteMsg(svc)];
  }

  // A step changes what a server stores as the mutation it handles does.
  lemma StepFollowsHandled(c: Cluster, s: Step, typeOf: UUID -> string, p: nat, id: UUID)
    requires TypedInv(c, typeOf) && TypedRule(typeOf)(c, s) && p < |c.servers|
    ensures Sound(Next(c, s).servers[p], typeOf)
    ensures Lookup(Next(c, s).servers[p].services, id)
            == Pending(Lookup(c.servers[p].services, id), Handled(c, s, p), id)
  {
    match s {
      case ClientAdd(at, svc, uuid, pick) => AddActs(c.servers[at], svc, uuid, pick, typeOf, id);
      case ClientDelete(at, svc) => ClientDeleteActs(c.servers[at], svc, typeOf, id);
      case Deliver(to, k) => HandleKeepsTyped(c, to, k, typeOf, id);
      case Redeliver(to, k) => HandleKeepsTyped(c, to, k, typeOf, id);
    }
  }

  lemma StepKeepsTyped(c: Cluster, s: Step, typeOf: UUID -> string)
    requires TypedInv(c, typeOf) && TypedRule(typeOf)(c, s)
    ensures TypedInv(Next(c, s), typeOf)
  {
    var n := Next(c, s);
    forall p: nat | p < |c.servers| ensures Sound(n.servers[p], typeOf) {
      StepFollowsHandled(c, s, typeOf, p, NIL);
    }
    forall p, m | 0 <= p < |n.inbox| && m in n.inbox[p] ensures Typed(m.service, typeOf) {
      assert m in c.inbox[p] || m in Announced(c, s);
    }
  }

  lemma {:induction false} StoredFollowsHistory(c: Cluster, steps: seq<Step>, typeOf: UUID -> string, p: nat, id: UUID)
    requires WellFormed(c) && TypedInv(c, typeOf) && AllowedRun(c, steps, TypedRule(typeOf)) && p < |c.servers|
    ensures var e := RunOf(c, steps);
            && TypedInv(e, typeOf)
            && Lookup(e.servers[p].services, id)
               == Pending(Lookup(c.servers[p].services, id), History(c, steps, p), id)
    decreases |steps|
  {
    if steps != [] {
      var n := Next(c, steps[0]);
      StepFollowsHandled(c, steps[0], typeOf, p, id);
      StepKeepsTyped(c, steps[0], typeOf);
      StoredFollowsHistory(n, steps[1..], typeOf, p, id);
      PendingConcat(Lookup(c.servers[p].services, id), Handled(c, steps[0], p), History(n, steps[1..], p), id);
    }
  }

  lemma EmptyTyped(c: Cluster, typeOf: UUID -> string)
    requires WellFormed(c) && Empty(c)
    ensures TypedInv(c, typeOf)
  {
  }

  // In every reachable state: under each ID a server stores what the mutations it
  // has handled leave, repetitions included.
  lemma StoredIsLeft(c: Cluster, steps: seq<Step>, typeOf: UUID -> string, p: nat, id: UUID)
    requires WellFormed(c) && Empty(c) && AllowedRun(c, steps, TypedRule(typeOf)) && p < |c.servers|
    ensures Lookup(RunOf(c, steps).servers[p].services, id) == Left(History(c, steps, p), id)
  {
    EmptyTyped(c, typeOf);
    StoredFollowsHistory(c, steps, typeOf, p, id);
  }

  // ---------- all servers handle the same mutations ----------

  lemma RemoveIsOneFewer<T>(xs: seq<T>, k: nat)
    requires k < |xs|
    ensures multiset([xs[k]]) + multiset(Remove(xs, k)) == multiset(xs)
  {
    var a, b := xs[..k], xs[k + 1..];
    assert xs == (a + [xs[k]]) + b;
    assert multiset(xs) == multiset(a + [xs[k]]) + multiset(b);
    assert multiset(Remove(xs, k)) == multiset(a) + multiset(b);
  }

  lemma StepConservesMutations(c: Cluster, s: Step, p: nat)
    requires WellFormed(c) && Enabled(c, s) && !s.Redeliver? && p < |c.servers|
    ensures multiset(Handled(c, s, p)) + multiset(Next(c, s).inbox[p])
            == multiset(c.inbox[p]) + multiset(Announced(c, s))
  {
    if s.Deliver? {
      assert Announced(c, s) == [];
      if s.to == p {
        RemoveIsOneFewer(c.inbox[p], s.k);
      }
    } else if s.at == p {
      assert Next(c, s).inbox[p] == c.inbox[p];
    } else {
      assert Next(c, s).inbox[p] == c.inbox[p] + Announced(c, s);
    }
  }

  lemma Chained(h: multiset<Msg>, hs: multiset<Msg>, i: multiset<Msg>, j: multiset<Msg>, k: multiset<Msg>,
                a: multiset<Msg>, b: multiset<Msg>)
    requires h + j == i + a && hs + k == j + b
    ensures (h + hs) + k == i + (a + b)
  {
    forall m: Msg ensures ((h + hs) + k)[m] == (i + (a + b))[m] {
      assert (h + j)[m] == (i + a)[m];
      assert (hs + k)[m] == (j + b)[m];
    }
  }

  // What a server has handled and what is pending to it is all that was announced.
  lemma {:induction false} MutationsConserved(c: Cluster, steps: seq<Step>, p: nat)
    requires WellFormed(c) && EnabledRun(c, steps) && p < |c.servers|
    requires forall s :: s in steps ==> !s.Redeliver?
    ensures multiset(History(c, steps, p)) + multiset(RunOf(c, steps).inbox[p])
            == multiset(c.inbox[p]) + multiset(AllAnnounced(c, steps))
    decreases |steps|
  {
    if steps != [] {
      var s, rest := steps[0], steps[1..];
      assert s in steps;
      var n := Next(c, s);
      StepConservesMutations(c, s, p);
      MutationsConserved(n, rest, p);
      Chained(multiset(Handled(c, s, p)), multiset(History(n, rest, p)), multiset(c.inbox[p]), multiset(n.inbox[p]),
              multiset(RunOf(n, rest).inbox[p]), multiset(Announced(c, s)), multiset(AllAnnounced(n, rest)));
    }
  }

  lemma NothingLeft(h: multiset<Msg>, late: seq<Msg>, early: seq<Msg>, a: multiset<Msg>)
    requires late == [] && early == [] && h + multiset(late) == multiset(early) + a
    ensures h == a
  {
    assert h + multiset{} == h && multiset{} + a == a;
  }

  lemma QuiescentHandledAll(c: Cluster, steps: seq<Step>, p: nat)
    requires WellFormed(c) && Empty(c) && EnabledRun(c, steps) && Quiescent(RunOf(c, steps)) && p < |c.servers|
    requires forall s :: s in steps ==> !s.Redeliver?
    ensures multiset(History(c, steps, p)) == multiset(AllAnnounced(c, steps))
  {
    MutationsConserved(c, steps, p);
    var left := RunOf(c, steps).inbox[p];
    assert left == [] && c.inbox[p] == [];
    NothingLeft(multiset(History(c, steps, p)), left, c.inbox[p], multiset(AllAnnounced(c, steps)));
  }

  ghost predicate SameServices(v: View, w: View) {
    forall r :: r in v.services <==> r in w.services
  }

  ghost predicate SameLookups(v: View, w: View) {
    forall id :: Lookup(v.services, id) == Lookup(w.services, id)
  }

  ghost predicate LeaveTheSame(a: seq<Msg>, b: seq<Msg>) {
    forall id :: Left(a, id) == Left(b, id)
  }

  lemma LookupsAgree(v: View, w: View, id: UUID)
    requires Identified(v) && Identified(w) && SameServices(v, w)
    ensures Lookup(v.services, id) == Lookup(w.services, id)
  {
    LookupMember(v.services, id);
    LookupMember(w.services, id);
    if Lookup(v.services, id) != None {
      StoredIsLookedUp(w, Lookup(v.services, id).value);
    }
  }

  lemma SameLookupsIff(v: View, w: View)
    requires Identified(v) && Identified(w)
    ensures SameServices(v, w) <==> SameLookups(v, w)
  {
    if SameLookups(v, w) {
      forall r ensures r in v.services <==> r in w.services {
        StoredIsLookedUp(v, r);
        StoredIsLookedUp(w, r);
      }
    }
    if SameServices(v, w) {
      forall id ensures Lookup(v.services, id) == Lookup(w.services, id) {
        LookupsAgree(v, w, id);
      }
    }
  }

  // In every reachable state, repetitions and pending messages or not.
  lemma AgreeIff(c: Cluster, steps: seq<Step>, typeOf: UUID -> string, p: nat, q: nat)
    requires WellFormed(c) && Empty(c) && AllowedRun(c, steps, TypedRule(typeOf))
    requires p < |c.servers| && q < |c.servers|
    ensures SameServices(RunOf(c, steps).servers[p], RunOf(c, steps).servers[q])
            <==> LeaveTheSame(History(c, steps, p), History(c, steps, q))
  {
    EmptyTyped(c, typeOf);
    StoredFollowsHistory(c, steps, typeOf, p, NIL);
    var v, w := RunOf(c, steps).servers[p], RunOf(c, steps).servers[q];
    forall id ensures Left(History(c, steps, p), id) == Lookup(v.services, id)
                      && Left(History(c, steps, q), id) == Lookup(w.services, id) {
      StoredIsLeft(c, steps, typeOf, p, id);
      StoredIsLeft(c, steps, typeOf, q, id);
    }
    SameLookupsIff(v, w);
  }

  // With nothing pending, every server that started empty has handled every
  // mutation once, and two of them hold the same services exactly when their two
  // orders leave the same under every ID.
  lemma QuiescentServersAgreeIff(c: Cluster, steps: seq<Step>, typeOf: UUID -> string, p: nat, q: nat)
    requires WellFormed(c) && Empty(c) && AllowedRun(c, steps, TypedRule(typeOf)) && Quiescent(RunOf(c, steps))
    requires (forall s :: s in steps ==> !s.Redeliver?) && p < |c.servers| && q < |c.servers|
    ensures multiset(History(c, steps, p)) == multiset(AllAnnounced(c, steps)) == multiset(History(c, steps, q))
    ensures SameServices(RunOf(c, steps).servers[p], RunOf(c, steps).servers[q])
            <==> LeaveTheSame(History(c, steps, p), History(c, steps, q))
  {
    QuiescentHandledAll(c, steps, p);
    QuiescentHandledAll(c, steps, q);
    AgreeIff(c, steps, typeOf, p, q);
  }
}
