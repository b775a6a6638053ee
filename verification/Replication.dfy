/**
N discovery servers that notify each other of successful mutations over one hop
(NotifyPeersServiceMutation and HandlePeer, discovery/server/server.go).  A
cluster is a sequence of views and, per server, the notifications still on
their way to it.
*/
module Replication {
  import opened Wrappers
  import opened Registry
  import opened RegistryIdentity

  datatype Msg = AddMsg(service: Record) | DeleteMsg(service: Record)

  datatype Cluster = Cluster(servers: seq<View>, inbox: seq<seq<Msg>>)

  datatype Step =
    | ClientAdd(at: nat, service: Record, uuid: UUID, pick: nat)
    | ClientDelete(at: nat, service: Record)
    | Deliver(to: nat, k: nat)
      // a repeated request: handled now and still to come
    | Redeliver(to: nat, k: nat)

  ghost predicate WellFormed(c: Cluster) {
    |c.servers| == |c.inbox|
  }

  predicate Enabled(c: Cluster, s: Step)
    requires WellFormed(c)
  {
    match s
    case ClientAdd(at, _, uuid, _) => at < |c.servers| && uuid != NIL
    case ClientDelete(at, _) => at < |c.servers|
    case Deliver(to, k) => to < |c.servers| && k < |c.inbox[to]|
    case Redeliver(to, k) => to < |c.servers| && k < |c.inbox[to]|
  }

  // One notification to every peer; the sender is not its own peer.
  function Notify(inbox: seq<seq<Msg>>, at: nat, m: Msg): (r: seq<seq<Msg>>)
    ensures |r| == |inbox|
  {
    seq(|inbox|, p requires 0 <= p < |inbox| => if p == at then inbox[p] else inbox[p] + [m])
  }

  // HandlePeer applies a notification without notifying anyone.  A notified
  // service already has its ID, so Add comes down to its locked part.
  function Receive(v: View, m: Msg): View {
    match m
    case AddMsg(svc) => AddLocked(v, svc).view
    case DeleteMsg(svc) => Delete(v, svc).view
  }

  function Next(c: Cluster, s: Step): (d: Cluster)
    requires WellFormed(c) && Enabled(c, s)
    ensures |d.servers| == |c.servers| && |d.inbox| == |c.inbox|
  {
    match s
    case ClientAdd(at, svc, uuid, pick) =>
      var m := Add(c.servers[at], svc, uuid, pick);
      Cluster(c.servers[at := m.view], if m.outcome == Done then Notify(c.inbox, at, AddMsg(m.service)) else c.inbox)
    case ClientDelete(at, svc) =>
      var m := Delete(c.servers[at], svc);
      Cluster(c.servers[at := m.view], if m.outcome == Done then Notify(c.inbox, at, DeleteMsg(svc)) else c.inbox)
    case Deliver(to, k) =>
      Cluster(c.servers[to := Receive(c.servers[to], c.inbox[to][k])], c.inbox[to := Remove(c.inbox[to], k)])
    case Redeliver(to, k) =>
      c.(servers := c.servers[to := Receive(c.servers[to], c.inbox[to][k])])
  }

  predicate EnabledRun(c: Cluster, steps: seq<Step>)
    requires WellFormed(c)
    decreases |steps|
  {
    steps == [] || (Enabled(c, steps[0]) && EnabledRun(Next(c, steps[0]), steps[1..]))
  }

  function RunOf(c: Cluster, steps: seq<Step>): (r: Cluster)
    requires WellFormed(c) && EnabledRun(c, steps)
    ensures WellFormed(r) && |r.servers| == |c.servers|
    decreases |steps|
  {
    if steps == [] then c else RunOf(Next(c, steps[0]), steps[1..])
  }

  // What clients and network respect: which steps they take in which states.
  type Rule = (Cluster, Step) -> bool

  ghost predicate AllowedRun(c: Cluster, steps: seq<Step>, rule: Rule)
    requires WellFormed(c)
    ensures AllowedRun(c, steps, rule) ==> EnabledRun(c, steps)
    decreases |steps|
  {
    steps == []
    || (Enabled(c, steps[0]) && rule(c, steps[0]) && AllowedRun(Next(c, steps[0]), steps[1..], rule))
  }

  predicate Empty(c: Cluster) {
    && (forall p :: 0 <= p < |c.servers| ==> c.servers[p] == EMPTY)
    && (forall p :: 0 <= p < |c.inbox| ==> c.inbox[p] == [])
  }

  ghost predicate Quiescent(c: Cluster) {
    forall p :: 0 <= p < |c.inbox| ==> c.inbox[p] == []
  }

  // ---------- the record stored under an ID ----------

  function Lookup(rs: seq<Record>, id: UUID): Option<Record> {
    if rs == [] then None else if rs[0].id == id then Some(rs[0]) else Lookup(rs[1..], id)
  }

  // what a message for an ID makes of the record stored under it
  function Act(stored: Option<Record>, m: Msg): Option<Record> {
    match m
    case AddMsg(r) => if stored == None then Some(r) else stored
    case DeleteMsg(_) => None
  }

  // the record under an ID once the pending messages for it have been applied in order
  function Pending(stored: Option<Record>, msgs: seq<Msg>, id: UUID): Option<Record>
    decreases |msgs|
  {
    if msgs == [] then stored
    else Pending(if msgs[0].service.id == id then Act(stored, msgs[0]) else stored, msgs[1..], id)
  }

  lemma {:induction false} PendingSnoc(stored: Option<Record>, msgs: seq<Msg>, m: Msg, id: UUID)
    ensures Pending(stored, msgs + [m], id)
            == if m.service.id == id then Act(Pending(stored, msgs, id), m) else Pending(stored, msgs, id)
    decreases |msgs|
  {
    if msgs == [] {
      assert msgs + [m] == [m];
      assert [m][1..] == [];
    } else {
      assert (msgs + [m])[1..] == msgs[1..] + [m];
      PendingSnoc(if msgs[0].service.id == id then Act(stored, msgs[0]) else stored, msgs[1..], m, id);
    }
  }

  lemma {:induction false} PendingConcat(stored: Option<Record>, a: seq<Msg>, b: seq<Msg>, id: UUID)
    ensures Pending(stored, a + b, id) == Pending(Pending(stored, a, id), b, id)
    decreases |a|
  {
    if a == [] {
      assert a + b == b;
    } else {
      assert (a + b)[0] == a[0] && (a + b)[1..] == a[1..] + b;
      PendingConcat(if a[0].service.id == id then Act(stored, a[0]) else stored, a[1..], b, id);
    }
  }

  predicate DeletedIn(msgs: seq<Msg>, id: UUID) {
    exists m :: m in msgs && m.DeleteMsg? && m.service.id == id
  }

  // what messages leave under an ID where nothing was stored
  function Left(msgs: seq<Msg>, id: UUID): Option<Record> {
    Pending(None, msgs, id)
  }

  // What was stored shows in the end only if no delete is among the messages.
  lemma {:induction false} PendingIsLeft(stored: Option<Record>, msgs: seq<Msg>, id: UUID)
    ensures Pending(stored, msgs, id) == if DeletedIn(msgs, id) || stored == None then Left(msgs, id) else stored
    decreases |msgs|
  {
    if msgs != [] {
      var m := msgs[0];
      assert forall x :: x in msgs <==> x == m || x in msgs[1..];
      PendingIsLeft(if m.service.id == id then Act(stored, m) else stored, msgs[1..], id);
      PendingIsLeft(if m.service.id == id then Act(None, m) else None, msgs[1..], id);
    }
  }

  // May message k be handled before the messages ahead of it?  Yes if a delete of
  // its ID comes after it.  Otherwise a delete may if the messages ahead leave
  // nothing, or what those behind it leave anyway.  An add may, past a delete, if
  // something is registered again between the two, or its own record behind it;
  // and past adds alone, if the service is stored already or is theirs too.
  predicate MayOvertake(stored: Option<Record>, msgs: seq<Msg>, k: nat)
    requires k < |msgs|
  {
    var id, ahead, behind := msgs[k].service.id, msgs[..k], msgs[k + 1..];
    || DeletedIn(behind, id)
    || match msgs[k]
       case DeleteMsg(_) => Left(ahead, id) == None || Left(ahead, id) == Left(behind, id)
       case AddMsg(r) =>
         if DeletedIn(ahead, id) then Left(ahead, id) != None || Left(behind, id) == Some(r)
         else stored != None || Left(ahead, id) == None || Left(ahead, id) == Some(r)
  }

  // Exactly then handling it at once changes nothing about what its ID comes to.
  lemma OvertakingHarmlessIff(stored: Option<Record>, msgs: seq<Msg>, k: nat)
    requires k < |msgs|
    ensures var id := msgs[k].service.id;
            Pending(Act(stored, msgs[k]), Remove(msgs, k), id) == Pending(stored, msgs, id)
            <==> MayOvertake(stored, msgs, k)
  {
    var m, id, ahead, behind := msgs[k], msgs[k].service.id, msgs[..k], msgs[k + 1..];
    assert msgs == (ahead + [m]) + behind;
    assert [m][1..] == [];
    PendingConcat(Act(stored, m), ahead, behind, id);
    PendingConcat(stored, ahead + [m], behind, id);
    PendingSnoc(stored, ahead, m, id);
    PendingIsLeft(Act(stored, m), ahead, id);
    PendingIsLeft(stored, ahead, id);
    PendingIsLeft(Pending(Act(stored, m), ahead, id), behind, id);
    PendingIsLeft(Act(Pending(stored, ahead, id), m), behind, id);
  }

  // May a message be handled and still come again?  Yes if a delete of its ID is
  // pending, and else if the service is stored or is what the messages leave.
  predicate MayRepeat(stored: Option<Record>, msgs: seq<Msg>, k: nat)
    requires k < |msgs|
  {
    var id := msgs[k].service.id;
    DeletedIn(msgs, id) || stored != None || Left(msgs, id) == Some(msgs[k].service)
  }

  lemma RepeatHarmlessIff(stored: Option<Record>, msgs: seq<Msg>, k: nat)
    requires k < |msgs|
    ensures var id := msgs[k].service.id;
            Pending(Act(stored, msgs[k]), msgs, id) == Pending(stored, msgs, id) <==> MayRepeat(stored, msgs, k)
  {
    assert msgs[k] in msgs;
    PendingIsLeft(Act(stored, msgs[k]), msgs, msgs[k].service.id);
    PendingIsLeft(stored, msgs, msgs[k].service.id);
  }

  lemma PendingOfOthers(stored: Option<Record>, msgs: seq<Msg>, k: nat, id: UUID)
    requires k < |msgs| && msgs[k].service.id != id
    ensures Pending(stored, Remove(msgs, k), id) == Pending(stored, msgs, id)
  {
    var ahead, behind := msgs[..k], msgs[k + 1..];
    assert msgs == (ahead + [msgs[k]]) + behind;
    PendingConcat(stored, ahead, behind, id);
    PendingConcat(stored, ahead + [msgs[k]], behind, id);
    PendingSnoc(stored, ahead, msgs[k], id);
  }

  lemma {:induction false} NothingPending(stored: Option<Record>, msgs: seq<Msg>, id: UUID)
    requires forall m :: m in msgs ==> m.service.id != id
    ensures Pending(stored, msgs, id) == stored
    decreases |msgs|
  {
    if msgs != [] {
      assert msgs[0] in msgs;
      NothingPending(stored, msgs[1..], id);
    }
  }

  // no earlier message of the same ID: the order in which notifications for one ID arrive
  predicate FirstOfId(msgs: seq<Msg>, k: nat)
    requires k < |msgs|
  {
    forall j :: 0 <= j < k ==> msgs[j].service.id != msgs[k].service.id
  }

  lemma FirstMayOvertake(stored: Option<Record>, msgs: seq<Msg>, k: nat)
    requires k < |msgs| && FirstOfId(msgs, k)
    ensures MayOvertake(stored, msgs, k)
  {
    NothingPending(None, msgs[..k], msgs[k].service.id);
  }

  lemma {:induction false} LookupMember(rs: seq<Record>, id: UUID)
    ensures Lookup(rs, id) == None <==> forall r :: r in rs ==> r.id != id
    ensures Lookup(rs, id) != None ==> Lookup(rs, id).value in rs && Lookup(rs, id).value.id == id
  {
    if rs != [] {
      assert forall r :: r in rs <==> r == rs[0] || r in rs[1..];
      LookupMember(rs[1..], id);
    }
  }

  lemma {:induction false} LookupSnoc(rs: seq<Record>, r: Record, id: UUID)
    ensures Lookup(rs + [r], id)
            == if Lookup(rs, id) != None then Lookup(rs, id) else if r.id == id then Some(r) else None
  {
    if rs == [] {
      assert rs + [r] == [r];
    } else {
      assert (rs + [r])[1..] == rs[1..] + [r];
      LookupSnoc(rs[1..], r, id);
    }
  }

  lemma {:induction false} LookupRemove(rs: seq<Record>, pos: nat, id: UUID)
    requires pos < |rs|
    requires DistinctIds(rs)
    ensures Lookup(Remove(rs, pos), id) == if rs[pos].id == id then None else Lookup(rs, id)
  {
    if pos == 0 {
      assert Remove(rs, 0) == rs[1..];
      LookupMember(rs[1..], id);
    } else {
      assert Remove(rs, pos)[0] == rs[0] && Remove(rs, pos)[1..] == Remove(rs[1..], pos - 1);
      LookupRemove(rs[1..], pos - 1, id);
    }
  }

  // With distinct IDs, what is stored is what the lookups find.
  lemma StoredIsLookedUp(v: View, r: Record)
    requires Identified(v)
    ensures r in v.services <==> Lookup(v.services, r.id) == Some(r)
  {
    LookupMember(v.services, r.id);
    if r in v.services {
      var s := Lookup(v.services, r.id).value;
      var i :| 0 <= i < |v.services| && v.services[i] == r;
      var j :| 0 <= j < |v.services| && v.services[j] == s;
    }
  }

  lemma AddLockedActs(v: View, r: Record, typeOf: UUID -> string, id: UUID)
    requires Sound(v, typeOf) && Typed(r, typeOf)
    ensures var m := AddLocked(v, r);
            && Sound(m.view, typeOf)
            && (m.outcome == Done <==> Lookup(v.services, r.id) == None)
            && Lookup(m.view.services, id)
               == if r.id == id then Act(Lookup(v.services, id), AddMsg(r)) else Lookup(v.services, id)
  {
    assert AddLocked(v, r) == Add(v, r, 1, 0);
    AddTyped(v, r, 1, 0, typeOf);
    LookupMember(v.services, r.id);
    LookupSnoc(v.services, r, id);
  }

  lemma DeleteActs(v: View, r: Record, typeOf: UUID -> string, id: UUID)
    requires Sound(v, typeOf) && Typed(r, typeOf)
    ensures var m := Delete(v, r);
            && Sound(m.view, typeOf)
            && (m.outcome == Done || (m.view == v && Lookup(v.services, r.id) == None))
            && Lookup(m.view.services, id)
               == if r.id == id then Act(Lookup(v.services, id), DeleteMsg(r)) else Lookup(v.services, id)
  {
    DeleteTyped(v, r, typeOf);
    LookupMember(v.services, r.id);
    var pos := Find(v.services, r);
    if pos == -1 {
      forall s | s in v.services ensures s.id != r.id {
        assert !Matches(r, s);
      }
    } else {
      LookupRemove(v.services, pos, id);
      assert v.services[pos] in v.services;
    }
  }

  lemma ReceiveActs(v: View, m: Msg, typeOf: UUID -> string, id: UUID)
    requires Sound(v, typeOf) && Typed(m.service, typeOf)
    ensures Sound(Receive(v, m), typeOf)
    ensures Lookup(Receive(v, m).services, id)
            == if m.service.id == id then Act(Lookup(v.services, id), m) else Lookup(v.services, id)
  {
    match m {
      case AddMsg(r) => AddLockedActs(v, r, typeOf, id);
      case DeleteMsg(r) => DeleteActs(v, r, typeOf, id);
    }
  }

  lemma AddThenDeleteFromEmpty(r: Record)
    requires r.id != NIL
    ensures var added := Add(EMPTY, r, 1, 0);
            && added.outcome == Done && added.service == r && added.view.services == [r]
            && Delete(added.view, r).outcome == Done && Delete(added.view, r).view.services == []
    ensures Delete(EMPTY, r).view == EMPTY
  {
    var v := AddLocked(EMPTY, r).view;
    assert Find([r], r) == 0;
    assert Listed(v, r.typ) == [r] && v.services == [r];
  }

  // Each notification is its own request, so nothing in the protocol keeps their
  // order: a delete that overtakes its add leaves the service on the peer for good.
  lemma OvertakingDeleteDiverges(r: Record)
    requires r.id != NIL
    ensures var c0 := Cluster([EMPTY, EMPTY], [[], []]);
            var c1 := Next(c0, ClientAdd(0, r, 1, 0));
            var c2 := Next(c1, ClientDelete(0, r));
            && |c2.inbox[1]| == 2
            && var c3 := Next(c2, Deliver(1, 1));
               && |c3.inbox[1]| == 1
               && var c4 := Next(c3, Deliver(1, 0));
                  Quiescent(c4) && c4.servers[0].services == [] && c4.servers[1].services == [r]
  {
    AddThenDeleteFromEmpty(r);
    var c0 := Cluster([EMPTY, EMPTY], [[], []]);
    var c1 := Next(c0, ClientAdd(0, r, 1, 0));
    assert c1.inbox[1] == [AddMsg(r)] && c1.servers[1] == EMPTY;
    var c2 := Next(c1, ClientDelete(0, r));
    assert c2.inbox[0] == [] && c2.inbox[1] == [AddMsg(r)] + [DeleteMsg(r)] && c2.servers[1] == EMPTY;
    var c3 := Next(c2, Deliver(1, 1));
    assert c3.inbox[1] == [AddMsg(r)] && c3.servers[1] == EMPTY;
    var c4 := Next(c3, Deliver(1, 0));
    assert c4.inbox[1] == [];
  }

  // Two servers whose clients register different records under one ID each keep
  // their own for good, although every notification arrives.
  lemma TwoOwnersDiverge(r: Record, s: Record)
    requires r.id != NIL && r.id == s.id && r != s
    ensures var c0 := Cluster([EMPTY, EMPTY], [[], []]);
            var c2 := Next(Next(c0, ClientAdd(0, r, 1, 0)), ClientAdd(1, s, 1, 0));
            && c2.inbox == [[AddMsg(s)], [AddMsg(r)]]
            && var c4 := Next(Next(c2, Deliver(0, 0)), Deliver(1, 0));
               Quiescent(c4) && c4.servers[0].services == [r] && c4.servers[1].services == [s]
  {
    var c0 := Cluster([EMPTY, EMPTY], [[], []]);
    var c1 := Next(c0, ClientAdd(0, r, 1, 0));
    assert c1.inbox[0] == [] && c1.inbox[1] == [AddMsg(r)] && c1.servers[1] == EMPTY;
    var c2 := Next(c1, ClientAdd(1, s, 1, 0));
    assert c2.inbox[0] == [] + [AddMsg(s)] && c2.inbox[1] == [AddMsg(r)];
    assert c2.servers == [AddLocked(EMPTY, r).view, AddLocked(EMPTY, s).view];
    var c3 := Next(c2, Deliver(0, 0));
    assert c3.inbox == [[], [AddMsg(r)]] && c3.servers == c2.servers;
    var c4 := Next(c3, Deliver(1, 0));
    assert c4.inbox == [[], []] && c4.servers == c2.servers;
  }
}
