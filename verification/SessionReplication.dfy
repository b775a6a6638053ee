/**
Connections in a cluster: what the handler of a connection does at a server and
tells its peers is what the cluster makes of the calls of a client.
*/
module SessionReplication {
  import opened Wrappers
  import opened Registry
  import opened Replication
  import Session

  // one notification more for every peer, or none
  function Told(inbox: seq<seq<Msg>>, at: nat, m: Option<Msg>): seq<seq<Msg>> {
    if m == None then inbox else Notify(inbox, at, m.value)
  }

  ghost predicate At(c: Cluster, at: nat, s: Session.State) {
    WellFormed(c) && at < |c.servers| && c.servers[at] == s.view
  }

  // The Add message of a connection is a client's add of the informed service, its
  // Delete message and its close are a client's delete: the same view, and a
  // notification to every peer exactly when the cluster sends one.
  lemma AddInformedIsClientAdd(c: Cluster, at: nat, s: Session.State, a: Record, uuid: UUID, pick: nat)
    requires At(c, at, s) && s.open && s.svc == Some(a) && uuid != NIL
    ensures var e := Session.Client(Session.AddInformed, uuid, pick);
            Next(c, ClientAdd(at, a, uuid, pick))
            == Cluster(c.servers[at := Session.Step(s, e).view],
                       match Session.Notice(s, e)
                       case Some(m) => Notify(c.inbox, at, m)
                       case None => c.inbox)
  {
  }

  lemma DeleteInformedIsClientDelete(c: Cluster, at: nat, s: Session.State, a: Record, uuid: UUID, pick: nat)
    requires At(c, at, s) && s.open && s.svc == Some(a)
    ensures var e := Session.Client(Session.DeleteInformed, uuid, pick);
            Next(c, ClientDelete(at, a))
            == Cluster(c.servers[at := Session.Step(s, e).view],
                       match Session.Notice(s, e)
                       case Some(m) => Notify(c.inbox, at, m)
                       case None => c.inbox)
  {
  }

  lemma CloseIsClientDelete(c: Cluster, at: nat, s: Session.State, a: Record)
    requires At(c, at, s) && s.open && s.svc == Some(a)
    ensures Next(c, ClientDelete(at, a))
            == Cluster(c.servers[at := Session.Close(s)],
                       match Session.CloseNotice(s)
                       case Some(m) => Notify(c.inbox, at, m)
                       case None => c.inbox)
  {
  }

  // No other message, and none without an informed service, changes the registry
  // or tells anyone anything.
  lemma OtherMessagesAreSilent(s: Session.State, e: Session.Event)
    requires e.Client?
    requires s.open && s.svc != None ==> !e.msg.AddInformed? && !e.msg.DeleteInformed?
    ensures Session.Step(s, e).view == s.view && Session.Notice(s, e) == None
    ensures !s.open || s.svc == None ==> Session.Close(s) == s.view && Session.CloseNotice(s) == None
  {
  }

  // the client's step that a message comes to, if it comes to one
  function ClientStep(at: nat, s: Session.State, e: Session.Event): Option<Step>
    requires e.Client?
  {
    if !s.open || s.svc == None then None
    else match e.msg
      case AddInformed => Some(ClientAdd(at, s.svc.value, e.uuid, e.pick))
      case DeleteInformed => Some(ClientDelete(at, s.svc.value))
      case _ => None
  }

  lemma MessageIsClientStep(c: Cluster, at: nat, s: Session.State, e: Session.Event)
    requires At(c, at, s) && e.Client? && e.uuid != NIL
    ensures var n := Cluster(c.servers[at := Session.Step(s, e).view], Told(c.inbox, at, Session.Notice(s, e)));
            match ClientStep(at, s, e)
            case Some(step) => Enabled(c, step) && Next(c, step) == n
            case None => n == c
  {
    if s.open && s.svc != None && e.msg.AddInformed? {
      AddInformedIsClientAdd(c, at, s, s.svc.value, e.uuid, e.pick);
    } else if s.open && s.svc != None && e.msg.DeleteInformed? {
      DeleteInformedIsClientDelete(c, at, s, s.svc.value, e.uuid, e.pick);
    } else {
      OtherMessagesAreSilent(s, e);
      assert c.servers[at := s.view] == c.servers;
    }
  }

  lemma {:induction false} RunSnoc(c: Cluster, steps: seq<Step>, step: Step)
    requires WellFormed(c) && EnabledRun(c, steps) && Enabled(RunOf(c, steps), step)
    ensures EnabledRun(c, steps + [step]) && RunOf(c, steps + [step]) == Next(RunOf(c, steps), step)
    decreases |steps|
  {
    if steps == [] {
      assert steps + [step] == [step] && [step][1..] == [];
      assert EnabledRun(Next(c, step), [step][1..]);
    } else {
      assert (steps + [step])[0] == steps[0] && (steps + [step])[1..] == steps[1..] + [step];
      RunSnoc(Next(c, steps[0]), steps[1..], step);
    }
  }

  // every peer's inbox has grown by the messages
  ghost predicate Grown(c: Cluster, e: Cluster, at: nat, v: View, msgs: seq<Msg>) {
    && WellFormed(c) && WellFormed(e) && at < |c.servers| && |e.servers| == |c.servers|
    && e.servers == c.servers[at := v]
    && forall p :: 0 <= p < |c.inbox| ==> e.inbox[p] == c.inbox[p] + if p == at then [] else msgs
  }

  lemma GrownByOne(c: Cluster, e: Cluster, at: nat, v: View, w: View, msgs: seq<Msg>, m: Option<Msg>)
    requires Grown(c, e, at, v, msgs)
    ensures Grown(c, Cluster(e.servers[at := w], Told(e.inbox, at, m)), at, w, msgs + Session.Sent(m))
  {
    var n := Cluster(e.servers[at := w], Told(e.inbox, at, m));
    forall p | 0 <= p < |c.inbox|
      ensures n.inbox[p] == c.inbox[p] + if p == at then [] else msgs + Session.Sent(m)
    {
      assert m == None ==> msgs + Session.Sent(m) == msgs;
      assert p != at && m != None ==> (c.inbox[p] + msgs) + [m.value] == c.inbox[p] + (msgs + [m.value]);
    }
  }

  // A whole connection on a server of the cluster, its messages and its close, is a
  // run of client calls at that server: it leaves the view that the handler leaves,
  // and every peer is sent what the handler says, in that order.
  lemma {:induction false} ConnectionIsClient(c: Cluster, at: nat, s: Session.State, events: seq<Session.Event>)
    returns (steps: seq<Step>)
    requires At(c, at, s) && forall e :: e in events ==> e.Client? && e.uuid != NIL
    ensures EnabledRun(c, steps)
    ensures Grown(c, RunOf(c, steps), at, Session.Run(s, events).view, Session.Notices(s, events))
    decreases |events|
  {
    steps := [];
    if events != [] {
      var before, e := events[..|events| - 1], events[|events| - 1];
      assert e in events;
      steps := ConnectionIsClient(c, at, s, before);
      var now, b := Session.Run(s, before), RunOf(c, steps);
      MessageIsClientStep(b, at, now, e);
      GrownByOne(c, b, at, now.view, Session.Step(now, e).view, Session.Notices(s, before), Session.Notice(now, e));
      match ClientStep(at, now, e) {
        case Some(step) =>
          RunSnoc(c, steps, step);
          steps := steps + [step];
        case None =>
      }
    }
  }

  lemma ClosedConnectionIsClient(c: Cluster, at: nat, s: Session.State, events: seq<Session.Event>)
    returns (steps: seq<Step>)
    requires At(c, at, s) && forall e :: e in events ==> e.Client? && e.uuid != NIL
    ensures EnabledRun(c, steps)
    ensures var last := Session.Run(s, events);
            Grown(c, RunOf(c, steps), at, Session.Close(last),
                  Session.Notices(s, events) + Session.Sent(Session.CloseNotice(last)))
  {
    steps := ConnectionIsClient(c, at, s, events);
    var last, b := Session.Run(s, events), RunOf(c, steps);
    GrownByOne(c, b, at, last.view, Session.Close(last), Session.Notices(s, events), Session.CloseNotice(last));
    if last.open && last.svc != None {
      CloseIsClientDelete(b, at, last, last.svc.value);
      RunSnoc(c, steps, ClientDelete(at, last.svc.value));
      steps := steps + [ClientDelete(at, last.svc.value)];
    } else {
      assert b.servers[at := last.view] == b.servers;
    }
  }
}
