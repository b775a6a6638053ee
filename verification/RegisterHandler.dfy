/**
HandleRegister on the heap-level server (discovery/server/server.go): the loop
that keeps the informed service in a variable, proved against module Session.
*/
module RegisterHandler {
  import opened Wrappers
  import opened Registry
  import opened Discovery
  import Replication
  import Session

  // The variable svc shows the session's informed service; it is not stored
  // before it has an ID.
  ghost predicate InformedIs(server: Server, svc: Service?, informed: Option<Record>)
    reads server, svc
  {
    && (svc == null <==> informed == None)
    && (svc != null ==> Some(svc.Rec()) == informed && svc.CacheValid() && (svc.id == NIL ==> svc !in server.objects))
  }

  // One read of the loop: a client message on this connection.
  method HandleMessage(server: Server, svc: Service?, e: Session.Event, ghost s: Session.State)
    returns (next: Service?, reply: Session.Reply, notice: Option<Replication.Msg>, panicked: bool)
    requires server.Valid() && server.view == s.view && InformedIs(server, svc, s.svc) && s.open
    requires e.Client? && e.uuid != NIL
    modifies server, server.bufs, server.objects`tagIndex, server.objects`tagIndexed
    modifies if svc == null then {} else {svc}
    ensures server.Valid() && server.bufs >= old(server.bufs) && fresh(server.bufs - old(server.bufs))
    ensures server.objects <= old(server.objects) + if next == null then {} else {next}
    ensures next == svc || next == null || fresh(next)
    ensures server.view == Session.Step(s, e).view && InformedIs(server, next, Session.Step(s, e).svc)
    ensures panicked <==> !Session.Step(s, e).open
    ensures !panicked ==> reply == Session.Answer(s, e.msg, e.uuid, e.pick)
    ensures notice == Session.Notice(s, e)
  {
    next, notice, panicked := svc, None, false;
    match e.msg {
      case Noop => reply := Session.Reply(true, false, None);
      case AddInformed =>
        if svc == null {
          reply := Session.Reply(false, false, None);
        } else {
          var outcome := server.Add(svc, e.uuid, e.pick);
          reply := Session.Reply(outcome == Done, false, None);
          notice := if outcome == Done then Some(Replication.AddMsg(svc.Rec())) else None;
        }
      case DeleteInformed =>
        if svc == null {
          reply := Session.Reply(false, false, None);
        } else {
          var outcome := server.Delete(svc);
          panicked := outcome == Panicked;
          reply := Session.Reply(outcome == Done, false, None);
          notice := if outcome == Done then Some(Replication.DeleteMsg(svc.Rec())) else None;
        }
      case Inform(data) =>
        next := new Service(data);
        var outcome := server.NormalizeService(next, e.uuid, e.pick);
        reply := Session.Reply(true, false, Some(next.Rec()));
      case InformNull =>
        next, panicked := null, true;
        reply := Session.Reply(false, false, None);
      case Has =>
        reply := Session.Reply(svc != null, svc != null && svc.id in server.uniqueness, None);
      case Unknown => reply := Session.Reply(false, false, None);
      case Malformed => reply := Session.Reply(false, false, None);
    }
  }

  // A call that another connection makes between two reads.
  method HandleOther(server: Server, op: Op)
    requires server.Valid() && ValidOp(op)
    modifies server, server.bufs, server.objects`tagIndex, server.objects`tagIndexed
    ensures server.Valid() && server.bufs >= old(server.bufs) && fresh(server.bufs - old(server.bufs))
    ensures server.objects >= old(server.objects) && fresh(server.objects - old(server.objects))
    ensures server.view == Apply(old(server.view), op)
  {
    var service := new Service(op.service);
    match op {
      case OpAdd(_, uuid, pick) =>
        var outcome := server.Add(service, uuid, pick);
      case OpDelete(_) =>
        var outcome := server.Delete(service);
    }
  }

  // The end of the connection.
  method HandleClose(server: Server, svc: Service?, ghost s: Session.State) returns (notices: seq<Replication.Msg>)
    requires server.Valid() && server.view == s.view && (s.open ==> InformedIs(server, svc, s.svc))
    requires !s.open ==> svc == null
    modifies server, server.bufs
    ensures server.Valid() && server.view == Session.Close(s)
    ensures notices == Session.Sent(Session.CloseNotice(s))
  {
    notices := [];
    if svc != null {
      var outcome := server.Delete(svc);
      if outcome == Done {
        notices := [Replication.DeleteMsg(svc.Rec())];
      }
    }
  }

  // the answer to an event, if there is one
  ghost function Answered(s: Session.State, e: Session.Event): seq<Session.Reply> {
    if e.Client? && s.open && Session.Step(s, e).open then [Session.Answer(s, e.msg, e.uuid, e.pick)] else []
  }

  // What the handler has said after the first k events, and where the session is.
  ghost predicate SoFar(start: Session.State, events: seq<Session.Event>, k: nat, s: Session.State,
                        replies: seq<Session.Reply>, notices: seq<Replication.Msg>)
    requires k <= |events|
  {
    s == Session.Run(start, events[..k]) && replies == Session.Answers(start, events[..k])
    && notices == Session.Notices(start, events[..k])
  }

  lemma OneMore(start: Session.State, events: seq<Session.Event>, k: nat, s: Session.State,
                replies: seq<Session.Reply>, notices: seq<Replication.Msg>)
    requires k < |events| && SoFar(start, events, k, s, replies, notices)
    ensures SoFar(start, events, k + 1, Session.Step(s, events[k]), replies + Answered(s, events[k]),
                  notices + Session.Sent(Session.Notice(s, events[k])))
  {
    assert events[..k + 1][..k] == events[..k];
  }

  lemma All(start: Session.State, events: seq<Session.Event>, s: Session.State,
            replies: seq<Session.Reply>, notices: seq<Replication.Msg>)
    requires SoFar(start, events, |events|, s, replies, notices)
    ensures s == Session.Run(start, events) && replies == Session.Answers(start, events)
    ensures notices == Session.Notices(start, events)
  {
    assert events[..|events|] == events;
  }

  // One turn of the loop, or a call of another connection.
  method HandleEvent(server: Server, svc: Service?, open: bool, e: Session.Event, ghost s: Session.State)
    returns (next: Service?, still: bool, replies: seq<Session.Reply>, notices: seq<Replication.Msg>)
    requires server.Valid() && server.view == s.view && s.open == open && (open ==> InformedIs(server, svc, s.svc))
    requires Session.ValidEvent(e)
    modifies server, server.bufs, server.objects`tagIndex, server.objects`tagIndexed
    modifies if svc == null then {} else {svc}
    ensures server.Valid() && server.bufs >= old(server.bufs) && fresh(server.bufs - old(server.bufs))
    ensures next == svc || next == null || fresh(next)
    ensures forall o :: o in server.objects ==> o in old(server.objects) || o == next || fresh(o)
    ensures server.view == Session.Step(s, e).view && still == Session.Step(s, e).open
    ensures still ==> InformedIs(server, next, Session.Step(s, e).svc)
    ensures replies == Answered(s, e) && notices == Session.Sent(Session.Notice(s, e))
  {
    next, still, replies, notices := svc, open, [], [];
    match e {
      case Other(op) => HandleOther(server, op);
      case Client(_, _, _) =>
        if open {
          var reply, notice, panicked;
          next, reply, notice, panicked := HandleMessage(server, svc, e, s);
          still := !panicked;
          notices := Session.Sent(notice);
          if still {
            replies := [reply];
          }
        }
    }
  }

  // The handler from the first read to the close of the connection.
  method HandleRegister(server: Server, events: seq<Session.Event>)
    returns (replies: seq<Session.Reply>, notices: seq<Replication.Msg>)
    requires server.Valid() && forall e :: e in events ==> Session.ValidEvent(e)
    modifies server, server.bufs, server.objects`tagIndex, server.objects`tagIndexed
    ensures server.Valid()
    ensures var start := Session.State(old(server.view), None, true);
            && server.view == Session.Close(Session.Run(start, events))
            && replies == Session.Answers(start, events)
            && notices == Session.Notices(start, events) + Session.Sent(Session.CloseNotice(Session.Run(start, events)))
  {
    ghost var start := Session.State(server.view, None, true);
    ghost var s := start;
    var svc: Service? := null;
    var open := true;
    replies, notices := [], [];
    for k := 0 to |events|
      invariant server.Valid() && fresh(server.bufs - old(server.bufs)) && fresh(server.objects - old(server.objects))
      invariant svc == null || fresh(svc)
      invariant SoFar(start, events, k, s, replies, notices) && s.view == server.view && s.open == open
      invariant open ==> InformedIs(server, svc, s.svc)
    {
      OneMore(start, events, k, s, replies, notices);
      assert events[k] in events;
      var more, told;
      svc, open, more, told := HandleEvent(server, svc, open, events[k], s);
      replies, notices := replies + more, notices + told;
      s := Session.Step(s, events[k]);
    }
    All(start, events, s, replies, notices);
    var last := HandleClose(server, if open then svc else null, s);
    notices := notices + last;
  }
}
