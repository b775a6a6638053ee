/**
The handlers of one-shot requests on the heap-level server
(discovery/server/server.go): mutations by clients, which the peers are told
of, and requests by peers, whose mutations go no further.
*/
module PeerHandler {
  import opened Wrappers
  import opened Registry
  import opened Discovery
  import opened Replication

  // data and delta are None where the request says null
  datatype Operation =
    | AddOperation(delta: Option<Record>)
    | DeleteOperation(delta: Option<Record>)
    | NoopOperation
    | ListOperation
    | PeersOperation
    | UnknownOperation

  datatype PeerRequest = PeerRequest(id: UUID, address: string, operation: Operation)

  // Crashed: the handler panicked and nothing is answered
  datatype Response =
    | Status(code: nat)
    | Crashed
    | Answer(success: bool, services: seq<Service>, peers: seq<string>)

  datatype PeerOutcome = PeerAdded | PeerAlreadyExists | PeerFailed

  // HandleAdd: notice is what every peer is sent.
  method HandleAdd(server: Server, data: Option<Record>, uuid: UUID, pick: nat)
    returns (outcome: Outcome, service: Service?, notice: Option<Msg>)
    requires server.Valid()
    modifies server, server.bufs, server.objects`tagIndex, server.objects`tagIndexed
    ensures server.Valid() && server.bufs >= old(server.bufs) && fresh(server.bufs - old(server.bufs))
    ensures service == null <==> data == None
    ensures data == None ==> outcome == Panicked && server.view == old(server.view)
    ensures data != None ==>
              && fresh(service) && server.objects == old(server.objects) + (if outcome == Done then {service} else {})
              && Mutation(server.view, service.Rec(), outcome) == Add(old(server.view), data.value, uuid, pick)
    ensures notice == if outcome == Done then Some(AddMsg(service.Rec())) else None
  {
    if data == None {
      return Panicked, null, None;
    }
    service := new Service(data.value);
    outcome := server.Add(service, uuid, pick);
    notice := if outcome == Done then Some(AddMsg(service.Rec())) else None;
  }

  // Without a service to look for, the search panics at the first element.
  method HandleDelete(server: Server, data: Option<Record>) returns (outcome: Outcome, notice: Option<Msg>)
    requires server.Valid()
    modifies server, server.bufs, server.objects`tagIndex, server.objects`tagIndexed
    ensures server.Valid() && server.bufs == old(server.bufs) && server.objects == old(server.objects)
    ensures data == None ==>
              && server.view == old(server.view) && notice == None
              && outcome == if server.view.services == [] then Failed(ServiceDoesNotExist) else Panicked
    ensures data != None ==>
              && Mutation(server.view, data.value, outcome) == Delete(old(server.view), data.value)
              && notice == if outcome == Done then Some(DeleteMsg(data.value)) else None
  {
    if data == None {
      outcome := if server.services.len == 0 then Failed(ServiceDoesNotExist) else Panicked;
      return outcome, None;
    }
    var service := new Service(data.value);
    outcome := server.Delete(service);
    notice := if outcome == Done then Some(DeleteMsg(data.value)) else None;
  }

  class Node {
    const id: UUID
    const server: Server
    var peers: seq<string>

    constructor (id: UUID, server: Server)
      ensures this.id == id && this.server == server && peers == []
    {
      this.id, this.server, peers := id, server, [];
    }

    method HasPeer(address: string) returns (has: bool)
      ensures has <==> address in peers
    {
      for k := 0 to |peers|
        invariant address !in peers[..k]
      {
        if peers[k] == address {
          return true;
        }
      }
      return false;
    }

    // inform: send the new peer a noop request, which makes this node its peer;
    // answered: how that request ends.  The address stays a peer if it fails.
    method AddPeer(address: string, inform: bool, answered: bool) returns (r: PeerOutcome, asked: Option<string>)
      modifies this
      ensures r == PeerAlreadyExists <==> address in old(peers)
      ensures peers == if address in old(peers) then old(peers) else old(peers) + [address]
      ensures asked == if inform && address !in old(peers) then Some(address) else None
      ensures r == PeerFailed <==> asked != None && !answered
    {
      var known := HasPeer(address);
      if known {
        return PeerAlreadyExists, None;
      }
      peers := peers + [address];
      if inform {
        return if answered then PeerAdded else PeerFailed, Some(address);
      }
      return PeerAdded, None;
    }

    function Answered(outcome: Outcome, harmless: Error): Response {
      if outcome == Panicked then Crashed else Answer(outcome == Done || outcome == Failed(harmless), [], [])
    }

    // Refused requests change nothing; any other makes its sender a peer first.
    // An add that is already known and a delete of what is already gone count as
    // success.
    method HandlePeer(req: PeerRequest, uuid: UUID, pick: nat) returns (r: Response)
      requires server.Valid()
      modifies this, server, server.bufs, server.objects`tagIndex, server.objects`tagIndexed
      ensures server.Valid() && server.bufs >= old(server.bufs) && fresh(server.bufs - old(server.bufs))
      ensures req.id == NIL || req.address == "" ==> r == Status(500)
      ensures req.id != NIL && req.address != "" && req.id == id ==> r == Status(400)
      ensures r.Status? ==> server.view == old(server.view) && peers == old(peers)
      ensures r.Status? ==> req.id == NIL || req.address == "" || req.id == id
      ensures !r.Status? ==>
                peers == if req.address in old(peers) then old(peers) else old(peers) + [req.address]
      // a mutation of a service with an ID, as a notification carries it
      ensures !r.Status? ==>
                match req.operation
                case AddOperation(Some(svc)) =>
                  && server.view == Add(old(server.view), svc, uuid, pick).view
                  && (svc.id != NIL ==> server.view == Receive(old(server.view), AddMsg(svc)))
                case DeleteOperation(Some(svc)) => server.view == Receive(old(server.view), DeleteMsg(svc))
                case _ => server.view == old(server.view)
      ensures !r.Status? ==>
                match req.operation
                case AddOperation(None) => r.Crashed?
                case DeleteOperation(None) =>
                  if server.view.services == [] then r == Answer(true, [], []) else r.Crashed?
                case DeleteOperation(Some(svc)) =>
                  if Delete(old(server.view), svc).outcome == Panicked then r.Crashed? else r == Answer(true, [], [])
                case ListOperation =>
                  r.Answer? && r.success && Shows(r.services, server.view.services) && r.peers == []
                case PeersOperation => r == Answer(true, [], peers)
                case UnknownOperation => r == Answer(false, [], [])
                case _ => r == Answer(true, [], [])
    {
      if req.id == NIL || req.address == "" {
        return Status(500);
      }
      if req.id == id {
        return Status(400);
      }
      var added, asked := AddPeer(req.address, false, false);
      match req.operation {
        case AddOperation(delta) =>
          var outcome, service, notice := HandleAdd(server, delta, uuid, pick);
          r := Answered(outcome, ServiceAlreadyExists);
        case DeleteOperation(delta) =>
          var outcome, notice := HandleDelete(server, delta);
          r := Answered(outcome, ServiceDoesNotExist);
        case NoopOperation => r := Answer(true, [], []);
        case ListOperation => r := Answer(true, Elems(server.services), []);
        case PeersOperation => r := Answer(true, [], peers);
        case UnknownOperation => r := Answer(false, [], []);
      }
    }
  }
}
