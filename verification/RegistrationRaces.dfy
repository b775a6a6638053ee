/**
Registration in two critical sections (discovery/server/server.go): the lookup
that finds a place taken holds the read lock, the storing holds the write lock,
and others may run in between.  The same split lies between the Inform and the
Add message of a connection.
*/
module RegistrationRaces {
  import opened Wrappers
  import opened Registry
  import opened RegistryIdentity
  import Session

  // pending: what lookups have normalized so far, to be stored or not
  datatype Race = Race(view: View, pending: seq<Record>)

  datatype Move = Look(service: Record, uuid: UUID, pick: nat) | Store(k: nat) | Erase(service: Record)

  predicate Enabled(s: Race, m: Move) {
    m.Store? ==> m.k < |s.pending|
  }

  function Next(s: Race, m: Move): Race
    requires Enabled(s, m)
  {
    match m
    case Look(svc, uuid, pick) => s.(pending := s.pending + [Normalize(s.view, svc, uuid, pick).service])
    case Store(k) => s.(view := AddLocked(s.view, s.pending[k]).view)
    case Erase(svc) => s.(view := Delete(s.view, svc).view)
  }

  predicate EnabledRun(s: Race, moves: seq<Move>)
    decreases |moves|
  {
    moves == [] || (Enabled(s, moves[0]) && EnabledRun(Next(s, moves[0]), moves[1..]))
  }

  function RunOf(s: Race, moves: seq<Move>): Race
    requires EnabledRun(s, moves)
    decreases |moves|
  {
    if moves == [] then s else RunOf(Next(s, moves[0]), moves[1..])
  }

  predicate SamePlace(a: Record, b: Record) {
    a.address == b.address && a.typ == b.typ
  }

  // Is storing the record rejected, or its place free?
  predicate Free(v: View, r: Record) {
    r.id in v.ids || forall s :: s in v.services ==> !SamePlace(s, r)
  }

  lemma StoreKeepsPlacesIff(v: View, r: Record)
    requires UniquePlaces(v.services)
    ensures UniquePlaces(AddLocked(v, r).view.services) <==> Free(v, r)
  {
    var w := AddLocked(v, r).view;
    if r.id !in v.ids {
      assert w.services[|v.services|] == r;
      if !Free(v, r) {
        var i :| 0 <= i < |v.services| && SamePlace(v.services[i], r);
        assert w.services[i] == v.services[i];
      } else {
        assert forall i :: 0 <= i < |v.services| ==> v.services[i] in v.services;
      }
    }
  }

  lemma MoveKeepsPlacesIff(s: Race, m: Move)
    requires UniquePlaces(s.view.services) && Enabled(s, m)
    ensures UniquePlaces(Next(s, m).view.services) <==> (m.Store? ==> Free(s.view, s.pending[m.k]))
  {
    match m {
      case Look(_, _, _) =>
      case Store(k) => StoreKeepsPlacesIff(s.view, s.pending[k]);
      case Erase(svc) =>
        var pos := Find(s.view.services, svc);
        if pos != -1 {
          RemoveKeepsPlaces(s.view.services, pos);
        }
    }
  }

  ghost predicate AlwaysUnique(s: Race, moves: seq<Move>)
    requires EnabledRun(s, moves)
    decreases |moves|
  {
    UniquePlaces(s.view.services) && (moves == [] || AlwaysUnique(Next(s, moves[0]), moves[1..]))
  }

  predicate AllFree(s: Race, moves: seq<Move>)
    requires EnabledRun(s, moves)
    decreases |moves|
  {
    moves == []
    || ((moves[0].Store? ==> Free(s.view, s.pending[moves[0].k])) && AllFree(Next(s, moves[0]), moves[1..]))
  }

  // However lookups, stores and deletes interleave, no two stored services share
  // a place in any state of a run exactly when every store that is accepted finds
  // its place free.
  lemma {:induction false} UniquePlacesOverRaces(s: Race, moves: seq<Move>)
    requires EnabledRun(s, moves) && UniquePlaces(s.view.services)
    ensures AlwaysUnique(s, moves) <==> AllFree(s, moves)
    decreases |moves|
  {
    if moves != [] {
      MoveKeepsPlacesIff(s, moves[0]);
      var n := Next(s, moves[0]);
      if UniquePlaces(n.view.services) {
        UniquePlacesOverRaces(n, moves[1..]);
      }
    }
  }

  // ---------- where the two sections come from ----------

  // An Add is a look and, unless that rejects it, a store of what it found.
  lemma AddIsLookThenStore(s: Race, svc: Record, uuid: UUID, pick: nat)
    ensures var looked := Next(s, Look(svc, uuid, pick)); var k := |s.pending|;
            && Add(s.view, svc, uuid, pick).view
               == (if Normalize(s.view, svc, uuid, pick).outcome == Done then Next(looked, Store(k)).view else s.view)
            && (NilRegistered(s.view) && svc.id == NIL && uuid != NIL ==>
                  Normalize(s.view, svc, uuid, pick).outcome != Done || Free(looked.view, looked.pending[k]))
  {
    var looked := Next(s, Look(svc, uuid, pick));
    if NilRegistered(s.view) && svc.id == NIL && uuid != NIL {
      NilAddKeepsPlaces(s.view, svc, uuid, pick);
      StoreKeepsPlacesIff(s.view, looked.pending[|s.pending|]);
    }
  }

  // An Inform looks; the Add message stores what the Inform found, however much
  // later, and looks at no place again.
  lemma InformIsLook(s: Session.State, data: Record, uuid: UUID, pick: nat, pending: seq<Record>)
    requires s.open
    ensures var n := Session.Step(s, Session.Client(Session.Inform(data), uuid, pick));
            var looked := Next(Race(s.view, pending), Look(data, uuid, pick));
            n.view == looked.view && n.svc == Some(looked.pending[|pending|])
  {
  }

  lemma AddInformedIsStore(s: Session.State, uuid: UUID, pick: nat, pending: seq<Record>, k: nat)
    requires s.open && k < |pending| && s.svc == Some(pending[k]) && pending[k].id != NIL
    ensures var n := Session.Step(s, Session.Client(Session.AddInformed, uuid, pick));
            n.view == Next(Race(s.view, pending), Store(k)).view && n.svc == s.svc
  {
  }

  // Two registrations of one place that both look before either stores are both
  // accepted.
  lemma RacingRegistrationsDuplicate(svc: Record, a: UUID, b: UUID)
    requires svc.id == NIL && a != NIL && b != NIL && a != b
    ensures var first, second := Normalize(EMPTY, svc, a, 0), Normalize(EMPTY, svc, b, 0);
            && first.outcome == Done && second.outcome == Done
            && var v := AddLocked(AddLocked(EMPTY, first.service).view, second.service).view;
               !UniquePlaces(v.services)
  {
    var first, second := svc.(id := a), svc.(id := b);
    var services := AddLocked(AddLocked(EMPTY, first).view, second).view.services;
    assert services[0] == first && services[1] == second;
  }

  // ---------- connections ----------

  // Connections share the registry; a turn is a message on one of them or its close.
  datatype Connection = Connection(svc: Option<Record>, open: bool)

  datatype Shared = Shared(view: View, connections: seq<Connection>)

  datatype Turn = Turn(at: nat, event: Option<Session.Event>)

  function StateAt(c: Shared, at: nat): Session.State
    requires at < |c.connections|
  {
    Session.State(c.view, c.connections[at].svc, c.connections[at].open)
  }

  function Take(c: Shared, t: Turn): (d: Shared)
    requires t.at < |c.connections|
    ensures |d.connections| == |c.connections|
  {
    if t.event == None then
      Shared(Session.Close(StateAt(c, t.at)), c.connections[t.at := Connection(None, false)])
    else
      var n := Session.Step(StateAt(c, t.at), t.event.value);
      Shared(n.view, c.connections[t.at := Connection(n.svc, n.open)])
  }

  // the registration that a turn attempts
  function Attempt(s: Session.State, e: Option<Session.Event>): Option<Op> {
    match e
    case Some(Other(OpAdd(svc, uuid, pick))) => Some(OpAdd(svc, uuid, pick))
    case Some(Client(AddInformed, uuid, pick)) =>
      if s.open && s.svc != None then Some(OpAdd(s.svc.value, uuid, pick)) else None
    case _ => None
  }

  // the service that a turn deletes
  function Erased(s: Session.State, e: Option<Session.Event>): Option<Record> {
    match e
    case Some(Other(OpDelete(svc))) => Some(svc)
    case Some(Client(DeleteInformed, _, _)) => if s.open then s.svc else None
    case None => if s.open then s.svc else None
    case _ => None
  }

  // A registration that is accepted finds its place free.
  predicate FindsFree(c: Shared, t: Turn)
    requires t.at < |c.connections|
  {
    var op := Attempt(StateAt(c, t.at), t.event);
    op != None ==>
      var m := Add(c.view, op.value.service, op.value.uuid, op.value.pick);
      m.outcome == Done ==> forall s :: s in c.view.services ==> !SamePlace(s, m.service)
  }

  lemma TurnKeepsPlacesIff(c: Shared, t: Turn)
    requires t.at < |c.connections| && UniquePlaces(c.view.services)
    ensures UniquePlaces(Take(c, t).view.services) <==> FindsFree(c, t)
  {
    var erased, op := Erased(StateAt(c, t.at), t.event), Attempt(StateAt(c, t.at), t.event);
    if erased != None {
      MoveKeepsPlacesIff(Race(c.view, []), Erase(erased.value));
    }
    if op != None {
      StoreKeepsPlacesIff(c.view, Normalize(c.view, op.value.service, op.value.uuid, op.value.pick).service);
    }
  }

  predicate Turns(n: nat, turns: seq<Turn>) {
    forall t :: t in turns ==> t.at < n
  }

  ghost predicate AlwaysUniqueAmong(c: Shared, turns: seq<Turn>)
    requires Turns(|c.connections|, turns)
    decreases |turns|
  {
    && UniquePlaces(c.view.services)
    && (turns == [] || (assert turns[0] in turns; AlwaysUniqueAmong(Take(c, turns[0]), turns[1..])))
  }

  predicate AllFindFree(c: Shared, turns: seq<Turn>)
    requires Turns(|c.connections|, turns)
    decreases |turns|
  {
    turns == []
    || (assert turns[0] in turns; FindsFree(c, turns[0]) && AllFindFree(Take(c, turns[0]), turns[1..]))
  }

  // However the messages of any number of connections interleave, places stay
  // unique exactly when every accepted registration finds its place free.
  lemma {:induction false} UniquePlacesAmongConnections(c: Shared, turns: seq<Turn>)
    requires Turns(|c.connections|, turns) && UniquePlaces(c.view.services)
    ensures AlwaysUniqueAmong(c, turns) <==> AllFindFree(c, turns)
    decreases |turns|
  {
    if turns != [] {
      assert turns[0] in turns;
      TurnKeepsPlacesIff(c, turns[0]);
      if FindsFree(c, turns[0]) {
        UniquePlacesAmongConnections(Take(c, turns[0]), turns[1..]);
      }
    }
  }

  // ---------- connections race ----------

  // What a connection has informed is pending.
  ghost predicate InformedPending(c: Shared, pending: seq<Record>) {
    forall i :: 0 <= i < |c.connections| && c.connections[i].svc != None ==> c.connections[i].svc.value in pending
  }

  lemma OneMove(s: Race, m: Move) returns (moves: seq<Move>)
    requires Enabled(s, m)
    ensures EnabledRun(s, moves) && RunOf(s, moves) == Next(s, m)
  {
    moves := [m];
    assert moves[1..] == [];
    assert EnabledRun(Next(s, m), moves[1..]);
  }

  lemma TwoMoves(s: Race, l: Move, m: Move) returns (moves: seq<Move>)
    requires Enabled(s, l) && Enabled(Next(s, l), m)
    ensures EnabledRun(s, moves) && RunOf(s, moves) == Next(Next(s, l), m)
  {
    var rest := OneMove(Next(s, l), m);
    moves := [l] + rest;
    assert moves[1..] == rest;
  }

  lemma AddIsMoves(s: Race, svc: Record, uuid: UUID, pick: nat) returns (moves: seq<Move>)
    ensures EnabledRun(s, moves)
    ensures var m := Add(s.view, svc, uuid, pick);
            RunOf(s, moves) == Race(m.view, s.pending + [m.service])
  {
    AddIsLookThenStore(s, svc, uuid, pick);
    if Normalize(s.view, svc, uuid, pick).outcome == Done {
      moves := TwoMoves(s, Look(svc, uuid, pick), Store(|s.pending|));
    } else {
      moves := OneMove(s, Look(svc, uuid, pick));
    }
  }

  // The Inform of a connection is a look, its Add message a store, a delete or the
  // close an erasure.
  lemma MessageIsMoves(s: Session.State, e: Session.Event, pending: seq<Record>) returns (moves: seq<Move>)
    requires s.svc != None ==> s.svc.value in pending
    ensures EnabledRun(Race(s.view, pending), moves)
    ensures var n, r := Session.Step(s, e), RunOf(Race(s.view, pending), moves);
            r.view == n.view && pending <= r.pending && (n.svc != None ==> n.svc.value in r.pending)
  {
    var race := Race(s.view, pending);
    moves := [];
    match e {
      case Other(OpAdd(svc, uuid, pick)) => moves := AddIsMoves(race, svc, uuid, pick);
      case Other(OpDelete(svc)) => moves := OneMove(race, Erase(svc));
      case Client(Inform(data), uuid, pick) =>
        if s.open {
          InformIsLook(s, data, uuid, pick, pending);
          moves := OneMove(race, Look(data, uuid, pick));
        }
      case Client(AddInformed, uuid, pick) =>
        if s.open && s.svc != None {
          if s.svc.value.id == NIL {
            moves := AddIsMoves(race, s.svc.value, uuid, pick);
          } else {
            var k: nat :| k < |pending| && pending[k] == s.svc.value;
            AddInformedIsStore(s, uuid, pick, pending, k);
            moves := OneMove(race, Store(k));
          }
        }
      case Client(DeleteInformed, _, _) =>
        if s.open && s.svc != None {
          moves := OneMove(race, Erase(s.svc.value));
        }
      case Client(_, _, _) =>
    }
  }

  lemma TurnIsMoves(c: Shared, t: Turn, pending: seq<Record>) returns (moves: seq<Move>)
    requires t.at < |c.connections| && InformedPending(c, pending)
    ensures EnabledRun(Race(c.view, pending), moves)
    ensures var r := RunOf(Race(c.view, pending), moves);
            r.view == Take(c, t).view && InformedPending(Take(c, t), r.pending)
  {
    var s := StateAt(c, t.at);
    if t.event != None {
      moves := MessageIsMoves(s, t.event.value, pending);
    } else if s.open && s.svc != None {
      moves := OneMove(Race(c.view, pending), Erase(s.svc.value));
    } else {
      moves := [];
    }
  }

  lemma {:induction false} MovesConcat(s: Race, a: seq<Move>, b: seq<Move>)
    requires EnabledRun(s, a) && EnabledRun(RunOf(s, a), b)
    ensures EnabledRun(s, a + b) && RunOf(s, a + b) == RunOf(RunOf(s, a), b)
    decreases |a|
  {
    if a == [] {
      assert a + b == b;
    } else {
      assert (a + b)[0] == a[0] && (a + b)[1..] == a[1..] + b;
      MovesConcat(Next(s, a[0]), a[1..], b);
    }
  }

  function TakeAll(c: Shared, turns: seq<Turn>): Shared
    requires Turns(|c.connections|, turns)
    decreases |turns|
  {
    if turns == [] then c else (assert turns[0] in turns; TakeAll(Take(c, turns[0]), turns[1..]))
  }

  // Whatever any number of connections do is a run of lookups, stores and deletes.
  lemma {:induction false} ConnectionsRace(c: Shared, turns: seq<Turn>, pending: seq<Record>) returns (moves: seq<Move>)
    requires Turns(|c.connections|, turns) && InformedPending(c, pending)
    ensures EnabledRun(Race(c.view, pending), moves)
    ensures RunOf(Race(c.view, pending), moves).view == TakeAll(c, turns).view
    decreases |turns|
  {
    if turns == [] {
      moves := [];
    } else {
      assert turns[0] in turns;
      var first := TurnIsMoves(c, turns[0], pending);
      var r := RunOf(Race(c.view, pending), first);
      var rest := ConnectionsRace(Take(c, turns[0]), turns[1..], r.pending);
      MovesConcat(Race(c.view, pending), first, rest);
      moves := first + rest;
    }
  }
}
