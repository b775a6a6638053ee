/**
The per-connection session of HandleRegister (discovery/server/server.go) as a
machine over client messages, interleaved with the calls of other connections.
*/
module Session {
  import opened Wrappers
  import opened Registry
  import opened RegistryIndex
  import opened RegistryIdentity
  import Replication

  datatype Message =
    | Noop
    | AddInformed
    | DeleteInformed
    | Inform(data: Record)
      // data is null: no service object, and a panic in its normalization
    | InformNull
    | Has
    | Unknown
    | Malformed

  // uuid and pick are the randomness that the message may consume.
  datatype Event = Client(msg: Message, uuid: UUID, pick: nat) | Other(op: Op)

  // open is false once a panic has ended the handler.
  datatype State = State(view: View, svc: Option<Record>, open: bool)

  datatype Reply = Reply(success: bool, has: bool, service: Option<Record>)

  predicate ValidEvent(e: Event) {
    match e
    case Client(_, uuid, _) => uuid != NIL
    case Other(op) => ValidOp(op)
  }

  function Step(s: State, e: Event): State {
    match e
    case Other(op) => s.(view := Apply(s.view, op))
    case Client(msg, uuid, pick) =>
      if !s.open then s
      else match msg
        case Inform(data) => s.(svc := Some(Normalize(s.view, data, uuid, pick).service))
        case InformNull => s.(svc := None, open := false)
        case AddInformed =>
          if s.svc == None then s
          else
            var m := Add(s.view, s.svc.value, uuid, pick);
            s.(view := m.view, svc := Some(m.service))
        case DeleteInformed =>
          if s.svc == None then s
          else
            var m := Delete(s.view, s.svc.value);
            s.(view := m.view, open := m.outcome != Panicked)
        case _ => s
  }

  // The answer to a message received in state s; a null Inform gets none.
  function Answer(s: State, msg: Message, uuid: UUID, pick: nat): Reply {
    match msg
    case Noop => Reply(true, false, None)
    case AddInformed =>
      Reply(s.svc != None && Add(s.view, s.svc.value, uuid, pick).outcome == Done, false, None)
    case DeleteInformed =>
      Reply(s.svc != None && Delete(s.view, s.svc.value).outcome == Done, false, None)
    case Inform(data) => Reply(true, false, Some(Normalize(s.view, data, uuid, pick).service))
    case InformNull => Reply(false, false, None)
    case Has => Reply(s.svc != None, s.svc != None && s.svc.value.id in s.view.ids, None)
    case Unknown => Reply(false, false, None)
    case Malformed => Reply(false, false, None)
  }

  function Run(s: State, events: seq<Event>): State {
    if events == [] then s else Step(Run(s, events[..|events| - 1]), events[|events| - 1])
  }

  // The answers sent; a message whose handling panics gets none.
  function Answers(s: State, events: seq<Event>): seq<Reply> {
    if events == [] then []
    else
      var before, e := events[..|events| - 1], events[|events| - 1];
      var now := Run(s, before);
      Answers(s, before)
      + if e.Client? && now.open && Step(now, e).open then [Answer(now, e.msg, e.uuid, e.pick)] else []
  }

  // Losing the connection deletes the informed service.  A handler that has
  // panicked deletes nothing.
  function Close(s: State): View {
    if s.open && s.svc != None then Delete(s.view, s.svc.value).view else s.view
  }

  lemma {:induction false} AnswerCount(s: State, events: seq<Event>)
    requires (forall e :: e in events ==> e.Client?) && Run(s, events).open
    ensures |Answers(s, events)| == |events|
    decreases |events|
  {
    if events != [] {
      assert events[|events| - 1] in events;
      AnswerCount(s, events[..|events| - 1]);
    }
  }

  // A connection whose handler has not ended has answered every message, in order.
  lemma {:induction false} EveryMessageAnswered(s: State, events: seq<Event>, i: nat)
    requires (forall e :: e in events ==> e.Client?) && Run(s, events).open && i < |events|
    ensures |Answers(s, events)| == |events|
    ensures Answers(s, events)[i] == Answer(Run(s, events[..i]), events[i].msg, events[i].uuid, events[i].pick)
    decreases |events|
  {
    var before := events[..|events| - 1];
    assert events[|events| - 1] in events;
    AnswerCount(s, events);
    AnswerCount(s, before);
    if i < |before| {
      EveryMessageAnswered(s, before, i);
      assert before[..i] == events[..i];
    }
  }

  // ---------- what the peers are told ----------

  function Sent(m: Option<Replication.Msg>): seq<Replication.Msg> {
    if m == None then [] else [m.value]
  }

  function CloseNotice(s: State): Option<Replication.Msg> {
    if s.open && s.svc != None && Delete(s.view, s.svc.value).outcome == Done then
      Some(Replication.DeleteMsg(s.svc.value))
    else None
  }

  // Successful mutations of the connection; other connections send their own.
  function Notice(s: State, e: Event): Option<Replication.Msg> {
    match e
    case Client(AddInformed, uuid, pick) =>
      if s.open && s.svc != None && Add(s.view, s.svc.value, uuid, pick).outcome == Done then
        Some(Replication.AddMsg(Add(s.view, s.svc.value, uuid, pick).service))
      else None
    case Client(DeleteInformed, _, _) => CloseNotice(s)
    case _ => None
  }

  function Notices(s: State, events: seq<Event>): seq<Replication.Msg> {
    if events == [] then []
    else
      var before := events[..|events| - 1];
      Notices(s, before) + Sent(Notice(Run(s, before), events[|events| - 1]))
  }

  // ---------- cleanup ----------

  // Every ID always comes with one type, and deletes by others carry an ID.
  // For a nil ID this is about the ID that the normalization hands out.
  ghost predicate Proper(s: State, e: Event, typeOf: UUID -> string) {
    match e
    case Client(Inform(data), uuid, pick) =>
      uuid != NIL && Normalize(s.view, data, uuid, pick).service.typ
                     == typeOf(Normalize(s.view, data, uuid, pick).service.id)
    case Client(_, uuid, _) => uuid != NIL
    case Other(OpAdd(svc, uuid, pick)) =>
      var m := Add(s.view, svc, uuid, pick);
      uuid != NIL && (m.outcome == Done ==> Typed(m.service, typeOf))
    case Other(OpDelete(svc)) => Typed(svc, typeOf)
  }

  ghost predicate AllProper(s: State, events: seq<Event>, typeOf: UUID -> string) {
    events == []
    || var before := events[..|events| - 1];
       AllProper(s, before, typeOf) && Proper(Run(s, before), events[|events| - 1], typeOf)
  }

  ghost predicate Inv(s: State, typeOf: UUID -> string) {
    && Sound(s.view, typeOf)
    && (s.svc != None ==> Typed(s.svc.value, typeOf) && s.open)
  }

  lemma NormalizedId(v: View, svc: Record, uuid: UUID, pick: nat)
    requires Consistent(v) && uuid != NIL
    ensures Normalize(v, svc, uuid, pick).service.id != NIL
  {
    if svc.id == NIL {
      QueryOneFindsAMatch(v, ByAddressAndType(svc), pick);
    }
  }

  lemma StepKeepsInv(s: State, e: Event, typeOf: UUID -> string)
    requires Inv(s, typeOf) && Proper(s, e, typeOf)
    ensures Inv(Step(s, e), typeOf)
  {
    match e {
      case Other(OpAdd(svc, uuid, pick)) => AddTyped(s.view, svc, uuid, pick, typeOf);
      case Other(OpDelete(svc)) => DeleteTyped(s.view, svc, typeOf);
      case Client(Inform(data), uuid, pick) => NormalizedId(s.view, data, uuid, pick);
      case Client(AddInformed, uuid, pick) =>
        if s.svc != None {
          AddTyped(s.view, s.svc.value, uuid, pick, typeOf);
        }
      case Client(DeleteInformed, _, _) =>
        if s.svc != None {
          DeleteTyped(s.view, s.svc.value, typeOf);
        }
      case Client(_, _, _) =>
    }
  }

  lemma {:induction false} RunKeepsInv(s: State, events: seq<Event>, typeOf: UUID -> string)
    requires Inv(s, typeOf) && AllProper(s, events, typeOf)
    ensures Inv(Run(s, events), typeOf)
  {
    if events != [] {
      var before := events[..|events| - 1];
      RunKeepsInv(s, before, typeOf);
      StepKeepsInv(Run(s, before), events[|events| - 1], typeOf);
    }
  }

  // However the session and other connections interleave, closing removes the
  // informed ID from the list, every index list and the ID set.
  lemma CloseRemovesInformed(s: State, events: seq<Event>, typeOf: UUID -> string)
    requires Inv(s, typeOf) && AllProper(s, events, typeOf)
    requires Run(s, events).svc != None
    ensures var id := Run(s, events).svc.value.id; var v := Close(Run(s, events));
            && id !in v.ids
            && (forall r :: r in v.services ==> r.id != id)
            && (forall t, r :: r in Listed(v, t) ==> r.id != id)
            && Consistent(v)
  {
    var last := Run(s, events);
    RunKeepsInv(s, events, typeOf);
    DeleteTyped(last.view, last.svc.value, typeOf);
    var v := Close(last);
    forall t, r | r in Listed(v, t) ensures r in v.services {
      OfTypeMembers(v.services, t, r);
    }
  }

  // In between, Has answers true exactly when the informed ID is registered.
  lemma HasTellsRegistered(s: State, events: seq<Event>, typeOf: UUID -> string, uuid: UUID, pick: nat)
    requires Inv(s, typeOf) && AllProper(s, events, typeOf)
    ensures var now := Run(s, events);
            Answer(now, Has, uuid, pick).has
            <==> now.svc != None && exists r :: r in now.view.services && r.id == now.svc.value.id
  {
    RunKeepsInv(s, events, typeOf);
    var now := Run(s, events);
    if now.svc != None && now.svc.value.id in now.view.ids {
      assert now.svc.value.id in StoredIds(now.view.services);
    }
  }

  // ---------- what an Inform forgets ----------

  ghost predicate StoredUnder(rs: seq<Record>, id: UUID) {
    exists r :: r in rs && r.id == id
  }

  // An Inform replaces the informed service, a null one ends the handler: the
  // connection forgets what it had informed.
  predicate Forgets(s: State, e: Event) {
    && s.open && s.svc != None && e.Client?
    && (e.msg.InformNull? || (e.msg.Inform? && Step(s, e).svc.value.id != s.svc.value.id))
  }

  lemma StoredIsRegistered(v: View, id: UUID)
    requires Consistent(v)
    ensures StoredUnder(v.services, id) <==> id in v.ids
  {
  }

  lemma DeleteRemovesOnly(v: View, svc: Record, id: UUID, typeOf: UUID -> string)
    requires Sound(v, typeOf) && Typed(svc, typeOf)
    ensures StoredUnder(Delete(v, svc).view.services, id) <==> StoredUnder(v.services, id) && id != svc.id
  {
    var w := Delete(v, svc).view;
    DeleteTyped(v, svc, typeOf);
    StoredIsRegistered(w, svc.id);
    var pos := Find(v.services, svc);
    if pos != -1 && StoredUnder(v.services, id) && id != svc.id {
      RemoveMembers(v.services, pos);
      var r :| r in v.services && r.id == id;
      assert r in w.services;
    }
  }

  // A close removes the informed ID and no other.
  lemma CloseRemovesOnly(s: State, id: UUID, typeOf: UUID -> string)
    requires Inv(s, typeOf)
    ensures StoredUnder(Close(s).services, id)
            <==> StoredUnder(s.view.services, id) && (s.svc == None || id != s.svc.value.id)
  {
    if s.svc != None {
      DeleteRemovesOnly(s.view, s.svc.value, id, typeOf);
    }
  }

  // Closing right after an Inform leaves nothing of the service informed before
  // exactly when that was not registered or is informed again.
  lemma InformLeavesNothingIff(s: State, e: Event, typeOf: UUID -> string)
    requires Inv(s, typeOf) && Proper(s, e, typeOf) && s.svc != None
    requires e.Client? && (e.msg.Inform? || e.msg.InformNull?)
    ensures !StoredUnder(Close(Step(s, e)).services, s.svc.value.id)
            <==> Forgets(s, e) ==> s.svc.value.id !in s.view.ids
  {
    StepKeepsInv(s, e, typeOf);
    CloseRemovesOnly(Step(s, e), s.svc.value.id, typeOf);
    StoredIsRegistered(s.view, s.svc.value.id);
  }

  lemma AddStoresOnly(v: View, svc: Record, uuid: UUID, pick: nat, id: UUID)
    ensures var m := Add(v, svc, uuid, pick);
            StoredUnder(m.view.services, id)
            <==> StoredUnder(v.services, id) || (m.outcome == Done && id == m.service.id)
  {
    var m := Add(v, svc, uuid, pick);
    if m.outcome == Done {
      assert forall r :: r in m.view.services <==> r in v.services || r == m.service;
    }
  }

  lemma FoundIffStored(rs: seq<Record>, svc: Record)
    requires svc.id != NIL
    ensures Find(rs, svc) != -1 <==> StoredUnder(rs, svc.id)
  {
    if StoredUnder(rs, svc.id) {
      var r :| r in rs && r.id == svc.id;
      var k :| 0 <= k < |rs| && rs[k] == r;
      assert Matches(svc, rs[k]);
    }
  }

  // The answer to Add tells whether the informed service has been stored, the
  // answer to Delete whether it was there to be removed; neither changes anything
  // otherwise.  An Inform hands back the service it has just informed, with the
  // fields it came with and the ID it came with, or an assigned one.
  lemma AnswersTell(s: State, msg: Message, uuid: UUID, pick: nat, typeOf: UUID -> string)
    requires Inv(s, typeOf) && Proper(s, Client(msg, uuid, pick), typeOf) && s.open
    ensures var r := Answer(s, msg, uuid, pick); var n := Step(s, Client(msg, uuid, pick));
            && (msg.AddInformed? ==>
                  && (r.success <==> s.svc != None && s.svc.value.id !in s.view.ids)
                  && n.view.services == s.view.services + if r.success then [s.svc.value] else [])
            && (msg.DeleteInformed? ==>
                  && (r.success <==> s.svc != None && StoredUnder(s.view.services, s.svc.value.id))
                  && (s.svc != None ==> !StoredUnder(n.view.services, s.svc.value.id))
                  && |n.view.services| == |s.view.services| - if r.success then 1 else 0)
            && (msg.Inform? ==>
                  && r.success && n.svc == r.service && n.view == s.view
                  && r.service == Some(msg.data.(id := r.service.value.id))
                  && (msg.data.id != NIL ==> r.service.value.id == msg.data.id)
                  && (msg.data.id == NIL ==>
                        r.service.value.id == uuid || StoredUnder(s.view.services, r.service.value.id)))
            && (msg.Noop? ==> r.success)
            && (msg.Has? ==> (r.success <==> s.svc != None))
            && (msg.Unknown? || msg.Malformed? ==> !r.success)
            && (msg.Noop? || msg.Has? || msg.Unknown? || msg.Malformed? ==> n == s)
            && (!msg.Inform? ==> r.service == None)
  {
    if msg.DeleteInformed? && s.svc != None {
      DeleteTyped(s.view, s.svc.value, typeOf);
      DeleteRemovesOnly(s.view, s.svc.value, s.svc.value.id, typeOf);
      StoredIsRegistered(s.view, s.svc.value.id);
      FoundIffStored(s.view.services, s.svc.value);
    }
    if msg.Inform? && msg.data.id == NIL {
      QueryOneFindsAMatch(s.view, ByAddressAndType(msg.data), pick);
    }
  }

  // the IDs that the connection has informed
  function Informed(s: State, events: seq<Event>): set<UUID> {
    if events == [] then {}
    else
      var before, e := events[..|events| - 1], events[|events| - 1];
      var now := Run(s, before);
      Informed(s, before)
      + if now.open && e.Client? && e.msg.Inform? then {Step(now, e).svc.value.id} else {}
  }

  // those of them that it has forgotten while they were registered
  function Leaked(s: State, events: seq<Event>): set<UUID> {
    if events == [] then {}
    else
      var before, e := events[..|events| - 1], events[|events| - 1];
      var now := Run(s, before);
      Leaked(s, before)
      + (if Forgets(now, e) && now.svc.value.id in now.view.ids then {now.svc.value.id} else {})
      - (if now.open && e.Client? && e.msg.Inform? then {Step(now, e).svc.value.id} else {})
  }

  // Other connections keep away from the IDs that this one has informed.
  predicate Aloof(s: State, e: Event, ids: set<UUID>) {
    match e
    case Client(_, _, _) => true
    case Other(OpAdd(svc, uuid, pick)) =>
      Add(s.view, svc, uuid, pick).outcome == Done ==> Add(s.view, svc, uuid, pick).service.id !in ids
    case Other(OpDelete(svc)) => svc.id !in ids
  }

  predicate AllAloof(s: State, events: seq<Event>) {
    events == []
    || var before := events[..|events| - 1];
       AllAloof(s, before) && Aloof(Run(s, before), events[|events| - 1], Informed(s, before))
  }

  // What is stored of the informed IDs: the current one while it is registered,
  // and the leaked ones.
  ghost predicate LeakInv(s: State, informed: set<UUID>, leaked: set<UUID>) {
    && leaked <= informed
    && (s.svc != None ==> s.svc.value.id in informed && s.svc.value.id !in leaked)
    && forall id :: id in informed && (s.svc == None || id != s.svc.value.id) ==>
         (StoredUnder(s.view.services, id) <==> id in leaked)
  }

  lemma InformKeepsLeakInv(s: State, e: Event, informed: set<UUID>, leaked: set<UUID>, typeOf: UUID -> string)
    requires Inv(s, typeOf) && LeakInv(s, informed, leaked) && Proper(s, e, typeOf) && s.open && e.Client?
    ensures var forgotten := if Forgets(s, e) && s.svc.value.id in s.view.ids then {s.svc.value.id} else {};
            && (e.msg.Inform? ==>
                  LeakInv(Step(s, e), informed + {Step(s, e).svc.value.id},
                          leaked + forgotten - {Step(s, e).svc.value.id}))
            && (e.msg.InformNull? ==> LeakInv(Step(s, e), informed, leaked + forgotten))
  {
    if s.svc != None {
      StoredIsRegistered(s.view, s.svc.value.id);
    }
  }

  lemma OtherStepKeepsLeakInv(s: State, e: Event, informed: set<UUID>, leaked: set<UUID>, typeOf: UUID -> string)
    requires Inv(s, typeOf) && LeakInv(s, informed, leaked) && Proper(s, e, typeOf) && Aloof(s, e, informed)
    requires e.Client? ==> !s.open || (!e.msg.Inform? && !e.msg.InformNull?)
    ensures LeakInv(Step(s, e), informed, leaked)
  {
    match e {
      case Other(OpAdd(svc, uuid, pick)) =>
        forall id { AddStoresOnly(s.view, svc, uuid, pick, id); }
      case Other(OpDelete(svc)) =>
        forall id { DeleteRemovesOnly(s.view, svc, id, typeOf); }
      case Client(AddInformed, uuid, pick) =>
        if s.svc != None {
          forall id { AddStoresOnly(s.view, s.svc.value, uuid, pick, id); }
        }
      case Client(DeleteInformed, _, _) =>
        if s.svc != None {
          forall id { DeleteRemovesOnly(s.view, s.svc.value, id, typeOf); }
        }
      case Client(_, _, _) =>
    }
  }

  lemma {:induction false} RunKeepsLeakInv(s: State, events: seq<Event>, typeOf: UUID -> string)
    requires Inv(s, typeOf) && s.svc == None && AllProper(s, events, typeOf) && AllAloof(s, events)
    ensures LeakInv(Run(s, events), Informed(s, events), Leaked(s, events))
    decreases |events|
  {
    if events != [] {
      var before, e := events[..|events| - 1], events[|events| - 1];
      var now := Run(s, before);
      RunKeepsInv(s, before, typeOf);
      RunKeepsLeakInv(s, before, typeOf);
      if e.Client? && now.open && (e.msg.Inform? || e.msg.InformNull?) {
        InformKeepsLeakInv(now, e, Informed(s, before), Leaked(s, before), typeOf);
      } else {
        OtherStepKeepsLeakInv(now, e, Informed(s, before), Leaked(s, before), typeOf);
      }
    }
  }

  // Of the IDs that a connection has informed, closing it leaves stored exactly
  // those that it forgot while they were registered and has not informed again.
  lemma CloseLeavesLeaked(s: State, events: seq<Event>, typeOf: UUID -> string, id: UUID)
    requires Inv(s, typeOf) && s.svc == None && AllProper(s, events, typeOf) && AllAloof(s, events)
    requires id in Informed(s, events)
    ensures StoredUnder(Close(Run(s, events)).services, id) <==> id in Leaked(s, events)
  {
    RunKeepsInv(s, events, typeOf);
    RunKeepsLeakInv(s, events, typeOf);
    CloseRemovesOnly(Run(s, events), id, typeOf);
  }

  // Each ID is informed at most once.
  predicate InformsOnce(s: State, events: seq<Event>) {
    events == []
    || var before, e := events[..|events| - 1], events[|events| - 1];
       var now := Run(s, before);
       InformsOnce(s, before)
       && (now.open && e.Client? && e.msg.Inform? ==> Step(now, e).svc.value.id !in Informed(s, before))
  }

  // What is forgotten is not registered.
  predicate ForgetsUnregistered(s: State, events: seq<Event>) {
    events == []
    || var before, e := events[..|events| - 1], events[|events| - 1];
       var now := Run(s, before);
       ForgetsUnregistered(s, before) && (Forgets(now, e) ==> now.svc.value.id !in now.view.ids)
  }

  lemma {:induction false} LeakedIff(s: State, events: seq<Event>, typeOf: UUID -> string)
    requires Inv(s, typeOf) && s.svc == None && AllProper(s, events, typeOf) && AllAloof(s, events)
    requires InformsOnce(s, events)
    ensures Leaked(s, events) == {} <==> ForgetsUnregistered(s, events)
    decreases |events|
  {
    if events != [] {
      var before, e := events[..|events| - 1], events[|events| - 1];
      LeakedIff(s, before, typeOf);
      RunKeepsLeakInv(s, before, typeOf);
    }
  }

  ghost predicate LeavesNothing(s: State, events: seq<Event>) {
    forall id :: id in Informed(s, events) ==> !StoredUnder(Close(Run(s, events)).services, id)
  }

  lemma LeavesNothingIff(s: State, events: seq<Event>, typeOf: UUID -> string)
    requires Inv(s, typeOf) && s.svc == None && AllProper(s, events, typeOf) && AllAloof(s, events)
    ensures LeavesNothing(s, events) <==> Leaked(s, events) == {}
  {
    RunKeepsLeakInv(s, events, typeOf);
    var leaked := Leaked(s, events);
    forall id | id in Informed(s, events)
      ensures StoredUnder(Close(Run(s, events)).services, id) <==> id in leaked
    {
      CloseLeavesLeaked(s, events, typeOf, id);
    }
    if leaked != {} {
      var id :| id in leaked;
      assert id in Informed(s, events);
    }
  }

  // A connection that informs each ID at most once leaves none of them stored
  // exactly when every Inform that replaced one found it not registered.
  lemma SessionLeavesNothingIff(s: State, events: seq<Event>, typeOf: UUID -> string)
    requires Inv(s, typeOf) && s.svc == None && AllProper(s, events, typeOf) && AllAloof(s, events)
    requires InformsOnce(s, events)
    ensures LeavesNothing(s, events) <==> ForgetsUnregistered(s, events)
  {
    LeavesNothingIff(s, events, typeOf);
    LeakedIff(s, events, typeOf);
  }

  // So a service that is informed and added stays registered after a second
  // Inform and the close.
  lemma SecondInformLeaks(a: Record, b: Record, x: UUID, y: UUID)
    requires a.id != NIL && b.id != NIL && a.id != b.id && x != NIL && y != NIL
    ensures var events := [Client(Inform(a), x, 0), Client(AddInformed, x, 0), Client(Inform(b), y, 0)];
            a in Close(Run(State(EMPTY, None, true), events)).services
  {
    var s0 := State(EMPTY, None, true);
    var e0, e1, e2 := Client(Inform(a), x, 0), Client(AddInformed, x, 0), Client(Inform(b), y, 0);
    assert [e0, e1, e2][..2] == [e0, e1] && [e0, e1][..1] == [e0];
    assert Run(s0, [e0]) == Step(s0, e0);
    assert Run(s0, [e0, e1]) == Step(Step(s0, e0), e1);
    assert Run(s0, [e0, e1, e2]).view.services == [a];
    assert Find([a], b) == -1;
  }
}
