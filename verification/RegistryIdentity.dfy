/**
Identity: which IDs a server that started empty stores and remembers, what an
Add followed by its Delete leaves behind, and when registrations without an ID
stay unique.
*/
module RegistryIdentity {
  import opened Registry
  import opened RegistryIndex

  ghost predicate ExactIds(v: View) {
    v.ids == StoredIds(v.services)
  }

  lemma RemoveMembers(rs: seq<Record>, pos: nat)
    requires pos < |rs|
    ensures forall r :: r in Remove(rs, pos) ==> r in rs
    ensures forall r :: r in rs ==> r == rs[pos] || r in Remove(rs, pos)
    ensures forall k :: 0 <= k < |rs| - 1 ==> Remove(rs, pos)[k] == rs[if k < pos then k else k + 1]
  {
    forall r | r in rs && r != rs[pos] ensures r in Remove(rs, pos) {
      var k :| 0 <= k < |rs| && rs[k] == r;
      assert Remove(rs, pos)[if k < pos then k else k - 1] == r;
    }
  }

  lemma AddKeepsIdentity(v: View, svc: Record, uuid: UUID, pick: nat)
    requires Identified(v) && uuid != NIL
    ensures Identified(Add(v, svc, uuid, pick).view)
    ensures ExactIds(v) ==> ExactIds(Add(v, svc, uuid, pick).view)
  {
    var m := Add(v, svc, uuid, pick);
    if m.outcome == Done {
      assert m.view.services == v.services + [m.service];
      assert StoredIds(m.view.services) == StoredIds(v.services) + {m.service.id};
    }
  }

  lemma DeleteKeepsIdentity(v: View, svc: Record)
    requires Identified(v)
    ensures Identified(Delete(v, svc).view)
  {
    var pos := Find(v.services, svc);
    if pos != -1 {
      RemoveMembers(v.services, pos);
    }
  }

  lemma RemovedIds(rs: seq<Record>, pos: nat)
    requires pos < |rs|
    requires DistinctIds(rs)
    ensures StoredIds(Remove(rs, pos)) == StoredIds(rs) - {rs[pos].id}
  {
    RemoveMembers(rs, pos);
    forall r | r in Remove(rs, pos) ensures r.id != rs[pos].id {
      var k :| 0 <= k < |Remove(rs, pos)| && Remove(rs, pos)[k] == r;
    }
  }

  // The ID set stays exact under a Delete that finds its service exactly when
  // the Delete carries the ID and names the stored type.
  lemma DeleteKeepsExactIdsIff(v: View, svc: Record)
    requires Identified(v) && ExactIds(v) && Agrees(v)
    ensures ExactIds(Delete(v, svc).view) <==> TypeMatches(v, svc) && CarriesId(v, svc)
  {
    var pos := Find(v.services, svc);
    if pos != -1 {
      var m := Delete(v, svc);
      var gone := v.services[pos];
      RemovedIds(v.services, pos);
      assert gone.id in v.ids;
      DeleteKeepsAgreementIff(v, svc);
      if gone.typ != svc.typ && svc.id != NIL && m.outcome == Done {
        // the index list of another type cannot hold the same ID
        var listed := Listed(v, svc.typ)[Find(Listed(v, svc.typ), svc)];
        OfTypeMembers(v.services, svc.typ, listed);
        assert false;
      }
    }
  }

  // Distinct, non-nil, remembered: after any adds and deletes whatsoever.
  lemma {:induction false} IdentityOverRuns(v: View, ops: seq<Op>)
    requires Identified(v)
    requires forall op :: op in ops ==> ValidOp(op)
    ensures Identified(Run(v, ops))
    decreases |ops|
  {
    if ops != [] {
      assert ops[0] in ops;
      match ops[0] {
        case OpAdd(svc, uuid, pick) => AddKeepsIdentity(v, svc, uuid, pick);
        case OpDelete(svc) => DeleteKeepsIdentity(v, svc);
      }
      IdentityOverRuns(Apply(v, ops[0]), ops[1..]);
    }
  }

  // ---------- servers that started from a peer's list ----------

  // Their services are not registered: the ID invariant holds of an empty list only.
  lemma BootstrappedIdentifiedIff(list: seq<Record>)
    ensures Identified(Bootstrapped(list)) <==> list == []
  {
    if list != [] {
      assert Bootstrapped(list).services[0].id !in Bootstrapped(list).ids;
    }
  }

  lemma BootstrappedAddDuplicates(r: Record, uuid: UUID, pick: nat)
    requires r.id != NIL
    ensures var m := Add(Bootstrapped([r]), r, uuid, pick);
            m.outcome == Done && m.view.services == [r, r] && !DistinctIds(m.view.services)
  {
    var services := Add(Bootstrapped([r]), r, uuid, pick).view.services;
    assert services[0].id == services[1].id;
  }

  // Is the registration rejected, or its ID not stored?
  predicate NewId(v: View, op: Op) {
    op.OpAdd? ==>
      var m := Add(v, op.service, op.uuid, op.pick);
      m.outcome == Done ==> forall r :: r in v.services ==> r.id != m.service.id
  }

  lemma StepKeepsDistinctIff(v: View, op: Op)
    requires DistinctIds(v.services)
    ensures DistinctIds(Apply(v, op).services) <==> NewId(v, op)
  {
    match op {
      case OpAdd(svc, uuid, pick) =>
        var m := Add(v, svc, uuid, pick);
        if m.outcome == Done {
          assert m.view.services[|v.services|] == m.service;
          if !NewId(v, op) {
            var i :| 0 <= i < |v.services| && v.services[i].id == m.service.id;
            assert m.view.services[i] == v.services[i];
          }
        }
      case OpDelete(svc) =>
        var pos := Find(v.services, svc);
        if pos != -1 {
          RemoveMembers(v.services, pos);
        }
    }
  }

  ghost predicate AlwaysDistinct(v: View, ops: seq<Op>)
    decreases |ops|
  {
    DistinctIds(v.services) && (ops == [] || AlwaysDistinct(Apply(v, ops[0]), ops[1..]))
  }

  predicate NewIds(v: View, ops: seq<Op>)
    decreases |ops|
  {
    ops == [] || (NewId(v, ops[0]) && NewIds(Apply(v, ops[0]), ops[1..]))
  }

  lemma {:induction false} DistinctOverRuns(v: View, ops: seq<Op>)
    requires DistinctIds(v.services)
    ensures AlwaysDistinct(v, ops) <==> NewIds(v, ops)
    decreases |ops|
  {
    if ops != [] {
      StepKeepsDistinctIff(v, ops[0]);
      if NewId(v, ops[0]) {
        DistinctOverRuns(Apply(v, ops[0]), ops[1..]);
      }
    }
  }

  // From a peer's list the stored IDs stay distinct in every state of a run
  // exactly when they were in the list and every accepted registration brings an
  // ID that is not stored.
  lemma DistinctAfterBootstrap(list: seq<Record>, ops: seq<Op>)
    ensures AlwaysDistinct(Bootstrapped(list), ops) <==> DistinctIds(list) && NewIds(Bootstrapped(list), ops)
  {
    if DistinctIds(list) {
      DistinctOverRuns(Bootstrapped(list), ops);
    }
  }

  // ---------- three views of one registry ----------

  ghost predicate Consistent(v: View) {
    Agrees(v) && Identified(v) && ExactIds(v)
  }

  ghost predicate AlwaysConsistent(v: View, ops: seq<Op>)
    decreases |ops|
  {
    Consistent(v) && (ops == [] || AlwaysConsistent(Apply(v, ops[0]), ops[1..]))
  }

  predicate IdSafe(v: View, ops: seq<Op>)
    decreases |ops|
  {
    ops == []
    || ((ops[0].OpDelete? ==> TypeMatches(v, ops[0].service) && CarriesId(v, ops[0].service))
        && IdSafe(Apply(v, ops[0]), ops[1..]))
  }

  lemma StepConsistentIff(v: View, op: Op)
    requires Consistent(v) && ValidOp(op)
    ensures Consistent(Apply(v, op))
            <==> (op.OpDelete? ==> TypeMatches(v, op.service) && CarriesId(v, op.service))
  {
    match op {
      case OpAdd(svc, uuid, pick) =>
        AddKeepsAgreement(v, svc, uuid, pick);
        AddKeepsIdentity(v, svc, uuid, pick);
      case OpDelete(svc) =>
        DeleteKeepsAgreementIff(v, svc);
        DeleteKeepsIdentity(v, svc);
        DeleteKeepsExactIdsIff(v, svc);
    }
  }

  // List, index and ID set describe one registry in every state of a run
  // exactly when every delete that finds something carries its ID and its type.
  lemma {:induction false} ConsistencyOverRuns(v: View, ops: seq<Op>)
    requires Consistent(v)
    requires forall op :: op in ops ==> ValidOp(op)
    ensures AlwaysConsistent(v, ops) <==> IdSafe(v, ops)
    decreases |ops|
  {
    if ops != [] {
      assert ops[0] in ops;
      StepConsistentIff(v, ops[0]);
      if Consistent(Apply(v, ops[0])) {
        ConsistencyOverRuns(Apply(v, ops[0]), ops[1..]);
      }
    }
  }

  // ---------- one type per ID ----------

  ghost predicate Typed(r: Record, typeOf: UUID -> string) {
    r.id != NIL && r.typ == typeOf(r.id)
  }

  ghost predicate Sound(v: View, typeOf: UUID -> string) {
    Consistent(v) && forall r :: r in v.services ==> Typed(r, typeOf)
  }

  lemma DeleteTyped(v: View, svc: Record, typeOf: UUID -> string)
    requires Sound(v, typeOf) && Typed(svc, typeOf)
    ensures var m := Delete(v, svc);
            && Sound(m.view, typeOf) && m.outcome != Panicked
            && (forall r :: r in m.view.services ==> r in v.services)
            && svc.id !in m.view.ids
  {
    var pos := Find(v.services, svc);
    DeleteKeepsAgreementIff(v, svc);
    if pos == -1 {
      forall r | r in v.services ensures r.id != svc.id {
        assert !Matches(svc, r);
      }
    } else {
      assert v.services[pos] in v.services;
      StepConsistentIff(v, OpDelete(svc));
      RemoveMembers(v.services, pos);
    }
  }

  lemma AddTyped(v: View, svc: Record, uuid: UUID, pick: nat, typeOf: UUID -> string)
    requires Sound(v, typeOf) && uuid != NIL
    requires Add(v, svc, uuid, pick).outcome == Done ==> Typed(Add(v, svc, uuid, pick).service, typeOf)
    ensures Sound(Add(v, svc, uuid, pick).view, typeOf)
  {
    StepConsistentIff(v, OpAdd(svc, uuid, pick));
  }

  // ---------- add, then delete ----------

  lemma {:induction false} FindLast(rs: seq<Record>, needle: Record)
    requires needle.id != NIL
    requires forall r :: r in rs ==> r.id != needle.id
    ensures Find(rs + [needle], needle) == |rs|
    ensures Remove(rs + [needle], |rs|) == rs
  {
    assert (rs + [needle])[|rs|] == needle;
    forall i | 0 <= i < |rs| ensures !Matches(needle, (rs + [needle])[i]) {
      assert rs[i] in rs;
    }
  }

  lemma DeleteLastAdded(v: View, r: Record)
    requires r.id != NIL && r.id !in v.ids
    requires forall s :: s in v.services ==> s.id != r.id
    requires forall s :: s in Listed(v, r.typ) ==> s.id != r.id
    ensures var d := Delete(AddLocked(v, r).view, r);
            d.outcome == Done && d.view.services == v.services && d.view.ids == v.ids
            && d.view.index == v.index[r.typ := Listed(v, r.typ)]
  {
    FindLast(v.services, r);
    FindLast(Listed(v, r.typ), r);
    var w := AddLocked(v, r).view;
    assert Listed(w, r.typ) == Listed(v, r.typ) + [r];
    assert v.ids + {r.id} - {r.id} == v.ids;
    assert w.index[r.typ := Listed(v, r.typ)] == v.index[r.typ := Listed(v, r.typ)];
  }

  // Deleting by the ID that a successful Add assigned restores the list, every
  // index list and the ID set.
  lemma AddThenDeleteRestores(v: View, svc: Record, uuid: UUID, pick: nat, added: Mutation)
    requires Agrees(v) && Identified(v) && uuid != NIL
    requires added == Add(v, svc, uuid, pick) && added.outcome == Done
    ensures var deleted := Delete(added.view, added.service);
            && deleted.outcome == Done
            && deleted.view.services == v.services
            && deleted.view.ids == v.ids
            && forall t :: Listed(deleted.view, t) == Listed(v, t)
  {
    var r := added.service;
    assert r.id !in v.ids && r.id != NIL;
    forall s | s in Listed(v, r.typ) ensures s.id != r.id {
      OfTypeMembers(v.services, r.typ, s);
    }
    DeleteLastAdded(v, r);
  }

  // ---------- registrations without an ID ----------

  ghost predicate UniquePlaces(rs: seq<Record>) {
    forall i, j :: 0 <= i < j < |rs| ==> !(rs[i].address == rs[j].address && rs[i].typ == rs[j].typ)
  }

  // Every stored service can be seen through the index, also where a delete
  // that named another type has left the index longer than the list.
  ghost predicate Covered(v: View) {
    forall r :: r in v.services ==> r in Listed(v, r.typ)
  }

  ghost predicate NilRegistered(v: View) {
    Identified(v) && UniquePlaces(v.services) && Covered(v)
  }

  lemma {:induction false} AllWantedMembers(rs: seq<Record>, p: QueryParameters, r: Record)
    ensures r in AllWanted(rs, p) <==> r in rs && Wanted(r, p)
  {
    if rs != [] {
      assert r in rs <==> r == rs[0] || r in rs[1..];
      AllWantedMembers(rs[1..], p, r);
    }
  }

  lemma NilAddKeepsPlaces(v: View, svc: Record, uuid: UUID, pick: nat)
    requires NilRegistered(v) && svc.id == NIL && uuid != NIL
    ensures NilRegistered(Add(v, svc, uuid, pick).view)
  {
    AddKeepsIdentity(v, svc, uuid, pick);
    var m := Add(v, svc, uuid, pick);
    if m.outcome == Done {
      var p := ByAddressAndType(svc);
      var haystack := if p.typ == "" then v.services else Listed(v, p.typ);
      forall r | r in v.services && r.typ == svc.typ ensures r.address != svc.address {
        AllWantedMembers(haystack, p, r);
      }
    }
  }

  lemma RemoveKeepsPlaces(rs: seq<Record>, pos: nat)
    requires pos < |rs| && UniquePlaces(rs)
    ensures UniquePlaces(Remove(rs, pos))
  {
    RemoveMembers(rs, pos);
  }

  // What matches the delete is the one service that has gone, so the index
  // entry removed with it covers no other.
  lemma LeftIsNoMatch(v: View, svc: Record, pos: nat, r: Record)
    requires NilRegistered(v) && pos == Find(v.services, svc) && r in Remove(v.services, pos)
    ensures r in v.services && !Matches(svc, r)
  {
    RemoveMembers(v.services, pos);
    var k :| 0 <= k < |v.services| - 1 && Remove(v.services, pos)[k] == r;
    var i := if k < pos then k else k + 1;
    assert r == v.services[i] && i != pos;
  }

  lemma DeleteKeepsPlaces(v: View, svc: Record)
    requires NilRegistered(v)
    ensures NilRegistered(Delete(v, svc).view)
  {
    DeleteKeepsIdentity(v, svc);
    var pos := Find(v.services, svc);
    if pos != -1 {
      RemoveKeepsPlaces(v.services, pos);
      var w := Delete(v, svc).view;
      var listed := Listed(v, svc.typ);
      forall r | r in w.services ensures r in Listed(w, r.typ) {
        LeftIsNoMatch(v, svc, pos, r);
        if Find(listed, svc) != -1 {
          RemoveMembers(listed, Find(listed, svc));
        }
      }
    }
  }

  // Sequential runs: whatever is deleted, two stored services never share both
  // address and type as long as every Add arrives without an ID.
  lemma {:induction false} NilRegistrationOverRuns(v: View, ops: seq<Op>)
    requires NilRegistered(v)
    requires forall op :: op in ops ==> ValidOp(op) && (op.OpAdd? ==> op.service.id == NIL)
    ensures UniquePlaces(Run(v, ops).services)
    decreases |ops|
  {
    if ops != [] {
      assert ops[0] in ops;
      match ops[0] {
        case OpAdd(svc, uuid, pick) => NilAddKeepsPlaces(v, svc, uuid, pick);
        case OpDelete(svc) => DeleteKeepsPlaces(v, svc);
      }
      NilRegistrationOverRuns(Apply(v, ops[0]), ops[1..]);
    }
  }

  ghost predicate FirstPassingAt(rs: seq<Record>, p: QueryParameters, k: int) {
    0 <= k < |rs| && Passes(rs[k], p) && forall i :: 0 <= i < k ==> !Passes(rs[i], p)
  }

  lemma {:induction false} FirstPassing(rs: seq<Record>, p: QueryParameters)
    ensures PlainScan(rs, p) != [] ==> exists k :: FirstPassingAt(rs, p, k) && rs[k] == PlainScan(rs, p)[0]
  {
    if PlainScan(rs, p) != [] {
      if Passes(rs[0], p) {
        assert FirstPassingAt(rs, p, 0);
      } else {
        FirstPassing(rs[1..], p);
        var k :| FirstPassingAt(rs[1..], p, k) && rs[1..][k] == PlainScan(rs[1..], p)[0];
        forall i | 0 <= i < k + 1 ensures !Passes(rs[i], p) {
          assert i > 0 ==> !Passes(rs[1..][i - 1], p);
        }
        assert FirstPassingAt(rs, p, k + 1);
      }
    }
  }

  // A rejected registration with an address hands back the first stored service
  // that the address and type filter lets through, for every random choice.
  lemma RejectedNilAddNamesFirstMatch(v: View, svc: Record, uuid: UUID, pick: nat)
    requires Agrees(v) && svc.id == NIL && svc.address != ""
    requires Normalize(v, svc, uuid, pick).outcome != Done
    ensures var m := Add(v, svc, uuid, pick);
            && m.view == v && m.outcome == Failed(ServiceAlreadyExists)
            && exists k ::
                 && FirstPassingAt(v.services, QueryParameters(NIL, svc.address, svc.typ, [], []), k)
                 && v.services[k].id == m.service.id
  {
    var p := ByAddressAndType(svc);
    QueryIsPlainScan(v, p);
    FirstPassing(v.services, p);
    assert |Query(v, p)| == 1;
  }
}
