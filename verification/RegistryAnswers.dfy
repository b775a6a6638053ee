/**
What the registry's operations do, said of the stored records' fields alone.
*/
module RegistryAnswers {
  import opened Wrappers
  import opened Registry
  import opened RegistryIndex

  // Ascending positions that pick out exactly the given elements of a list.
  ghost predicate Ascending(at: seq<nat>) {
    forall i, j :: 0 <= i < j < |at| ==> at[i] < at[j]
  }

  ghost predicate Picks(at: seq<nat>, rs: seq<Record>, picked: seq<Record>) {
    |at| == |picked| && forall i :: 0 <= i < |at| ==> at[i] < |rs| && picked[i] == rs[at[i]]
  }

  function Shifted(at: seq<nat>): (r: seq<nat>)
    ensures |r| == |at| && forall i :: 0 <= i < |at| ==> r[i] == at[i] + 1
  {
    seq(|at|, i requires 0 <= i < |at| => at[i] + 1)
  }

  // positions in the tail, and the head if it is picked
  lemma PicksCons(rs: seq<Record>, at: seq<nat>, picked: seq<Record>, first: bool) returns (all: seq<nat>)
    requires rs != [] && Ascending(at) && Picks(at, rs[1..], picked)
    ensures Ascending(all) && Picks(all, rs, (if first then [rs[0]] else []) + picked)
    ensures forall k: nat :: k in all <==> if k == 0 then first else k - 1 in at
  {
    all := (if first then [0] else []) + Shifted(at);
    forall k: nat ensures k in all <==> if k == 0 then first else k - 1 in at {
      if k > 0 && k - 1 in at {
        var i :| 0 <= i < |at| && at[i] == k - 1;
        assert Shifted(at)[i] == k;
      }
    }
  }

  // The list of a type holds its services in the order of the service list.
  lemma {:induction false} OfTypePicks(rs: seq<Record>, t: string) returns (at: seq<nat>)
    ensures Ascending(at) && Picks(at, rs, OfType(rs, t))
    ensures forall k :: 0 <= k < |rs| ==> (k in at <==> rs[k].typ == t)
  {
    at := [];
    if rs != [] {
      var rest := OfTypePicks(rs[1..], t);
      at := PicksCons(rs, rest, OfType(rs[1..], t), rs[0].typ == t);
      forall k | 0 <= k < |rs| ensures k in at <==> rs[k].typ == t {
        assert k > 0 ==> rs[1..][k - 1] == rs[k];
      }
    }
  }

  lemma {:induction false} PlainScanPicks(rs: seq<Record>, p: QueryParameters) returns (at: seq<nat>)
    ensures Ascending(at) && Picks(at, rs, PlainScan(rs, p))
    ensures forall k :: 0 <= k < |rs| ==> (k in at <==> Passes(rs[k], p))
  {
    at := [];
    if rs != [] {
      var rest := PlainScanPicks(rs[1..], p);
      at := PicksCons(rs, rest, PlainScan(rs[1..], p), Passes(rs[0], p));
      forall k | 0 <= k < |rs| ensures k in at <==> Passes(rs[k], p) {
        assert k > 0 ==> rs[1..][k - 1] == rs[k];
      }
    }
  }

  lemma FirstPick(rs: seq<Record>, all: seq<nat>, p: QueryParameters) returns (at: seq<nat>)
    requires Ascending(all) && Picks(all, rs, PlainScan(rs, p)) && (p.id != NIL || p.address != "")
    ensures |at| <= 1 && at <= all && Picks(at, rs, Cut(PlainScan(rs, p), p))
    ensures forall k :: k in all ==> at != [] && at[0] <= k
  {
    at := if all == [] then [] else all[..1];
    forall k | k in all ensures at != [] && at[0] <= k {
      var i :| 0 <= i < |all| && all[i] == k;
    }
  }

  lemma QueryPicks(v: View, p: QueryParameters) returns (at: seq<nat>)
    requires Agrees(v)
    ensures Ascending(at) && Picks(at, v.services, Query(v, p))
    ensures forall k :: 0 <= k < |v.services| && k in at ==> Passes(v.services[k], p)
    ensures p.id == NIL && p.address == "" ==>
              forall k :: 0 <= k < |v.services| && Passes(v.services[k], p) ==> k in at
    ensures p.id != NIL || p.address != "" ==>
              |at| <= 1 && forall k :: 0 <= k < |v.services| && Passes(v.services[k], p) ==> at != [] && at[0] <= k
  {
    QueryIsPlainScan(v, p);
    at := PlainScanPicks(v.services, p);
    if p.id != NIL || p.address != "" {
      at := FirstPick(v.services, at, p);
    }
  }

  // A query returns, in the order of the service list, the stored services of the
  // type named, with all required tags and no excluded one: all of them, or the
  // first with the ID given, or else the first with the address given.
  lemma QueryAnswers(v: View, p: QueryParameters) returns (at: seq<nat>)
    requires Agrees(v)
    ensures Ascending(at) && Picks(at, v.services, Query(v, p))
    ensures forall k :: 0 <= k < |v.services| && k in at ==>
              && (p.typ != "" ==> v.services[k].typ == p.typ)
              && (forall t :: t in p.tags ==> t in v.services[k].tags)
              && (forall t :: t in p.excludeTags ==> t !in v.services[k].tags)
              && (p.id != NIL ==> v.services[k].id == p.id)
              && (p.id == NIL && p.address != "" ==> v.services[k].address == p.address)
    ensures forall k ::
              && 0 <= k < |v.services|
              && (p.typ != "" ==> v.services[k].typ == p.typ)
              && (forall t :: t in p.tags ==> t in v.services[k].tags)
              && (forall t :: t in p.excludeTags ==> t !in v.services[k].tags)
              && (p.id != NIL ==> v.services[k].id == p.id)
              && (p.id == NIL && p.address != "" ==> v.services[k].address == p.address)
              ==> if p.id == NIL && p.address == "" then k in at else |at| == 1 && at[0] <= k
    ensures p.id != NIL || p.address != "" ==> |at| <= 1
  {
    at := QueryPicks(v, p);
  }

  // the stored service has the address and the type, an empty one counting as any
  predicate Taken(svc: Record, r: Record) {
    (svc.address == "" || r.address == svc.address) && (svc.typ == "" || r.typ == svc.typ)
  }

  ghost predicate FirstTaken(rs: seq<Record>, svc: Record, k: int) {
    0 <= k < |rs| && Taken(svc, rs[k]) && (svc.address != "" ==> forall i :: 0 <= i < k ==> !Taken(svc, rs[i]))
  }

  lemma LookupAnswers(v: View, svc: Record)
    requires Agrees(v)
    ensures var found := Query(v, ByAddressAndType(svc));
            && (found == [] <==> forall k :: 0 <= k < |v.services| ==> !Taken(svc, v.services[k]))
            && forall i :: 0 <= i < |found| ==> exists k :: FirstTaken(v.services, svc, k) && v.services[k] == found[i]
  {
    var p := ByAddressAndType(svc);
    var found := Query(v, p);
    var at := QueryPicks(v, p);
    forall k | 0 <= k < |v.services| ensures Passes(v.services[k], p) <==> Taken(svc, v.services[k]) {
    }
    forall i | 0 <= i < |found| ensures exists k :: FirstTaken(v.services, svc, k) && v.services[k] == found[i] {
      assert at[i] in at && FirstTaken(v.services, svc, at[i]);
    }
    if found != [] {
      assert at[0] in at;
    }
  }

  // A registration without an ID is refused exactly when a stored service has its
  // address and its type; it is then handed the ID of such a service, the first one
  // if an address is given.  Otherwise it gets the fresh ID.  Nothing else about it
  // changes.
  lemma NormalizeAnswers(v: View, svc: Record, uuid: UUID, pick: nat)
    requires Agrees(v) && svc.id == NIL
    ensures var n := Normalize(v, svc, uuid, pick);
            if forall k :: 0 <= k < |v.services| ==> !Taken(svc, v.services[k]) then
              n == Normalized(Record(uuid, svc.address, svc.typ, svc.tags), Done)
            else
              && n.outcome == Failed(ServiceAlreadyExists)
              && exists k :: FirstTaken(v.services, svc, k)
                             && n.service == Record(v.services[k].id, svc.address, svc.typ, svc.tags)
  {
    LookupAnswers(v, svc);
    var found := Query(v, ByAddressAndType(svc));
    if found != [] {
      var k :| FirstTaken(v.services, svc, k) && v.services[k] == found[pick % |found|];
      assert Normalize(v, svc, uuid, pick).service == Record(v.services[k].id, svc.address, svc.typ, svc.tags);
    }
  }

  // A registration is accepted exactly when its ID, or without one the fresh ID, is
  // not registered and, without one, no stored service has its place.  Then the
  // list and the list of its type get it at their ends and its ID is registered;
  // otherwise nothing changes.
  lemma AddAnswers(v: View, svc: Record, uuid: UUID, pick: nat)
    requires Agrees(v)
    ensures var m := Add(v, svc, uuid, pick); var id := if svc.id == NIL then uuid else svc.id;
            if id !in v.ids && (svc.id == NIL ==> forall k :: 0 <= k < |v.services| ==> !Taken(svc, v.services[k])) then
              && m.outcome == Done && m.service == Record(id, svc.address, svc.typ, svc.tags)
              && m.view.services == v.services + [m.service] && m.view.ids == v.ids + {id}
              && forall t :: Listed(m.view, t) == Listed(v, t) + if t == svc.typ then [m.service] else []
            else m.outcome == Failed(ServiceAlreadyExists) && m.view == v
  {
    if svc.id == NIL {
      NormalizeAnswers(v, svc, uuid, pick);
    }
  }

  // the stored service has the ID, or without one the address and the type
  predicate Hit(svc: Record, r: Record) {
    if svc.id == NIL then r.address == svc.address && r.typ == svc.typ else r.id == svc.id
  }

  // the first hit, or -1
  ghost predicate FirstHit(rs: seq<Record>, svc: Record, k: int) {
    if k == -1 then forall i :: 0 <= i < |rs| ==> !Hit(svc, rs[i])
    else 0 <= k < |rs| && Hit(svc, rs[k]) && forall i :: 0 <= i < k ==> !Hit(svc, rs[i])
  }

  lemma FoundIsFirstHit(rs: seq<Record>, svc: Record)
    ensures FirstHit(rs, svc, Find(rs, svc))
  {
  }

  // A delete takes the first hit out of the list, and the first hit among the
  // services of the type given out of the list of that type; it panics in between
  // if there is none.
  lemma DeleteAnswers(v: View, svc: Record) returns (k: int, i: int)
    ensures FirstHit(v.services, svc, k) && FirstHit(Listed(v, svc.typ), svc, i)
    ensures var m := Delete(v, svc); var listed := Listed(v, svc.typ);
            if k == -1 then m == Mutation(v, svc, Failed(ServiceDoesNotExist))
            else
              && m.service == svc && m.view.services == v.services[..k] + v.services[k + 1..]
              && (if i == -1 then m.outcome == Panicked && m.view.index == v.index && m.view.ids == v.ids
                  else
                    && m.outcome == Done && m.view.ids == v.ids - {svc.id}
                    && forall t :: Listed(m.view, t)
                                   == if t == svc.typ then listed[..i] + listed[i + 1..] else Listed(v, t))
  {
    k, i := Find(v.services, svc), Find(Listed(v, svc.typ), svc);
    FoundIsFirstHit(v.services, svc);
    FoundIsFirstHit(Listed(v, svc.typ), svc);
  }

  // In step with its index, a server removes the first service of an address and a
  // type whenever one is stored, also without an ID.
  lemma NilDeleteAnswers(v: View, svc: Record) returns (k: int)
    requires Agrees(v) && svc.id == NIL
    ensures FirstHit(v.services, svc, k)
    ensures k != -1 ==> Delete(v, svc).outcome == Done
                        && Delete(v, svc).view.services == v.services[..k] + v.services[k + 1..]
  {
    var i;
    k, i := DeleteAnswers(v, svc);
    DeleteKeepsAgreementIff(v, svc);
    FoundIsFirstHit(v.services, svc);
  }
}
