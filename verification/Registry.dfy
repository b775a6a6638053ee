/**
The discovery registry as a value: the ordered service list, the per-type
index and the set of registered IDs (discovery/server/server.go), with every
operation as a function from one view to the next.  The heap-level server of
module Discovery is proved against these functions; the lemmas here say what
the operations keep over whole runs.
*/
module Registry {
  import opened Wrappers

  type UUID = nat

  const NIL: UUID := 0

  datatype Record = Record(id: UUID, address: string, typ: string, tags: seq<string>)

  datatype View = View(services: seq<Record>, index: map<string, seq<Record>>, ids: set<UUID>)

  datatype QueryParameters = QueryParameters(
    id: UUID, address: string, typ: string, tags: seq<string>, excludeTags: seq<string>)

  datatype Error = ServiceAlreadyExists | ServiceDoesNotExist

  // Panicked is the run-time panic of slicing with position -1; net/http
  // recovers it and the deferred unlock still runs.
  datatype Outcome = Done | Failed(error: Error) | Panicked

  const EMPTY := View([], map[], {})

  // A missing key of a Go map of slices reads as the nil slice.
  function Listed(v: View, t: string): seq<Record> {
    if t in v.index then v.index[t] else []
  }

  function Remove<T>(xs: seq<T>, pos: nat): seq<T>
    requires pos < |xs|
  {
    xs[..pos] + xs[pos + 1..]
  }

  // ---------- finding and filtering ----------

  predicate Matches(needle: Record, item: Record) {
    if needle.id == NIL then item.address == needle.address && item.typ == needle.typ
    else item.id == needle.id
  }

  // The position of the first match, or -1.
  function Find(haystack: seq<Record>, needle: Record): (pos: int)
    ensures -1 <= pos < |haystack|
    ensures 0 <= pos ==> Matches(needle, haystack[pos])
    ensures forall k :: 0 <= k < (if pos == -1 then |haystack| else pos) ==> !Matches(needle, haystack[k])
  {
    if haystack == [] then -1
    else if Matches(needle, haystack[0]) then 0
    else
      var rest := Find(haystack[1..], needle);
      if rest == -1 then -1 else rest + 1
  }

  // The order-preserving subsequence of one type.
  function OfType(rs: seq<Record>, t: string): seq<Record> {
    if rs == [] then []
    else (if rs[0].typ == t then [rs[0]] else []) + OfType(rs[1..], t)
  }

  predicate HasTags(r: Record, p: QueryParameters) {
    (forall t :: t in p.tags ==> t in r.tags) && (forall t :: t in p.excludeTags ==> t !in r.tags)
  }

  // The tests of the query loop; it never looks at the type.
  predicate Wanted(r: Record, p: QueryParameters) {
    HasTags(r, p) && if p.id != NIL then r.id == p.id else p.address == "" || r.address == p.address
  }

  function AllWanted(rs: seq<Record>, p: QueryParameters): seq<Record> {
    if rs == [] then []
    else (if Wanted(rs[0], p) then [rs[0]] else []) + AllWanted(rs[1..], p)
  }

  // An ID or address query stops at its first hit.
  function Cut<T>(xs: seq<T>, p: QueryParameters): seq<T> {
    if (p.id != NIL || p.address != "") && |xs| > 0 then xs[..1] else xs
  }

  // Query as the server answers it: through the type index when a type is given.
  function Query(v: View, p: QueryParameters): seq<Record> {
    Cut(AllWanted(if p.typ == "" then v.services else Listed(v, p.typ), p), p)
  }

  function QueryOne(v: View, p: QueryParameters, pick: nat): Option<Record> {
    var found := Query(v, p);
    if found == [] then None else Some(found[pick % |found|])
  }

  // The reference: test every stored service, its type included.
  predicate Passes(r: Record, p: QueryParameters) {
    && (p.typ == "" || r.typ == p.typ)
    && (forall t :: t in p.tags ==> t in r.tags) && (forall t :: t in p.excludeTags ==> t !in r.tags)
    && (if p.id != NIL then r.id == p.id else p.address == "" || r.address == p.address)
  }

  function PlainScan(rs: seq<Record>, p: QueryParameters): seq<Record> {
    if rs == [] then []
    else (if Passes(rs[0], p) then [rs[0]] else []) + PlainScan(rs[1..], p)
  }

  // ---------- the mutations ----------

  datatype Normalized = Normalized(service: Record, outcome: Outcome)

  function ByAddressAndType(svc: Record): QueryParameters {
    QueryParameters(NIL, svc.address, svc.typ, [], [])
  }

  // uuid is the random UUID, pick the random choice of QueryOne.
  function Normalize(v: View, svc: Record, uuid: UUID, pick: nat): Normalized {
    if svc.id != NIL then Normalized(svc, Done)
    else match QueryOne(v, ByAddressAndType(svc), pick)
      case Some(found) => Normalized(svc.(id := found.id), Failed(ServiceAlreadyExists))
      case None => Normalized(svc.(id := uuid), Done)
  }

  datatype Mutation = Mutation(view: View, service: Record, outcome: Outcome)

  // The part of Add that holds the write lock.
  function AddLocked(v: View, svc: Record): Mutation {
    if svc.id in v.ids then Mutation(v, svc, Failed(ServiceAlreadyExists))
    else Mutation(
        View(v.services + [svc], v.index[svc.typ := Listed(v, svc.typ) + [svc]], v.ids + {svc.id}), svc, Done)
  }

  function Add(v: View, svc: Record, uuid: UUID, pick: nat): Mutation {
    var n := Normalize(v, svc, uuid, pick);
    if n.outcome != Done then Mutation(v, n.service, n.outcome) else AddLocked(v, n.service)
  }

  function Delete(v: View, svc: Record): Mutation {
    var pos := Find(v.services, svc);
    if pos == -1 then Mutation(v, svc, Failed(ServiceDoesNotExist))
    else
      var services := Remove(v.services, pos);
      var at := Find(Listed(v, svc.typ), svc);
      if at == -1 then Mutation(v.(services := services), svc, Panicked)
      else Mutation(
          View(services, v.index[svc.typ := Remove(Listed(v, svc.typ), at)], v.ids - {svc.id}), svc, Done)
  }

  function Types(rs: seq<Record>): set<string> {
    set r | r in rs :: r.typ
  }

  // What buildIndex makes of a service list.
  function Indexed(rs: seq<Record>): map<string, seq<Record>> {
    map t | t in Types(rs) :: OfType(rs, t)
  }

  // A server that took its first service list from a peer; its ID set stays empty.
  function Bootstrapped(list: seq<Record>): View {
    View(list, Indexed(list), {})
  }

  datatype Op = OpAdd(service: Record, uuid: UUID, pick: nat) | OpDelete(service: Record)

  // A version 4 UUID is never nil (RFC 4122, sections 4.1.7 and 4.4).
  predicate ValidOp(op: Op) {
    op.OpAdd? ==> op.uuid != NIL
  }

  function Apply(v: View, op: Op): View {
    match op
    case OpAdd(svc, uuid, pick) => Add(v, svc, uuid, pick).view
    case OpDelete(svc) => Delete(v, svc).view
  }

  function Run(v: View, ops: seq<Op>): View
    decreases |ops|
  {
    if ops == [] then v else Run(Apply(v, ops[0]), ops[1..])
  }

  // ---------- invariants ----------

  ghost predicate Agrees(v: View) {
    forall t :: Listed(v, t) == OfType(v.services, t)
  }

  ghost function StoredIds(rs: seq<Record>): set<UUID> {
    set r | r in rs :: r.id
  }

  ghost predicate DistinctIds(rs: seq<Record>) {
    forall i, j :: 0 <= i < j < |rs| ==> rs[i].id != rs[j].id
  }

  ghost predicate Identified(v: View) {
    && DistinctIds(v.services)
    && (forall i :: 0 <= i < |v.services| ==> v.services[i].id != NIL && v.services[i].id in v.ids)
  }

  // What a caller of Delete can check: nothing matches, or the first match has the type named.
  predicate TypeMatches(v: View, svc: Record) {
    var pos := Find(v.services, svc);
    pos == -1 || v.services[pos].typ == svc.typ
  }

  predicate CarriesId(v: View, svc: Record) {
    Find(v.services, svc) == -1 || svc.id != NIL
  }
}
