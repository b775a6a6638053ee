/**
One discovery server on the heap (discovery/server/server.go): service objects
with a lazily filled tag cache, slices over shared backing arrays, removal by
shifting in place.  Every method is proved against its function in Registry.
*/
module Discovery {
  import opened Wrappers
  import opened Registry
  import opened RegistryIndex

  class Service {
    var id: UUID
    const address: string
    const typ: string
    const tags: seq<string>
    var tagIndex: map<string, bool>
    var tagIndexed: bool

    ghost predicate CacheValid()
      reads this`tagIndex, this`tagIndexed
    {
      tagIndexed ==> forall t :: t in tags <==> t in tagIndex && tagIndex[t]
    }

    function Rec(): Record
      reads this`id
    {
      Record(id, address, typ, tags)
    }

    constructor (r: Record)
      ensures Rec() == r && CacheValid()
    {
      id, address, typ, tags := r.id, r.address, r.typ, r.tags;
      tagIndex, tagIndexed := map[], false;
    }

    method IndexTags()
      requires CacheValid()
      modifies this`tagIndex, this`tagIndexed
      ensures tagIndexed && CacheValid()
      ensures old(tagIndexed) ==> tagIndex == old(tagIndex)
    {
      if tagIndexed {
        return;
      }
      tagIndexed := true;
      tagIndex := map[];
      for k := 0 to |tags|
        invariant tagIndexed
        invariant forall t :: t in tags[..k] <==> t in tagIndex && tagIndex[t]
      {
        tagIndex := tagIndex[tags[k] := true];
      }
      assert tags[..|tags|] == tags;
    }

    // The lazily filled cache answers membership in the tag list.
    method HasTag(tag: string) returns (has: bool)
      requires CacheValid()
      modifies this`tagIndex, this`tagIndexed
      ensures CacheValid()
      ensures has <==> tag in tags
    {
      if !tagIndexed {
        IndexTags();
      }
      has := tag in tagIndex && tagIndex[tag];
    }
  }

  // ---------- slices ----------

  // A Go slice: a length over a backing array whose size is the capacity.
  datatype Slice = Slice(buf: array<Service>, len: nat)

  ghost predicate Fits(s: Slice) {
    s.len <= s.buf.Length
  }

  function Elems(s: Slice): seq<Service>
    requires Fits(s)
    reads s.buf
  {
    s.buf[..s.len]
  }

  // the records that a list of service objects shows
  ghost predicate Shows(xs: seq<Service>, rs: seq<Record>)
    reads xs`id
  {
    |xs| == |rs| && forall k :: 0 <= k < |xs| ==> xs[k].Rec() == rs[k]
  }

  // append(s, e): in place while the capacity lasts, else into a larger array.
  method AppendTo(s: Slice, e: Service) returns (r: Slice)
    requires Fits(s)
    modifies s.buf
    ensures Fits(r) && (r.buf == s.buf || fresh(r.buf))
    ensures Elems(r) == old(Elems(s)) + [e]
  {
    if s.len < s.buf.Length {
      s.buf[s.len] := e;
      r := Slice(s.buf, s.len + 1);
    } else {
      var buf := new Service[2 * s.len + 1](_ => e);
      forall i | 0 <= i < s.len {
        buf[i] := s.buf[i];
      }
      r := Slice(buf, s.len + 1);
    }
  }

  // append(s[0:pos], s[pos+1:]...): the tail is copied down in the same array.
  method CutOut(s: Slice, pos: nat) returns (r: Slice)
    requires Fits(s) && pos < s.len
    modifies s.buf
    ensures r == Slice(s.buf, s.len - 1)
    ensures Elems(r) == Remove(old(Elems(s)), pos)
  {
    forall i | pos <= i < s.len - 1 {
      s.buf[i] := s.buf[i + 1];
    }
    r := Slice(s.buf, s.len - 1);
  }

  method FindServiceInSlice(haystack: seq<Service>, needle: Service, ghost rs: seq<Record>) returns (pos: int)
    requires Shows(haystack, rs)
    ensures pos == Find(rs, needle.Rec())
  {
    pos := -1;
    for p := 0 to |haystack|
      invariant pos == -1
      invariant forall k :: 0 <= k < p ==> !Matches(needle.Rec(), rs[k])
    {
      var item := haystack[p];
      if needle.id == NIL {
        if item.address == needle.address && item.typ == needle.typ {
          return p;
        }
      } else if item.id == needle.id {
        return p;
      }
    }
  }

  ghost predicate Separate(services: Slice, index: map<string, Slice>) {
    && (forall t :: t in index ==> index[t].buf != services.buf)
    && (forall t, u :: t in index && u in index && t != u ==> index[t].buf != index[u].buf)
  }

  ghost function Enlisted(v: View, r: Record): View {
    v.(index := v.index[r.typ := Listed(v, r.typ) + [r]])
  }

  // the view when buildIndex has seen the first k services
  ghost function Built(v: View, k: nat): View
    requires k <= |v.services|
  {
    v.(index := Indexed(v.services[..k]))
  }

  // the view after the second half of Delete
  ghost function Unlist(v: View, svc: Record): View {
    var at := Find(Listed(v, svc.typ), svc);
    if at == -1 then v
    else v.(index := v.index[svc.typ := Remove(Listed(v, svc.typ), at)], ids := v.ids - {svc.id})
  }

  // ---------- the server ----------

  lemma {:induction false} AllWantedConcat(a: seq<Record>, b: seq<Record>, p: QueryParameters)
    ensures AllWanted(a + b, p) == AllWanted(a, p) + AllWanted(b, p)
  {
    if a == [] {
      assert a + b == b;
    } else {
      assert (a + b)[1..] == a[1..] + b;
      AllWantedConcat(a[1..], b, p);
    }
  }

  // One turn of the query loop, and what breaking out of it leaves.
  lemma ScanStep(rs: seq<Record>, k: nat, p: QueryParameters)
    requires k < |rs|
    ensures AllWanted(rs[..k + 1], p) == AllWanted(rs[..k], p) + if Wanted(rs[k], p) then [rs[k]] else []
    ensures (p.id != NIL || p.address != "") && AllWanted(rs[..k], p) == [] && Wanted(rs[k], p)
            ==> Cut(AllWanted(rs, p), p) == [rs[k]]
    ensures k + 1 == |rs| ==> rs[..k + 1] == rs
  {
    assert rs[..k + 1] == rs[..k] + [rs[k]];
    AllWantedConcat(rs[..k], [rs[k]], p);
    assert rs == rs[..k + 1] + rs[k + 1..];
    AllWantedConcat(rs[..k + 1], rs[k + 1..], p);
  }

  lemma BuiltStep(v: View, k: nat)
    requires k < |v.services|
    ensures Enlisted(Built(v, k), v.services[k]) == Built(v, k + 1)
  {
    var rs, r := v.services, v.services[k];
    var index := Enlisted(Built(v, k), r).index;
    assert rs[..k + 1] == rs[..k] + [r];
    BootstrapAgrees(rs[..k]);
    assert Types(rs[..k + 1]) == Types(rs[..k]) + {r.typ};
    forall t | t in index ensures index[t] == OfType(rs[..k + 1], t) {
      OfTypeConcat(rs[..k], [r], t);
      assert OfType([r], t) == if r.typ == t then [r] else [];
      assert Listed(Bootstrapped(rs[..k]), t) == OfType(rs[..k], t);
    }
  }

  class Server {
    var services: Slice
    var indexByType: map<string, Slice>
    var uniqueness: set<UUID>
    // what the fields represent, and which arrays and services they reach
    ghost var view: View
    ghost var bufs: set<array<Service>>
    ghost var objects: set<Service>

    ghost predicate Are(xs: seq<Service>, rs: seq<Record>)
      reads this`objects, objects`id
    {
      (forall e :: e in xs ==> e in objects) && Shows(xs, rs)
    }

    ghost predicate Holds(s: Slice, rs: seq<Record>)
      reads this`objects, s.buf, objects`id
    {
      Fits(s) && Are(Elems(s), rs)
    }

    // The index and the ID set are as the view says, apart from the slice s.
    ghost predicate RestRepresents(t0: Option<string>, s: Slice)
      reads this, bufs, objects`id
    {
      && indexByType.Keys == view.index.Keys && uniqueness == view.ids
      && (forall t :: t in indexByType && Some(t) != t0 ==>
            indexByType[t].buf in bufs && Holds(indexByType[t], view.index[t]))
      && Separate(s, indexByType)
    }

    // Every list but the one under the given type is as the view says.
    ghost predicate RepresentsBut(t0: Option<string>)
      reads this, bufs, objects`id
    {
      services.buf in bufs && Holds(services, view.services) && RestRepresents(t0, services)
    }

    ghost predicate Represents()
      reads this, bufs, objects`id
    {
      RepresentsBut(None)
    }

    ghost predicate CachesValid()
      reads this`objects, objects
    {
      forall e :: e in objects ==> e.CacheValid()
    }

    // Every list has its own backing array and every reachable tag cache is
    // empty or complete.  That list and index agree is not part of this: a
    // mistyped delete breaks it.
    ghost predicate Valid()
      reads this, bufs, objects
    {
      Represents() && CachesValid()
    }

    lemma AreAppended(xs: seq<Service>, rs: seq<Record>, e: Service)
      requires Are(xs, rs) && e in objects
      ensures Are(xs + [e], rs + [e.Rec()])
    {
    }

    lemma AreRemoved(xs: seq<Service>, rs: seq<Record>, pos: nat)
      requires Are(xs, rs) && pos < |xs|
      ensures Are(Remove(xs, pos), Remove(rs, pos))
    {
    }

    constructor ()
      ensures Valid() && view == EMPTY && objects == {} && fresh(bufs)
    {
      var none := new Service[0];
      services := Slice(none, 0);
      indexByType, uniqueness := map[], {};
      view, objects, bufs := EMPTY, {}, {none};
    }

    // the two tag loops of the query
    method HasAllTags(item: Service, p: QueryParameters) returns (flag: bool)
      requires item in objects && CachesValid()
      modifies objects`tagIndex, objects`tagIndexed
      ensures CachesValid()
      ensures flag <==> HasTags(item.Rec(), p)
    {
      for k := 0 to |p.tags|
        invariant CachesValid()
        invariant forall t :: t in p.tags[..k] ==> t in item.tags
      {
        var has := item.HasTag(p.tags[k]);
        if !has {
          return false;
        }
      }
      for k := 0 to |p.excludeTags|
        invariant CachesValid()
        invariant forall t :: t in p.excludeTags[..k] ==> t !in item.tags
      {
        var has := item.HasTag(p.excludeTags[k]);
        if has {
          return false;
        }
      }
      assert p.tags[..|p.tags|] == p.tags && p.excludeTags[..|p.excludeTags|] == p.excludeTags;
      return true;
    }

    method Scan(haystack: seq<Service>, p: QueryParameters, ghost rs: seq<Record>) returns (result: seq<Service>)
      requires CachesValid() && Shows(haystack, rs) && forall e :: e in haystack ==> e in objects
      modifies objects`tagIndex, objects`tagIndexed
      ensures CachesValid()
      ensures Shows(result, Cut(AllWanted(rs, p), p)) && forall e :: e in result ==> e in haystack
    {
      result := [];
      for k := 0 to |haystack|
        invariant CachesValid()
        invariant Shows(result, AllWanted(rs[..k], p))
        invariant p.id != NIL || p.address != "" ==> result == []
        invariant forall e :: e in result ==> e in haystack
      {
        var item := haystack[k];
        var flag := HasAllTags(item, p);
        ScanStep(rs, k, p);
        if flag {
          if p.id != NIL {
            if p.id == item.id {
              result := [item];
              break;
            }
            continue;
          }
          if p.address != "" {
            if p.address == item.address {
              result := [item];
              break;
            }
            continue;
          }
          result := result + [item];
        }
      }
      assert rs[..|rs|] == rs;
    }

    method Query(p: QueryParameters, ghost rs: seq<Record>) returns (result: seq<Service>)
      requires Valid() && rs == Registry.Query(view, p)
      modifies objects`tagIndex, objects`tagIndexed
      ensures Valid()
      ensures Shows(result, rs) && forall e :: e in result ==> e in objects
    {
      if p.typ == "" {
        result := Scan(Elems(services), p, view.services);
      } else if p.typ in indexByType {
        result := Scan(Elems(indexByType[p.typ]), p, view.index[p.typ]);
      } else {
        result := Scan([], p, []);
      }
    }

    method QueryOne(p: QueryParameters, pick: nat) returns (found: Service?)
      requires Valid()
      modifies objects`tagIndex, objects`tagIndexed
      ensures Valid()
      ensures (if found == null then None else Some(found.Rec())) == Registry.QueryOne(view, p, pick)
    {
      var result := Query(p, Registry.Query(view, p));
      if |result| <= 0 {
        return null;
      }
      return result[pick % |result|];
    }

    method NormalizeService(service: Service, uuid: UUID, pick: nat) returns (outcome: Outcome)
      requires Valid() && service.CacheValid()
      requires service.id == NIL ==> service !in objects
      modifies service`id, service`tagIndex, service`tagIndexed, objects`tagIndex, objects`tagIndexed
      ensures Valid() && service.CacheValid()
      ensures Normalized(service.Rec(), outcome) == Normalize(view, old(service.Rec()), uuid, pick)
    {
      service.IndexTags();
      if service.id == NIL {
        var found := QueryOne(QueryParameters(NIL, service.address, service.typ, [], []), pick);
        if found != null {
          service.id := found.id;
          return Failed(ServiceAlreadyExists);
        }
        service.id := uuid;
      }
      return Done;
    }

    twostate lemma SameHolds(s: Slice)
      requires unchanged(this) && Fits(s) && s.buf[..] == old(s.buf[..])
      requires forall e :: e in objects ==> unchanged(e`id)
      ensures forall rs :: old(Holds(s, rs)) ==> Holds(s, rs)
    {
      assert Elems(s) == old(Elems(s));
      forall rs | old(Holds(s, rs)) ensures Holds(s, rs) {
        forall k | 0 <= k < s.len ensures Elems(s)[k].Rec() == rs[k] {
          assert Elems(s)[k] in objects;
        }
      }
    }

    // Writing one backing array leaves every list over another array as it was.
    twostate lemma OthersUntouched(new b: array<Service>)
      requires old(Represents()) && unchanged(this)
      requires forall a :: a in bufs && a != b ==> a[..] == old(a[..])
      requires forall e :: e in objects ==> unchanged(e`id)
      ensures services.buf != b ==> Holds(services, view.services)
      ensures forall t :: t in indexByType && indexByType[t].buf != b ==> Holds(indexByType[t], view.index[t])
    {
      if services.buf != b {
        SameHolds(services);
      }
      forall t | t in indexByType && indexByType[t].buf != b ensures Holds(indexByType[t], view.index[t]) {
        assert indexByType[t].buf in bufs && old(Holds(indexByType[t], view.index[t]));
        SameHolds(indexByType[t]);
      }
    }

    method PutList(t0: string, s: Slice, ghost rs: seq<Record>)
      requires RepresentsBut(Some(t0)) && Holds(s, rs)
      requires s.buf != services.buf
      requires forall t :: t in indexByType && t != t0 ==> indexByType[t].buf != s.buf
      modifies this`indexByType, this`view, this`bufs
      ensures Represents() && bufs == old(bufs) + {s.buf} && indexByType == old(indexByType)[t0 := s]
      ensures view == old(view).(index := old(view).index[t0 := rs])
    {
      indexByType := indexByType[t0 := s];
      view := view.(index := view.index[t0 := rs]);
      bufs := bufs + {s.buf};
    }

    method PutServices(s: Slice, ghost rs: seq<Record>)
      requires RestRepresents(None, s) && Holds(s, rs)
      modifies this`services, this`view, this`bufs
      ensures Represents() && bufs == old(bufs) + {s.buf} && view == old(view).(services := rs)
    {
      services := s;
      view := view.(services := rs);
      bufs := bufs + {s.buf};
    }

    // append to the index list of the service's type, a missing list counting as empty
    method Enlist(e: Service)
      requires Represents() && e in objects
      modifies this`indexByType, this`view, this`bufs, bufs - {services.buf}
      ensures Represents() && bufs >= old(bufs) && fresh(bufs - old(bufs))
      ensures view == Enlisted(old(view), e.Rec())
    {
      ghost var rs := Listed(view, e.typ);
      var slot;
      if e.typ in indexByType {
        slot := indexByType[e.typ];
      } else {
        var none := new Service[0];
        slot := Slice(none, 0);
      }
      ghost var xs := Elems(slot);
      var longer := AppendTo(slot, e);
      OthersUntouched(slot.buf);
      AreAppended(xs, rs, e);
      PutList(e.typ, longer, rs + [e.Rec()]);
    }

    method SetUniqueness(ids: set<UUID>)
      requires Represents()
      modifies this`uniqueness, this`view
      ensures Represents() && view == old(view).(ids := ids)
    {
      uniqueness := ids;
      view := view.(ids := ids);
    }

    method AppendService(e: Service)
      requires Represents() && e in objects
      modifies this`services, this`view, this`bufs, services.buf
      ensures Represents() && bufs >= old(bufs) && fresh(bufs - old(bufs))
      ensures view == old(view).(services := old(view).services + [e.Rec()])
    {
      ghost var xs := Elems(services);
      var longer := AppendTo(services, e);
      OthersUntouched(services.buf);
      AreAppended(xs, view.services, e);
      PutServices(longer, view.services + [e.Rec()]);
    }

    // Store without the tag caches, which it leaves alone
    method StoreListed(service: Service)
      requires Represents() && service in objects && service.id !in view.ids
      modifies this`services, this`indexByType, this`uniqueness, this`view, this`bufs, bufs
      ensures Represents() && bufs >= old(bufs) && fresh(bufs - old(bufs))
      ensures view == AddLocked(old(view), service.Rec()).view
    {
      SetUniqueness(uniqueness + {service.id});
      AppendService(service);
      Enlist(service);
    }

    ghost method Reach(e: Service)
      requires Valid() && e.CacheValid()
      modifies this`objects
      ensures Valid() && objects == old(objects) + {e}
    {
      objects := objects + {e};
    }

    // the part of Add that holds the write lock
    method Store(service: Service) returns (outcome: Outcome)
      requires Valid() && service.CacheValid()
      modifies this, bufs
      ensures Valid() && objects == old(objects) + if outcome == Done then {service} else {}
      ensures bufs >= old(bufs) && fresh(bufs - old(bufs))
      ensures Mutation(view, service.Rec(), outcome) == AddLocked(old(view), service.Rec())
    {
      if service.id in uniqueness {
        return Failed(ServiceAlreadyExists);
      }
      Reach(service);
      StoreListed(service);
      outcome := Done;
    }

    method TakeServices(list: seq<Service>, ghost rs: seq<Record>)
      requires Valid() && view == EMPTY
      requires Shows(list, rs) && forall e :: e in list ==> e.CacheValid()
      modifies this`services, this`view, this`bufs, this`objects
      ensures Valid() && bufs >= old(bufs) && fresh(bufs - old(bufs)) && indexByType == old(indexByType)
      ensures view == EMPTY.(services := rs) && objects == old(objects) + set e | e in list
    {
      var buf := new Service[|list|](k requires 0 <= k < |list| => list[k]);
      objects := objects + set e | e in list;
      var taken := Slice(buf, |list|);
      assert Elems(taken) == list;
      PutServices(taken, rs);
    }

    method ClearIndex()
      requires Valid()
      modifies this`indexByType, this`view
      ensures Valid() && view == Built(old(view), 0)
    {
      indexByType := map[];
      view := Built(view, 0);
    }

    method IndexAt(k: nat)
      requires Valid() && k < services.len
      modifies this`indexByType, this`view, this`bufs, bufs, objects`tagIndex, objects`tagIndexed
      ensures Valid() && bufs >= old(bufs) && fresh(bufs - old(bufs))
      ensures view == Enlisted(old(view), old(view).services[k])
    {
      var svc := services.buf[k];
      assert svc == Elems(services)[k];
      svc.IndexTags();
      assert Represents();
      Enlist(svc);
    }

    // one turn of the loop of buildIndex
    method IndexNext(k: nat, ghost v: View)
      requires Valid() && k < |v.services| && view == Built(v, k)
      modifies this`indexByType, this`view, this`bufs, bufs, objects`tagIndex, objects`tagIndexed
      ensures Valid() && bufs >= old(bufs) && fresh(bufs - old(bufs))
      ensures view == Built(v, k + 1)
    {
      IndexAt(k);
      BuiltStep(v, k);
    }

    method BuildIndex()
      requires Valid()
      modifies this`indexByType, this`view, this`bufs, bufs, objects`tagIndex, objects`tagIndexed
      ensures Valid() && bufs >= old(bufs) && fresh(bufs - old(bufs))
      ensures view == old(view).(index := Indexed(old(view).services))
    {
      ghost var v := view;
      ClearIndex();
      for k := 0 to services.len
        invariant Valid() && bufs >= old(bufs) && fresh(bufs - old(bufs))
        invariant view == Built(v, k)
      {
        IndexNext(k, v);
      }
      assert v.services[..services.len] == v.services;
    }

    // NewServer on a still empty server: take a peer's service list and index it
    method Bootstrap(list: seq<Service>, ghost rs: seq<Record>)
      requires Valid() && view == EMPTY
      requires Shows(list, rs) && forall e :: e in list ==> e.CacheValid()
      modifies this, bufs, objects`tagIndex, objects`tagIndexed
      modifies (set e | e in list)`tagIndex, (set e | e in list)`tagIndexed
      ensures Valid() && bufs >= old(bufs) && fresh(bufs - old(bufs))
      ensures view == Bootstrapped(rs)
    {
      TakeServices(list, rs);
      BuildIndex();
    }

    method Add(service: Service, uuid: UUID, pick: nat) returns (outcome: Outcome)
      requires Valid() && service.CacheValid()
      requires service.id == NIL ==> service !in objects
      modifies this, bufs, service`id, service`tagIndex, service`tagIndexed, objects`tagIndex, objects`tagIndexed
      ensures Valid() && service.CacheValid() && objects == old(objects) + if outcome == Done then {service} else {}
      ensures bufs >= old(bufs) && fresh(bufs - old(bufs))
      ensures Mutation(view, service.Rec(), outcome) == Registry.Add(old(view), old(service.Rec()), uuid, pick)
    {
      outcome := NormalizeService(service, uuid, pick);
      if outcome == Done {
        outcome := Store(service);
      }
    }

    method FindIndexed(service: Service) returns (at: int)
      requires Represents()
      ensures at == Find(Listed(view, service.typ), service.Rec())
      ensures at != -1 ==> service.typ in indexByType && at < indexByType[service.typ].len
    {
      if service.typ in indexByType {
        at := FindServiceInSlice(Elems(indexByType[service.typ]), service, view.index[service.typ]);
      } else {
        at := -1;
      }
    }

    method CutSlot(t: string, pos: nat) returns (shorter: Slice)
      requires Represents() && t in indexByType && pos < indexByType[t].len
      modifies indexByType[t].buf
      ensures RepresentsBut(Some(t)) && shorter.buf == indexByType[t].buf
      ensures Holds(shorter, Remove(view.index[t], pos))
    {
      ghost var xs := Elems(indexByType[t]);
      shorter := CutOut(indexByType[t], pos);
      OthersUntouched(shorter.buf);
      AreRemoved(xs, view.index[t], pos);
    }

    method CutIndex(t: string, pos: nat)
      requires Represents() && t in indexByType && pos < indexByType[t].len
      modifies this`indexByType, this`view, this`bufs, indexByType[t].buf
      ensures Represents() && bufs == old(bufs)
      ensures view == old(view).(index := old(view).index[t := Remove(old(view).index[t], pos)])
    {
      var shorter := CutSlot(t, pos);
      PutList(t, shorter, Remove(view.index[t], pos));
      assert bufs == old(bufs);
    }

    // the second half of Delete: the index list and the ID set
    method DeleteIndexed(service: Service) returns (outcome: Outcome)
      requires Represents()
      modifies this`indexByType, this`uniqueness, this`view, this`bufs, bufs
      ensures Represents() && bufs == old(bufs)
      ensures outcome == if Find(Listed(old(view), service.typ), service.Rec()) == -1 then Panicked else Done
      ensures view == Unlist(old(view), service.Rec())
    {
      var at := FindIndexed(service);
      if at == -1 {
        outcome := Panicked;
      } else {
        CutIndex(service.typ, at);
        SetUniqueness(uniqueness - {service.id});
        outcome := Done;
      }
    }

    method CutService(pos: nat)
      requires Represents() && pos < services.len
      modifies this`services, this`view, this`bufs, services.buf
      ensures Represents() && bufs == old(bufs)
      ensures view == old(view).(services := Remove(old(view).services, pos))
    {
      ghost var xs := Elems(services);
      var shorter := CutOut(services, pos);
      OthersUntouched(services.buf);
      AreRemoved(xs, view.services, pos);
      PutServices(shorter, Remove(view.services, pos));
      assert bufs == old(bufs);
    }

    // Delete without the tag caches, which it leaves alone
    method DeleteListed(service: Service) returns (outcome: Outcome)
      requires Represents()
      modifies this`services, this`indexByType, this`uniqueness, this`view, this`bufs, bufs
      ensures Represents() && bufs == old(bufs)
      ensures Mutation(view, service.Rec(), outcome) == Registry.Delete(old(view), service.Rec())
    {
      var pos := FindServiceInSlice(Elems(services), service, view.services);
      if pos == -1 {
        outcome := Failed(ServiceDoesNotExist);
      } else {
        CutService(pos);
        outcome := DeleteIndexed(service);
      }
    }

    method Delete(service: Service) returns (outcome: Outcome)
      requires Valid()
      modifies this, bufs
      ensures Valid() && objects == old(objects) && bufs == old(bufs)
      ensures Mutation(view, service.Rec(), outcome) == Registry.Delete(old(view), service.Rec())
    {
      outcome := DeleteListed(service);
    }
  }
}
