/**
Index agreement: in every state of every run the list under a type is exactly
the order-preserving subsequence of that type, and a query answered through it
is the plain scan of the service list.
*/
module RegistryIndex {
  import opened Wrappers
  import opened Registry

  lemma {:induction false} OfTypeConcat(a: seq<Record>, b: seq<Record>, t: string)
    ensures OfType(a + b, t) == OfType(a, t) + OfType(b, t)
  {
    if a == [] {
      assert a + b == b;
    } else {
      var r, rest := a[0], a[1..];
      assert (a + b)[1..] == rest + b;
      OfTypeConcat(rest, b, t);
      assert r.typ != t ==> OfType(a, t) == OfType(rest, t);
    }
  }

  lemma {:induction false} OfTypeMembers(rs: seq<Record>, t: string, r: Record)
    ensures r in OfType(rs, t) <==> r in rs && r.typ == t
  {
    if rs != [] {
      assert r in rs <==> r == rs[0] || r in rs[1..];
      OfTypeMembers(rs[1..], t, r);
    }
  }

  lemma OfTypeCons(r: Record, rest: seq<Record>, t: string)
    ensures OfType([r] + rest, t) == (if r.typ == t then [r] else []) + OfType(rest, t)
  {
    assert ([r] + rest)[1..] == rest;
  }

  lemma FindCons(r: Record, rest: seq<Record>, needle: Record)
    requires !Matches(needle, r)
    ensures Find([r] + rest, needle) == (if Find(rest, needle) == -1 then -1 else Find(rest, needle) + 1)
  {
    assert ([r] + rest)[1..] == rest;
  }

  lemma RemoveCons(r: Record, rest: seq<Record>, at: nat)
    requires at < |rest|
    ensures Remove([r] + rest, at + 1) == [r] + Remove(rest, at)
  {
  }

  // The first match in the list is the first match in the index list of its type.
  lemma {:induction false} RemoveFirstMatch(rs: seq<Record>, needle: Record, pos: nat, listed: seq<Record>)
    requires pos == Find(rs, needle) && rs[pos].typ == needle.typ
    requires listed == OfType(rs, needle.typ)
    ensures Find(listed, needle) != -1
    ensures Remove(listed, Find(listed, needle)) == OfType(Remove(rs, pos), needle.typ)
  {
    var t, first, rest := needle.typ, rs[0], rs[1..];
    if pos == 0 {
      assert Remove(rs, 0) == rest;
      assert Remove(listed, 0) == OfType(rest, t);
    } else {
      var smaller := OfType(rest, t);
      RemoveFirstMatch(rest, needle, pos - 1, smaller);
      assert rs == [first] + rest;
      RemoveCons(first, rest, pos - 1);
      OfTypeCons(first, Remove(rest, pos - 1), t);
      OfTypeCons(first, rest, t);
      if first.typ == t {
        FindCons(first, smaller, needle);
        RemoveCons(first, smaller, Find(smaller, needle));
      } else {
        assert listed == smaller;
      }
    }
  }

  lemma {:induction false} RemoveOtherType(rs: seq<Record>, pos: nat, t: string)
    requires pos < |rs|
    ensures rs[pos].typ != t ==> OfType(Remove(rs, pos), t) == OfType(rs, t)
    ensures rs[pos].typ == t ==> |OfType(Remove(rs, pos), t)| == |OfType(rs, t)| - 1
  {
    OfTypeConcat(rs[..pos], rs[pos + 1..], t);
    OfTypeConcat(rs[..pos], rs[pos..], t);
    assert rs == rs[..pos] + rs[pos..];
    assert rs[pos..][1..] == rs[pos + 1..];
  }

  lemma BootstrapAgrees(list: seq<Record>)
    ensures Agrees(Bootstrapped(list))
  {
    forall t ensures Listed(Bootstrapped(list), t) == OfType(list, t) {
      if t !in Types(list) && OfType(list, t) != [] {
        var r := OfType(list, t)[0];
        OfTypeMembers(list, t, r);
        assert false;
      }
    }
  }

  lemma AddKeepsAgreement(v: View, svc: Record, uuid: UUID, pick: nat)
    requires Agrees(v)
    ensures Agrees(Add(v, svc, uuid, pick).view)
  {
    var m := Add(v, svc, uuid, pick);
    if m.outcome == Done {
      forall t ensures Listed(m.view, t) == OfType(m.view.services, t) {
        OfTypeConcat(v.services, [m.service], t);
        assert OfType([m.service], t) == if m.service.typ == t then [m.service] else [];
      }
    }
  }

  // Delete keeps the index in step with the list exactly when the first match
  // has the type the caller named; otherwise the list loses a service that the
  // index of its own type keeps.
  lemma DeleteKeepsAgreementIff(v: View, svc: Record)
    requires Agrees(v)
    ensures Agrees(Delete(v, svc).view) <==> TypeMatches(v, svc)
    ensures TypeMatches(v, svc) ==> Delete(v, svc).outcome != Panicked
  {
    var pos := Find(v.services, svc);
    if pos != -1 {
      var w := Delete(v, svc).view;
      var u := v.services[pos].typ;
      RemoveOtherType(v.services, pos, u);
      if u == svc.typ {
        RemoveFirstMatch(v.services, svc, pos, Listed(v, u));
        forall t ensures Listed(w, t) == OfType(w.services, t) {
          RemoveOtherType(v.services, pos, t);
        }
      } else {
        assert Listed(w, u) == Listed(v, u);
        assert Listed(w, u) != OfType(w.services, u);
      }
    }
  }

  ghost predicate AlwaysAgrees(v: View, ops: seq<Op>)
    decreases |ops|
  {
    Agrees(v) && (ops == [] || AlwaysAgrees(Apply(v, ops[0]), ops[1..]))
  }

  predicate TypeSafe(v: View, ops: seq<Op>)
    decreases |ops|
  {
    ops == []
    || ((ops[0].OpDelete? ==> TypeMatches(v, ops[0].service)) && TypeSafe(Apply(v, ops[0]), ops[1..]))
  }

  // The list and the index agree in every state of a run, from any bootstrapped
  // or later state, exactly when every delete names the type of what it finds.
  lemma {:induction false} AgreementOverRuns(v: View, ops: seq<Op>)
    requires Agrees(v)
    ensures AlwaysAgrees(v, ops) <==> TypeSafe(v, ops)
    decreases |ops|
  {
    if ops != [] {
      var w := Apply(v, ops[0]);
      match ops[0] {
        case OpAdd(svc, uuid, pick) => AddKeepsAgreement(v, svc, uuid, pick);
        case OpDelete(svc) => DeleteKeepsAgreementIff(v, svc);
      }
      if Agrees(w) {
        AgreementOverRuns(w, ops[1..]);
      }
    }
  }

  // ---------- queries ----------

  lemma {:induction false} IndexScanIsPlainScan(rs: seq<Record>, p: QueryParameters)
    ensures AllWanted(if p.typ == "" then rs else OfType(rs, p.typ), p) == PlainScan(rs, p)
  {
    if rs != [] {
      IndexScanIsPlainScan(rs[1..], p);
      if p.typ != "" {
        var rest := OfType(rs[1..], p.typ);
        if rs[0].typ == p.typ {
          assert OfType(rs, p.typ)[1..] == rest;
        } else {
          assert OfType(rs, p.typ) == rest;
        }
      }
    }
  }

  lemma {:induction false} PlainScanMembers(rs: seq<Record>, p: QueryParameters, r: Record)
    ensures r in PlainScan(rs, p) <==> r in rs && Passes(r, p)
  {
    if rs != [] {
      assert r in rs <==> r == rs[0] || r in rs[1..];
      PlainScanMembers(rs[1..], p, r);
    }
  }

  lemma QueryIsPlainScan(v: View, p: QueryParameters)
    requires Agrees(v)
    ensures Query(v, p) == Cut(PlainScan(v.services, p), p)
  {
    IndexScanIsPlainScan(v.services, p);
  }

  // For every random choice.
  lemma QueryOneFindsAMatch(v: View, p: QueryParameters, pick: nat)
    requires Agrees(v)
    ensures QueryOne(v, p, pick) == None <==> forall r :: r in v.services ==> !Passes(r, p)
    ensures forall r :: QueryOne(v, p, pick) == Some(r) ==> r in v.services && Passes(r, p)
  {
    QueryIsPlainScan(v, p);
    var plain := PlainScan(v.services, p);
    forall r ensures r in plain <==> r in v.services && Passes(r, p) {
      PlainScanMembers(v.services, p, r);
    }
    if plain != [] {
      assert plain[0] in plain;
      var found := Query(v, p);
      assert forall r :: r in found ==> r in plain;
      assert found[pick % |found|] in found;
    }
  }

  // Every match can be the one that is picked.
  lemma QueryOneCanPickAny(v: View, p: QueryParameters, r: Record) returns (pick: nat)
    requires r in Query(v, p)
    ensures QueryOne(v, p, pick) == Some(r)
  {
    var found := Query(v, p);
    pick :| pick < |found| && found[pick] == r;
    assert pick % |found| == pick;
  }
}
