/**
Paths named by storage partition: the longest-prefix search of
pathToPartitionedPath (utilitycmd/command.go) and getStoragePath
(bridge/server/bridge.go), which undoes it on the other side.
*/
module PartitionedPaths {
  import opened Wrappers
  import opened Paths

  // partition name to base directory
  type Storage = map<string, string>

  datatype PartitionedPath = PartitionedPath(partition: string, path: string)

  datatype Error = PartitionNotFound | PathOverflowsPartitionPath

  datatype Result<T> = Ok(value: T) | Err(error: Error)

  function GetStoragePath(storage: Storage, partition: string, path: string): Result<string> {
    if partition !in storage then Err(PartitionNotFound)
    else
      var p := Join(storage[partition], path);
      if storage[partition] <= p then Ok(p) else Err(PathOverflowsPartitionPath)
  }

  // filepath.Abs
  function Abs(cwd: string, path: string): string {
    if path != "" && path[0] == '/' then Clean(path) else Join(cwd, path)
  }

  // The answer the search promises: a matching base that no other matching base
  // exceeds in length, and what follows it without leading slashes.
  predicate LongestMatch(storage: Storage, p: string, r: PartitionedPath) {
    && r.partition in storage
    && storage[r.partition] <= p
    && (forall q :: q in storage && storage[q] <= p ==> |storage[q]| <= |storage[r.partition]|)
    && r.path == TrimSlashes(p[|storage[r.partition]|..])
  }

  // The loop visits the map in an order of its own choosing.
  method SearchPartitions(storage: Storage, p: string) returns (r: Option<PartitionedPath>)
    ensures r == None <==> forall q :: q in storage ==> !(storage[q] <= p)
    ensures r != None ==> LongestMatch(storage, p, r.value)
  {
    var prefixLength := -1;
    var current := PartitionedPath("", "");
    var rest := storage.Keys;
    while rest != {}
      invariant rest <= storage.Keys
      invariant prefixLength == -1 ==> forall q :: q in storage.Keys - rest ==> !(storage[q] <= p)
      invariant prefixLength != -1 ==>
                  && current.partition in storage.Keys - rest
                  && storage[current.partition] <= p && prefixLength == |storage[current.partition]|
                  && current.path == TrimSlashes(p[prefixLength..])
                  && forall q :: q in storage.Keys - rest && storage[q] <= p ==> |storage[q]| <= prefixLength
      decreases rest
    {
      var partition :| partition in rest;
      var base := storage[partition];
      if base <= p && prefixLength < |base| {
        prefixLength := |base|;
        current := PartitionedPath(partition, TrimSlashes(p[|base|..]));
      }
      rest := rest - {partition};
    }
    if prefixLength == -1 {
      return None;
    }
    return Some(current);
  }

  method PathToPartitionedPath(storage: Storage, cwd: string, path: string) returns (r: Option<PartitionedPath>)
    ensures r == None <==> forall q :: q in storage ==> !(storage[q] <= Abs(cwd, path))
    ensures r != None ==> LongestMatch(storage, Abs(cwd, path), r.value)
  {
    r := SearchPartitions(storage, Abs(cwd, path));
  }

  predicate DistinctBases(storage: Storage) {
    forall q, r :: q in storage && r in storage && q != r ==> storage[q] != storage[r]
  }

  // The iteration order cannot show in the path, nor in the partition when the
  // bases are distinct: matching bases of one length are equal.
  lemma LongestMatchUnique(storage: Storage, p: string, a: PartitionedPath, b: PartitionedPath)
    requires LongestMatch(storage, p, a) && LongestMatch(storage, p, b)
    ensures a.path == b.path && storage[a.partition] == storage[b.partition]
    ensures DistinctBases(storage) ==> a == b
  {
    var x, y := storage[a.partition], storage[b.partition];
    assert x == p[..|x|] && y == p[..|y|];
  }

  // The base ends where a component of the path ends, rest being what follows it.
  predicate AtBoundary(base: string, rest: string) {
    base == "/" || rest == "" || rest[0] == '/'
  }

  lemma BoundaryComps(base: string, rest: string)
    requires AtBoundary(base, rest)
    ensures Comps(base) + Comps(TrimSlashes(rest)) == Comps(base + rest)
  {
    CompsOfTrimmed(rest);
    if base == "/" {
      CompsAfterSlash("", rest);
      CompsAfterSlash("", "");
    } else if rest == "" {
      assert base + rest == base;
    } else {
      var tail := rest[1..];
      assert rest == "/" + tail;
      CompsAfterSlash(base, tail);
    }
  }

  lemma BoundaryRoundTrip(base: string, rest: string)
    requires CleanAbsolute(base) && CleanAbsolute(base + rest)
    requires AtBoundary(base, rest)
    ensures Join(base, TrimSlashes(rest)) == base + rest
  {
    JoinRooted(base, TrimSlashes(rest));
    BoundaryComps(base, rest);
    CleanAbsoluteIff(base + rest);
    ResolveAllNormal(Comps(base + rest));
  }

  lemma GluedTail(bs: seq<string>, rs: seq<string>)
    requires bs != [] && rs != [] && AllNormal(Glue(bs, rs))
    ensures AllNormal(rs[1..])
  {
    forall i | 0 <= i < |rs| - 1 ensures Normal(rs[1..][i]) {
      assert Glue(bs, rs)[|bs| + i] == rs[1..][i];
    }
  }

  // cleaning normal components followed by one stray component and normal ones
  lemma ResolveTail(bs: seq<string>, rs: seq<string>, out: seq<string>)
    requires AllNormal(bs) && bs != [] && rs != [] && AllGood(rs) && AllNormal(rs[1..])
    requires out == Resolve(bs + rs, true)
    ensures rs[0] == "." ==> out == bs + rs[1..]
    ensures rs[0] == ".." ==> out == bs[..|bs| - 1] + rs[1..]
    ensures rs[0] != "." && rs[0] != ".." ==> out == bs + rs
  {
    assert bs + rs == (bs + [rs[0]]) + rs[1..];
    ResolveNormal(bs + [rs[0]], rs[1..]);
    assert (bs + [rs[0]])[..|bs|] == bs;
    ResolveAllNormal(bs);
    assert (bs + [rs[0]]) + rs[1..] == bs + rs;
  }

  lemma GluedDiffers(bs: seq<string>, rs: seq<string>)
    requires bs != [] && rs != [] && AllNormal(bs) && AllGood(rs) && AllNormal(rs[1..])
    ensures Resolve(bs + rs, true) != Glue(bs, rs)
  {
    var out := Resolve(bs + rs, true);
    ResolveTail(bs, rs, out);
    if rs[0] == "." {
      var n := |bs| - 1;
      assert out[n] == bs[n] && Glue(bs, rs)[n] == bs[n] + ".";
      assert |bs[n] + "."| == |bs[n]| + 1;
    }
  }

  lemma BaseEndsInComponent(base: string)
    requires CleanAbsolute(base) && base != "/"
    ensures base[|base| - 1] != '/' && Comps(base) != []
  {
    CleanAbsoluteIff(base);
    JoinedShape(Comps(base));
  }

  lemma InsideComponent(base: string, rest: string, bs: seq<string>, rs: seq<string>)
    requires CleanAbsolute(base) && CleanAbsolute(base + rest) && !AtBoundary(base, rest)
    requires bs == Comps(base) && rs == Comps(rest)
    ensures bs != [] && rs != [] && Comps(base + rest) == Glue(bs, rs)
    ensures AllNormal(bs) && AllGood(rs) && AllNormal(rs[1..])
  {
    CleanAbsoluteIff(base);
    CleanAbsoluteIff(base + rest);
    BaseEndsInComponent(base);
    CompsRunTogether(base, rest);
    CompsGood(rest);
    GluedTail(bs, rs);
  }

  lemma JoinedDiffers(bs: seq<string>, rs: seq<string>, p: string)
    requires AllNormal(bs) && AllGood(rs) && CleanAbsolute(p)
    requires Resolve(bs + rs, true) != Comps(p)
    ensures Absolute(Resolve(bs + rs, true)) != p
  {
    CleanAbsoluteIff(p);
    ResolveRootedNormal(bs + rs);
    if Absolute(Resolve(bs + rs, true)) == p {
      AbsoluteInjective(Resolve(bs + rs, true), Comps(p));
    }
  }

  // Inside a component the rest of the path starts a component of its own, so
  // joining cannot give the path back.
  lemma NoBoundaryNoRoundTrip(base: string, rest: string)
    requires CleanAbsolute(base) && CleanAbsolute(base + rest) && !AtBoundary(base, rest)
    ensures Join(base, rest) != base + rest
  {
    var bs, rs := Comps(base), Comps(rest);
    InsideComponent(base, rest, bs, rs);
    GluedDiffers(bs, rs);
    JoinRooted(base, rest);
    JoinedDiffers(bs, rs, base + rest);
  }

  lemma JoinRestores(base: string, rest: string)
    requires CleanAbsolute(base) && CleanAbsolute(base + rest)
    ensures Join(base, TrimSlashes(rest)) == base + rest <==> AtBoundary(base, rest)
  {
    if AtBoundary(base, rest) {
      BoundaryRoundTrip(base, rest);
    } else {
      assert TrimSlashes(rest) == rest;
      NoBoundaryNoRoundTrip(base, rest);
    }
  }

  // Abs always hands the search a clean absolute path.
  lemma AbsIsClean(cwd: string, path: string)
    requires cwd != "" && cwd[0] == '/'
    ensures CleanAbsolute(Abs(cwd, path))
  {
    if path != "" && path[0] == '/' {
      CleanIsClean(path);
    } else {
      JoinRooted(cwd, path);
    }
  }

  // The bridge answers with the join if that gives the path back.
  lemma StoredJoin(storage: Storage, partition: string, base: string, rest: string)
    requires partition in storage && storage[partition] == base
    ensures GetStoragePath(storage, partition, TrimSlashes(rest)) == Ok(base + rest)
            <==> Join(base, TrimSlashes(rest)) == base + rest
  {
  }

  // A relative path argument counts from the working directory, an absolute one
  // from the root.
  lemma AbsIsResolved(cwd: string, path: string)
    requires cwd != "" && cwd[0] == '/'
    ensures path != "" && path[0] == '/' ==> Abs(cwd, path) == Absolute(Resolve(Comps(path), true))
    ensures path == "" || path[0] != '/' ==> Abs(cwd, path) == Absolute(Resolve(Comps(cwd) + Comps(path), true))
  {
    JoinRooted(cwd, path);
  }

  // What the bridge answers for an absolute base, error by error.
  lemma StoragePathAnswers(storage: Storage, partition: string, path: string)
    requires partition in storage ==> storage[partition] != "" && storage[partition][0] == '/'
    ensures var r := GetStoragePath(storage, partition, path);
            if partition !in storage then r == Err(PartitionNotFound)
            else
              var base := storage[partition];
              var p := Absolute(Resolve(Comps(base) + Comps(path), true));
              r == if |base| <= |p| && p[..|base|] == base then Ok(p) else Err(PathOverflowsPartitionPath)
  {
    if partition in storage {
      JoinRooted(storage[partition], path);
    }
  }

  // For every path argument: the bridge recovers what the search named exactly
  // when the longest matching base ends at a component boundary.
  lemma RoundTripIff(storage: Storage, cwd: string, path: string, base: string, rest: string, r: PartitionedPath)
    requires cwd != "" && cwd[0] == '/' && Abs(cwd, path) == base + rest
    requires LongestMatch(storage, base + rest, r) && storage[r.partition] == base && CleanAbsolute(base)
    ensures GetStoragePath(storage, r.partition, r.path) == Ok(Abs(cwd, path)) <==> AtBoundary(base, rest)
  {
    AbsIsClean(cwd, path);
    assert (base + rest)[|base|..] == rest;
    assert r.path == TrimSlashes(rest);
    JoinRestores(base, rest);
    StoredJoin(storage, r.partition, base, rest);
  }

  lemma AcceptedIsJoin(storage: Storage, partition: string, path: string, p: string)
    requires partition in storage && GetStoragePath(storage, partition, path) == Ok(p)
    ensures p == Join(storage[partition], path) && storage[partition] <= p
  {
  }

  lemma BelowBaseIff(base: string, rest: string)
    requires CleanAbsolute(base) && CleanAbsolute(base + rest)
    ensures Comps(base) <= Comps(base + rest) <==> AtBoundary(base, rest)
  {
    if AtBoundary(base, rest) {
      BoundaryComps(base, rest);
    } else {
      var bs, rs := Comps(base), Comps(rest);
      InsideComponent(base, rest, bs, rs);
      assert Glue(bs, rs)[|bs| - 1] == bs[|bs| - 1] + rs[0];
      assert |rs[0]| > 0;
    }
  }

  // The bridge checks that the base is a string prefix of the join.  What it
  // accepts lies below the base exactly when the base ends where a component of
  // the result ends.
  lemma AcceptedIsBelowBaseIff(storage: Storage, partition: string, path: string, base: string, rest: string)
    requires partition in storage && storage[partition] == base && CleanAbsolute(base)
    requires GetStoragePath(storage, partition, path) == Ok(base + rest)
    ensures Comps(base) <= Comps(base + rest) <==> AtBoundary(base, rest)
  {
    AcceptedIsJoin(storage, partition, path, base + rest);
    JoinRooted(base, path);
    BelowBaseIff(base, rest);
  }

  lemma Single(c: string)
    requires Good(c)
    ensures Comps(c) == [c]
  {
    assert c + "" == c;
    CompsOfLead(c, "");
  }

  lemma SiblingComps()
    ensures Comps("/b" + "/" + "../bx") == ["b", "..", "bx"]
  {
    CompsAfterSlash("", "b");
    CompsOfSlash("..", "bx");
    CompsOfSlash("/b", "../bx");
    assert "../bx" == ".." + "/" + "bx";
    Single("b");
    Single("..");
    Single("bx");
  }

  // So a path that leaves the base for a sibling whose name goes on where the
  // base ends is accepted.
  lemma SiblingIsAccepted(partition: string)
    ensures GetStoragePath(map[partition := "/b"], partition, "../bx") == Ok("/bx")
    ensures !AtBoundary("/b", "/bx"[2..])
  {
    var cs := ["b", "..", "bx"];
    SiblingComps();
    assert cs[..2] == ["b", ".."] && cs[..2][..1] == ["b"] && ["b"][..0] == [];
    assert Resolve(["b"], true) == ["b"];
    assert Resolve(["b", ".."], true) == [];
    assert Resolve(cs, true) == ["bx"];
    assert ["bx"][1..] == [];
    assert Joined(["bx"]) == "/bx";
  }

  lemma {:induction false} JoinedConcat(a: seq<string>, b: seq<string>)
    ensures Joined(a + b) == Joined(a) + Joined(b)
  {
    if a == [] {
      assert a + b == b;
    } else {
      assert (a + b)[1..] == a[1..] + b;
      JoinedConcat(a[1..], b);
    }
  }

  lemma AbsoluteConcat(bs: seq<string>, cs: seq<string>)
    requires AllNormal(bs) && AllNormal(cs)
    ensures Absolute(bs) <= Absolute(bs + cs)
    ensures TrimSlashes(Absolute(bs + cs)[|Absolute(bs)|..]) == Relative(cs)
  {
    JoinedConcat(bs, cs);
    CompsOfJoined(cs);
    var whole, base := Absolute(bs + cs), Absolute(bs);
    if bs == [] {
      assert bs + cs == cs;
      if cs == [] {
        assert whole[1..] == "";
      } else {
        assert whole[1..] == Relative(cs);
      }
    } else {
      assert whole[|base|..] == Joined(cs);
      if cs != [] {
        assert TrimSlashes(Joined(cs)) == TrimSlashes(Joined(cs)[1..]);
      }
    }
  }

  // Conversely: a normal relative path inside a partition comes back from the
  // search when no longer base matches.
  lemma RelativeRecovered(storage: Storage, partition: string, cs: seq<string>, r: PartitionedPath)
    requires partition in storage && CleanAbsolute(storage[partition]) && AllNormal(cs)
    requires var p := Absolute(Comps(storage[partition]) + cs);
             && LongestMatch(storage, p, r)
             && forall q :: q in storage && storage[q] <= p ==> |storage[q]| <= |storage[partition]|
    ensures GetStoragePath(storage, partition, Relative(cs)) == Ok(Absolute(Comps(storage[partition]) + cs))
    ensures r.path == Relative(cs) && storage[r.partition] == storage[partition]
    ensures DistinctBases(storage) ==> r.partition == partition
  {
    var base := storage[partition];
    var bs := Comps(base);
    var p := Absolute(bs + cs);
    CleanAbsoluteIff(base);
    CompsOfJoined(cs);
    JoinRooted(base, Relative(cs));
    ResolveAllNormal(bs + cs);
    JoinedConcat(bs, cs);
    AbsoluteConcat(bs, cs);
    assert LongestMatch(storage, p, PartitionedPath(partition, Relative(cs)));
    LongestMatchUnique(storage, p, r, PartitionedPath(partition, Relative(cs)));
  }
}
