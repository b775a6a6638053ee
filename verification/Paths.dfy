/**
Lexical slash-separated paths: the components of a string, and Go's
filepath.Clean and filepath.Join defined over them.
*/
module Paths {
  // the length of the leading component
  function Lead(p: string): (n: nat)
    ensures n <= |p|
  {
    if p == "" || p[0] == '/' then 0 else 1 + Lead(p[1..])
  }

  lemma {:induction false} LeadStops(p: string)
    ensures Lead(p) < |p| ==> p[Lead(p)] == '/'
    ensures forall i :: 0 <= i < Lead(p) ==> p[i] != '/'
  {
    if p != "" && p[0] != '/' {
      LeadStops(p[1..]);
      assert forall i :: 0 < i < Lead(p) ==> p[i] == p[1..][i - 1];
    }
  }

  // the nonempty stretches between slashes
  function Comps(p: string): seq<string>
    decreases |p|
  {
    if p == "" then []
    else if p[0] == '/' then Comps(p[1..])
    else [p[..Lead(p)]] + Comps(p[Lead(p)..])
  }

  function Joined(cs: seq<string>): string {
    if cs == [] then "" else "/" + cs[0] + Joined(cs[1..])
  }

  function Absolute(cs: seq<string>): string {
    if cs == [] then "/" else Joined(cs)
  }

  function Relative(cs: seq<string>): string {
    if cs == [] then "" else Joined(cs)[1..]
  }

  predicate Good(c: string) {
    c != "" && forall i :: 0 <= i < |c| ==> c[i] != '/'
  }

  predicate Normal(c: string) {
    Good(c) && c != "." && c != ".."
  }

  predicate AllGood(cs: seq<string>) {
    forall i :: 0 <= i < |cs| ==> Good(cs[i])
  }

  predicate AllNormal(cs: seq<string>) {
    forall i :: 0 <= i < |cs| ==> Normal(cs[i])
  }

  // Clean: "." goes, ".." takes the component before it, and at the root nothing.
  function Resolve(cs: seq<string>, rooted: bool): seq<string> {
    if cs == [] then []
    else
      var before, c := Resolve(cs[..|cs| - 1], rooted), cs[|cs| - 1];
      if c == "." then before
      else if c != ".." then before + [c]
      else if before != [] && before[|before| - 1] != ".." then before[..|before| - 1]
      else if rooted then before
      else before + [".."]
  }

  function Clean(p: string): string {
    if p == "" then "."
    else if p[0] == '/' then Absolute(Resolve(Comps(p), true))
    else
      var cs := Resolve(Comps(p), false);
      if cs == [] then "." else Relative(cs)
  }

  function Join(a: string, b: string): string {
    if a == "" then (if b == "" then "" else Clean(b))
    else if b == "" then Clean(a)
    else Clean(a + "/" + b)
  }

  predicate CleanAbsolute(p: string) {
    p != "" && p[0] == '/' && Clean(p) == p
  }

  // strings.TrimLeft(p, "/")
  function TrimSlashes(p: string): (r: string)
    ensures r == "" || r[0] != '/'
    ensures |r| <= |p| && r == p[|p| - |r|..]
  {
    if p != "" && p[0] == '/' then TrimSlashes(p[1..]) else p
  }

  // ---------- components ----------

  lemma {:induction false} CompsGood(p: string)
    ensures AllGood(Comps(p))
    decreases |p|
  {
    if p != "" {
      LeadStops(p);
      CompsGood(if p[0] == '/' then p[1..] else p[Lead(p)..]);
    }
  }

  lemma {:induction false} LeadOf(c: string, rest: string)
    requires forall i :: 0 <= i < |c| ==> c[i] != '/'
    requires rest == "" || rest[0] == '/'
    ensures Lead(c + rest) == |c|
  {
    if c == "" {
      assert c + rest == rest;
    } else {
      assert (c + rest)[1..] == c[1..] + rest;
      LeadOf(c[1..], rest);
    }
  }

  lemma CompsOfLead(c: string, rest: string)
    requires Good(c) && (rest == "" || rest[0] == '/')
    ensures Comps(c + rest) == [c] + Comps(rest)
  {
    LeadOf(c, rest);
    assert (c + rest)[..|c|] == c && (c + rest)[|c|..] == rest;
  }

  lemma CompsOfSlashAfterLead(head: string, tail: string, b: string)
    requires Good(head) && (tail == "" || tail[0] == '/')
    requires Comps(tail + "/" + b) == Comps(tail) + Comps(b)
    ensures Comps(head + (tail + "/" + b)) == Comps(head + tail) + Comps(b)
  {
    CompsOfLead(head, tail + "/" + b);
    CompsOfLead(head, tail);
  }

  // A slash separates: the components of both sides, in order.
  lemma {:induction false} CompsOfSlash(a: string, b: string)
    ensures Comps(a + "/" + b) == Comps(a) + Comps(b)
    decreases |a|
  {
    if a == "" {
      assert a + "/" + b == "/" + b && ("/" + b)[1..] == b;
    } else if a[0] == '/' {
      assert (a + "/" + b)[1..] == a[1..] + "/" + b;
      CompsOfSlash(a[1..], b);
    } else {
      var head, tail := a[..Lead(a)], a[Lead(a)..];
      LeadStops(a);
      CompsOfSlash(tail, b);
      CompsOfSlashAfterLead(head, tail, b);
      assert a == head + tail && a + "/" + b == head + (tail + "/" + b);
    }
  }

  lemma CompsAfterSlash(a: string, b: string)
    ensures Comps("/" + b) == Comps(b)
    ensures Comps(a + ("/" + b)) == Comps(a) + Comps(b)
  {
    assert ("/" + b)[1..] == b;
    assert a + ("/" + b) == a + "/" + b;
    CompsOfSlash(a, b);
  }

  lemma CompsOfRooted(c: string, rest: string)
    requires Good(c) && (rest == "" || rest[0] == '/')
    ensures var p := "/" + c + rest;
            && Comps(p) == [c] + Comps(rest) && Comps(p[1..]) == [c] + Comps(rest)
            && p[0] == '/' && p[1..] != "" && p[1] != '/'
  {
    var p := "/" + c + rest;
    assert p[1..] == c + rest;
    CompsOfLead(c, rest);
  }

  lemma {:induction false} CompsOfJoined(cs: seq<string>)
    requires AllGood(cs)
    ensures Comps(Joined(cs)) == cs && Comps(Absolute(cs)) == cs && Comps(Relative(cs)) == cs
    ensures cs != [] ==> Joined(cs)[0] == '/' && Joined(cs)[1..] != "" && Joined(cs)[1] != '/'
  {
    if cs == [] {
      assert "/"[1..] == "";
    } else {
      CompsOfJoined(cs[1..]);
      CompsOfRooted(cs[0], Joined(cs[1..]));
      assert cs == [cs[0]] + cs[1..];
    }
  }

  lemma {:induction false} CompsOfTrimmed(p: string)
    ensures Comps(TrimSlashes(p)) == Comps(p)
  {
    if p != "" && p[0] == '/' {
      CompsOfTrimmed(p[1..]);
    }
  }

  // two component lists whose neighbours run together
  function Glue(xs: seq<string>, ys: seq<string>): seq<string>
    requires xs != [] && ys != []
  {
    xs[..|xs| - 1] + [xs[|xs| - 1] + ys[0]] + ys[1..]
  }

  lemma GlueCons(c: string, xs: seq<string>, ys: seq<string>)
    requires xs != [] && ys != []
    ensures Glue([c] + xs, ys) == [c] + Glue(xs, ys)
  {
    assert ([c] + xs)[..|xs|] == [c] + xs[..|xs| - 1];
  }

  lemma LeadRunsOn(a: string, c: string, tail: string)
    requires Good(a) && Good(c) && (tail == "" || tail[0] == '/')
    ensures Comps(a) == [a] && Comps(c + tail) == [c] + Comps(tail)
    ensures Comps(a + (c + tail)) == [a + c] + Comps(tail)
  {
    assert a + "" == a && (a + c) + tail == a + (c + tail);
    CompsOfLead(c, tail);
    CompsOfLead(a + c, tail);
    CompsOfLead(a, "");
  }

  lemma GlueSingle(a: string, c: string, cs: seq<string>)
    ensures Glue([a], [c] + cs) == [a + c] + cs
  {
    assert ([c] + cs)[1..] == cs;
  }

  lemma OneRunsTogether(a: string, b: string)
    requires Good(a) && b != "" && b[0] != '/'
    ensures Comps(a) != [] && Comps(b) != [] && Comps(a + b) == Glue(Comps(a), Comps(b))
  {
    LeadStops(b);
    var c, tail := b[..Lead(b)], b[Lead(b)..];
    assert b == c + tail;
    LeadRunsOn(a, c, tail);
    GlueSingle(a, c, Comps(tail));
  }

  lemma RunTogetherAfterLead(c: string, rest: string, b: string)
    requires Good(c) && rest != "" && rest[0] == '/'
    requires Comps(rest) != [] && Comps(b) != [] && Comps(rest + b) == Glue(Comps(rest), Comps(b))
    ensures Comps(c + rest) != [] && Comps(c + rest + b) == Glue(Comps(c + rest), Comps(b))
  {
    assert c + rest + b == c + (rest + b);
    CompsOfLead(c, rest);
    CompsOfLead(c, rest + b);
    GlueCons(c, Comps(rest), Comps(b));
  }

  // Where no slash separates, the components in the middle run together.
  lemma {:induction false} CompsRunTogether(a: string, b: string)
    requires a != "" && a[|a| - 1] != '/' && b != "" && b[0] != '/'
    ensures Comps(a) != [] && Comps(b) != [] && Comps(a + b) == Glue(Comps(a), Comps(b))
    decreases |a|
  {
    var n := Lead(a);
    LeadStops(a);
    if a[0] == '/' {
      assert (a + b)[1..] == a[1..] + b;
      CompsRunTogether(a[1..], b);
    } else if n == |a| {
      OneRunsTogether(a, b);
    } else {
      var head, rest := a[..n], a[n..];
      CompsRunTogether(rest, b);
      RunTogetherAfterLead(head, rest, b);
      assert a == head + rest;
    }
  }

  // ---------- cleaning ----------

  lemma {:induction false} ResolveRootedNormal(cs: seq<string>)
    requires AllGood(cs)
    ensures AllNormal(Resolve(cs, true))
  {
    if cs != [] {
      ResolveRootedNormal(cs[..|cs| - 1]);
    }
  }

  lemma {:induction false} ResolveNormal(cs: seq<string>, tail: seq<string>)
    requires AllNormal(tail)
    ensures Resolve(cs + tail, true) == Resolve(cs, true) + tail
  {
    if tail == [] {
      assert cs + tail == cs;
    } else {
      var n := |tail| - 1;
      assert (cs + tail)[..|cs| + n] == cs + tail[..n];
      ResolveNormal(cs, tail[..n]);
    }
  }

  lemma ResolveAllNormal(cs: seq<string>)
    requires AllNormal(cs)
    ensures Resolve(cs, true) == cs
  {
    ResolveNormal([], cs);
    assert [] + cs == cs;
  }

  function Ups(k: nat): seq<string> {
    seq(k, _ => "..")
  }

  lemma {:induction false} ResolveRelativeNormal(cs: seq<string>)
    requires AllNormal(cs)
    ensures Resolve(cs, false) == cs
  {
    if cs != [] {
      ResolveRelativeNormal(cs[..|cs| - 1]);
    }
  }

  lemma OneMoreUp(cs: seq<string>, k: nat)
    requires k > 0
    ensures Ups(k) == Ups(k - 1) + [".."] && cs + Ups(k) == (cs + Ups(k - 1)) + [".."]
    ensures (cs + Ups(k))[..|cs| + k - 1] == cs + Ups(k - 1)
  {
  }

  // Behind normal components ".." climbs as often as it stands there, at the root
  // no further, and without a root it stays.
  lemma {:induction false} ResolveClimbs(cs: seq<string>, k: nat)
    requires AllNormal(cs)
    ensures Resolve(cs + Ups(k), true) == cs[..if k <= |cs| then |cs| - k else 0]
  {
    if k == 0 {
      assert cs + Ups(0) == cs;
      ResolveAllNormal(cs);
    } else {
      OneMoreUp(cs, k);
      ResolveClimbs(cs, k - 1);
    }
  }

  lemma ResolveUp(cs: seq<string>, rooted: bool)
    ensures var before := Resolve(cs, rooted);
            Resolve(cs + [".."], rooted)
            == if before != [] && before[|before| - 1] != ".." then before[..|before| - 1]
               else if rooted then before else before + [".."]
  {
    assert (cs + [".."])[..|cs|] == cs;
  }

  lemma ClimbOnce(cs: seq<string>, k: nat, before: seq<string>)
    requires AllNormal(cs) && k > 0 && before == Resolve(cs + Ups(k - 1), false)
    requires before == if k - 1 <= |cs| then cs[..|cs| - (k - 1)] else Ups(k - 1 - |cs|)
    ensures Resolve(cs + Ups(k), false) == if k <= |cs| then cs[..|cs| - k] else Ups(k - |cs|)
  {
    OneMoreUp(cs, k);
    ResolveUp(cs + Ups(k - 1), false);
    if k <= |cs| {
      assert before[..|before| - 1] == cs[..|cs| - k];
    } else {
      OneMoreUp([], k - |cs|);
      assert before == Ups(k - 1 - |cs|);
    }
  }

  lemma {:induction false} ResolveClimbsOut(cs: seq<string>, k: nat)
    requires AllNormal(cs)
    ensures Resolve(cs + Ups(k), false) == if k <= |cs| then cs[..|cs| - k] else Ups(k - |cs|)
  {
    if k == 0 {
      assert cs + Ups(0) == cs;
      ResolveRelativeNormal(cs);
    } else {
      ResolveClimbsOut(cs, k - 1);
      ClimbOnce(cs, k, Resolve(cs + Ups(k - 1), false));
    }
  }

  lemma ResolveNext(cs: seq<string>, c: string, rooted: bool)
    requires AllNormal(cs)
    ensures Resolve(cs + ["."], rooted) == cs
    ensures Normal(c) ==> Resolve(cs + [c], rooted) == cs + [c]
  {
    assert (cs + ["."])[..|cs|] == cs && (cs + [c])[..|cs|] == cs;
    ResolveAllNormal(cs);
    ResolveRelativeNormal(cs);
  }

  predicate NoDot(cs: seq<string>) {
    forall i :: 0 <= i < |cs| ==> cs[i] != "."
  }

  ghost predicate Settled(cs: seq<string>, rooted: bool) {
    AllGood(cs) && NoDot(cs) && Resolve(cs, rooted) == cs
  }

  lemma SettledPrefix(cs: seq<string>, rooted: bool)
    requires Settled(cs, rooted) && cs != [] && cs[|cs| - 1] != ".."
    ensures Settled(cs[..|cs| - 1], rooted)
  {
    var before, last := cs[..|cs| - 1], cs[|cs| - 1];
    assert Resolve(cs, rooted) == Resolve(before, rooted) + [last];
  }

  lemma SettledNext(cs: seq<string>, c: string, rooted: bool)
    requires Settled(cs, rooted) && Good(c) && c != "."
    requires c == ".." ==> !rooted && (cs == [] || cs[|cs| - 1] == "..")
    ensures Settled(cs + [c], rooted)
  {
    assert (cs + [c])[..|cs|] == cs;
  }

  lemma {:induction false} ResolveTwice(cs: seq<string>, rooted: bool)
    requires AllGood(cs)
    ensures Settled(Resolve(cs, rooted), rooted)
  {
    if cs != [] {
      var before, c := Resolve(cs[..|cs| - 1], rooted), cs[|cs| - 1];
      ResolveTwice(cs[..|cs| - 1], rooted);
      if c == ".." && before != [] && before[|before| - 1] != ".." {
        SettledPrefix(before, rooted);
      } else if c != "." && (c != ".." || !rooted) {
        SettledNext(before, c, rooted);
      }
    }
  }

  lemma CleanRoots()
    ensures Clean(".") == "." && Clean("") == "." && Clean("/") == "/"
  {
    assert "/"[1..] == "";
    assert "." + "" == ".";
    CompsOfLead(".", "");
    assert Comps(".") == ["."];
    assert ["."][..0] == [];
  }

  predicate NoEmptyComponent(p: string) {
    forall i :: 0 <= i < |p| - 1 ==> p[i] != '/' || p[i + 1] != '/'
  }

  lemma JoinedShapeCons(c: string, rest: string)
    requires Good(c) && (rest == "" || (rest[0] == '/' && rest[|rest| - 1] != '/')) && NoEmptyComponent(rest)
    ensures var p := "/" + c + rest; NoEmptyComponent(p) && p[|p| - 1] != '/' && p[0] == '/'
  {
    var p := "/" + c + rest;
    forall i | 0 <= i < |p| - 1 ensures p[i] != '/' || p[i + 1] != '/' {
      if i > |c| {
        assert p[i] == rest[i - |c| - 1] && p[i + 1] == rest[i - |c|];
      } else if i > 0 {
        assert p[i] == c[i - 1];
      } else {
        assert p[1] == c[0];
      }
    }
    assert rest == "" ==> p[|p| - 1] == c[|c| - 1];
  }

  lemma {:induction false} JoinedShape(cs: seq<string>)
    requires AllGood(cs)
    ensures NoEmptyComponent(Joined(cs))
    ensures cs != [] ==> Joined(cs) != "" && Joined(cs)[0] == '/' && Joined(cs)[|Joined(cs)| - 1] != '/'
  {
    if cs != [] {
      JoinedShape(cs[1..]);
      JoinedShapeCons(cs[0], Joined(cs[1..]));
    }
  }

  // A cleaned absolute path starts with a slash, ends with none unless it is the
  // root, and has no empty component.
  lemma CleanShape(p: string)
    requires p != "" && p[0] == '/'
    ensures var c := Clean(p);
            && c != "" && c[0] == '/' && NoEmptyComponent(c) && (c == "/" || c[|c| - 1] != '/')
  {
    CompsGood(p);
    ResolveRootedNormal(Comps(p));
    JoinedShape(Resolve(Comps(p), true));
  }

  // Cleaning again changes nothing, relative paths included.
  lemma CleanTwice(p: string)
    ensures Clean(Clean(p)) == Clean(p)
  {
    var rooted := p != "" && p[0] == '/';
    var cs := Resolve(Comps(p), rooted);
    CompsGood(p);
    ResolveTwice(Comps(p), rooted);
    CompsOfJoined(cs);
    if cs == [] {
      CleanRoots();
    } else if !rooted {
      assert Clean(p) == Relative(cs) && Relative(cs)[0] != '/';
    } else {
      assert Clean(p) == Absolute(cs);
    }
  }

  // A clean absolute path is the rendering of its components, all of them normal.
  lemma CleanAbsoluteIff(p: string)
    ensures CleanAbsolute(p) <==> AllNormal(Comps(p)) && p == Absolute(Comps(p))
  {
    CompsGood(p);
    if CleanAbsolute(p) {
      var cs := Resolve(Comps(p), true);
      ResolveRootedNormal(Comps(p));
      CompsOfJoined(cs);
    }
    if AllNormal(Comps(p)) && p == Absolute(Comps(p)) {
      ResolveAllNormal(Comps(p));
      CompsOfJoined(Comps(p));
    }
  }

  // Cleaning a rooted path gives a clean absolute path.
  lemma CleanIsClean(p: string)
    requires p != "" && p[0] == '/'
    ensures CleanAbsolute(Clean(p))
  {
    var cs := Resolve(Comps(p), true);
    CompsGood(p);
    ResolveRootedNormal(Comps(p));
    CompsOfJoined(cs);
    CleanAbsoluteIff(Clean(p));
  }

  lemma JoinRooted(a: string, b: string)
    requires a != "" && a[0] == '/'
    ensures Join(a, b) == Absolute(Resolve(Comps(a) + Comps(b), true))
    ensures CleanAbsolute(Join(a, b))
  {
    if b == "" {
      assert Comps(a) + [] == Comps(a);
      CleanIsClean(a);
    } else {
      CompsOfSlash(a, b);
      CleanIsClean(a + "/" + b);
    }
  }

  lemma AbsoluteInjective(a: seq<string>, b: seq<string>)
    requires AllGood(a) && AllGood(b) && Absolute(a) == Absolute(b)
    ensures a == b
  {
    CompsOfJoined(a);
    CompsOfJoined(b);
  }
}
