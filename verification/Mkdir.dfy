/**
mkdirAll with an owner (bridge/server/bridge.go): the recursion over path
strings, from the leaf up, against a walk that makes the missing directories
from the root down.
*/
module Mkdir {
  import opened Wrappers
  import opened Paths

  // A place in the tree: the names from the root.  There are no symbolic links.
  type Node = seq<string>

  datatype Owner = Process | User(uid: int, gid: int)

  datatype Entry = File | Dir(owner: Owner)

  type Tree = map<Node, Entry>

  // where the kernel refuses to make or to hand over a directory
  datatype Faults = Faults(mkdir: Node -> bool, chown: Node -> bool)

  predicate IsDir(fs: Tree, n: Node) {
    n in fs && fs[n].Dir?
  }

  function Parent(n: Node): Node {
    if n == [] then [] else n[..|n| - 1]
  }

  predicate HasParent(fs: Tree, n: Node) {
    IsDir(fs, Parent(n))
  }

  ghost predicate ParentClosed(fs: Tree) {
    forall n {:trigger HasParent(fs, n)} :: n in fs || n == [] ==> HasParent(fs, n)
  }

  // one component further, "." and ".." included
  function Enter(n: Node, c: string): Node {
    if c == "." then n else if c == ".." then Parent(n) else n + [c]
  }

  // where the components lead on paper
  function Reach(n: Node, cs: seq<string>): Node {
    if cs == [] then n else Enter(Reach(n, cs[..|cs| - 1]), cs[|cs| - 1])
  }

  // where the kernel gets: every step needs a directory to step from and an entry to step to
  function Walk(fs: Tree, n: Node, cs: seq<string>): (r: Option<Node>)
    ensures r != None ==> r.value in fs
  {
    if cs == [] then (if n in fs then Some(n) else None)
    else
      match Walk(fs, n, cs[..|cs| - 1])
      case None => None
      case Some(m) =>
        var next := Enter(m, cs[|cs| - 1]);
        if IsDir(fs, m) && next in fs then Some(next) else None
  }

  datatype Made = Made(tree: Tree, ok: bool)

  // make one directory where it is missing and give it away
  function MakeOne(fs: Tree, n: Node, owner: Owner, f: Faults): Made {
    if n in fs then Made(fs, fs[n].Dir?)
    else if f.mkdir(n) then Made(fs, false)
    else if f.chown(n) then Made(fs[n := Dir(Process)], false)
    else Made(fs[n := Dir(owner)], true)
  }

  // The reference: from the top, make what is missing, stop at the first obstacle.
  function MakeChain(fs: Tree, n: Node, cs: seq<string>, owner: Owner, f: Faults): Made {
    if cs == [] then Made(fs, true)
    else
      var above := MakeChain(fs, n, cs[..|cs| - 1], owner, f);
      if above.ok then MakeOne(above.tree, Reach(n, cs), owner, f) else above
  }

  // ---------- what the chain makes ----------

  // the places of the first j components on the way
  ghost predicate OnTheWay(n: Node, cs: seq<string>, j: nat, m: Node)
    requires j <= |cs|
  {
    exists k :: 0 < k <= j && m == Reach(n, cs[..k])
  }

  // nothing in the way at a place, and nothing refused there
  predicate Clear(fs: Tree, m: Node, f: Faults) {
    if m in fs then fs[m].Dir? else !f.mkdir(m) && !f.chown(m)
  }

  // The tree grew by exactly the missing places of the first j components.
  ghost predicate GrewAlong(fs: Tree, after: Tree, n: Node, cs: seq<string>, j: nat)
    requires j <= |cs|
  {
    && (forall m :: m in fs ==> m in after && after[m] == fs[m])
    && (forall m :: m in after <==> m in fs || OnTheWay(n, cs, j, m))
  }

  lemma OnTheWaySnoc(n: Node, cs: seq<string>, j: nat, m: Node)
    requires cs != [] && j <= |cs|
    ensures j < |cs| ==> (OnTheWay(n, cs, j, m) <==> OnTheWay(n, cs[..|cs| - 1], j, m))
    ensures j == |cs| ==> (OnTheWay(n, cs, j, m) <==> OnTheWay(n, cs[..|cs| - 1], j - 1, m) || m == Reach(n, cs))
  {
    var before := cs[..|cs| - 1];
    assert forall k :: 0 <= k < |cs| ==> before[..k] == cs[..k];
    assert cs[..|cs|] == cs;
  }

  lemma OneKeepsClosed(fs: Tree, m: Node, owner: Owner, f: Faults)
    requires ParentClosed(fs) && (m in fs || IsDir(fs, Parent(m)))
    ensures ParentClosed(MakeOne(fs, m, owner, f).tree)
  {
    var after := MakeOne(fs, m, owner, f).tree;
    forall x | x in after || x == [] ensures HasParent(after, x) {
      assert x in fs || x == [] ==> HasParent(fs, x);
    }
  }

  // the places made so far are the owner's, but for the last one when the chain failed
  ghost predicate Given(fs: Tree, r: Made, last: Node, owner: Owner, f: Faults) {
    forall m :: m in r.tree && m !in fs ==>
      if r.ok then r.tree[m] == Dir(owner) && !f.mkdir(m) && !f.chown(m)
      else r.tree[m] == Dir(owner) || (r.tree[m] == Dir(Process) && m == last)
  }

  lemma GrewOneMore(fs: Tree, above: Tree, after: Tree, n: Node, cs: seq<string>)
    requires cs != [] && GrewAlong(fs, above, n, cs[..|cs| - 1], |cs| - 1)
    requires after.Keys == above.Keys + {Reach(n, cs)} && forall m :: m in above ==> after[m] == above[m]
    ensures GrewAlong(fs, after, n, cs, |cs|)
  {
    forall m ensures m in after <==> m in fs || OnTheWay(n, cs, |cs|, m) {
      OnTheWaySnoc(n, cs, |cs|, m);
    }
  }

  lemma GrewNoMore(fs: Tree, above: Tree, n: Node, cs: seq<string>, j: nat)
    requires cs != [] && j < |cs| && GrewAlong(fs, above, n, cs[..|cs| - 1], j)
    ensures GrewAlong(fs, above, n, cs, j)
  {
    forall m ensures m in above <==> m in fs || OnTheWay(n, cs, j, m) {
      OnTheWaySnoc(n, cs, j, m);
    }
  }

  lemma EnterInto(fs: Tree, p: Node, c: string)
    requires ParentClosed(fs) && IsDir(fs, p)
    ensures Enter(p, c) in fs || (c != "." && c != ".." && Enter(p, c) == p + [c] && Parent(Enter(p, c)) == p)
    ensures c == "." || c == ".." ==> IsDir(fs, Enter(p, c))
  {
    assert HasParent(fs, p);
    assert (p + [c])[..|p|] == p;
  }

  // Without links a walk from the root and lexical cleaning come to the same place.
  lemma {:induction false} ReachIsResolved(cs: seq<string>)
    requires AllGood(cs)
    ensures Reach([], cs) == Resolve(cs, true)
  {
    if cs != [] {
      ReachIsResolved(cs[..|cs| - 1]);
      ResolveRootedNormal(cs[..|cs| - 1]);
    }
  }

  lemma ReachIsCleaned(path: string)
    requires path != "" && path[0] == '/'
    ensures Reach([], Comps(path)) == Comps(Clean(path))
  {
    CompsGood(path);
    ReachIsResolved(Comps(path));
    ResolveRootedNormal(Comps(path));
    CompsOfJoined(Resolve(Comps(path), true));
  }

  // Normal components are entered one below the other.
  lemma {:induction false} ReachNormal(n: Node, cs: seq<string>)
    requires AllNormal(cs)
    ensures Reach(n, cs) == n + cs
  {
    if cs != [] {
      ReachNormal(n, cs[..|cs| - 1]);
    }
  }

  // A relative path is entered as the absolute one that continues the start.
  lemma {:induction false} ReachContinues(n: Node, cs: seq<string>)
    requires AllNormal(n)
    ensures Reach(n, cs) == Reach([], n + cs)
  {
    if cs == [] {
      ReachNormal([], n);
      assert n + cs == n && [] + n == n;
    } else {
      assert (n + cs)[..|n + cs| - 1] == n + cs[..|cs| - 1];
      ReachContinues(n, cs[..|cs| - 1]);
    }
  }

  // Whatever fails, every entry stays, the tree stays closed under parents and
  // grows by an initial chain of the missing places only; on success by all of
  // them, each a directory of the given owner.
  lemma {:induction false} ChainGrows(fs: Tree, n: Node, cs: seq<string>, owner: Owner, f: Faults)
    returns (j: nat)
    requires ParentClosed(fs) && IsDir(fs, n)
    ensures var r := MakeChain(fs, n, cs, owner, f);
            && j <= |cs| && GrewAlong(fs, r.tree, n, cs, j) && ParentClosed(r.tree)
            && (r.ok ==> j == |cs| && IsDir(r.tree, Reach(n, cs)))
            && Given(fs, r, Reach(n, cs[..j]), owner, f)
  {
    j := 0;
    if cs != [] {
      var before, m := cs[..|cs| - 1], Reach(n, cs);
      var i := ChainGrows(fs, n, before, owner, f);
      var above := MakeChain(fs, n, before, owner, f);
      assert before[..i] == cs[..i];
      if above.ok {
        var r := MakeOne(above.tree, m, owner, f);
        EnterInto(above.tree, Reach(n, before), cs[|cs| - 1]);
        OneKeepsClosed(above.tree, m, owner, f);
        assert cs[..|cs|] == cs;
        if m in r.tree {
          GrewOneMore(fs, above.tree, r.tree, n, cs);
          j := |cs|;
        } else {
          GrewNoMore(fs, above.tree, n, cs, i);
          j := i;
        }
      } else {
        if i < |cs| {
          GrewNoMore(fs, above.tree, n, cs, i);
        }
        j := i;
      }
    }
  }

  // What an absolute path makes is the directory that its cleaned form names.
  lemma AbsoluteIsMade(fs: Tree, path: string, owner: Owner, f: Faults)
    requires ParentClosed(fs) && path != "" && path[0] == '/'
    requires MakeChain(fs, [], Comps(path), owner, f).ok
    ensures IsDir(MakeChain(fs, [], Comps(path), owner, f).tree, Comps(Clean(path)))
  {
    assert HasParent(fs, []);
    ReachIsCleaned(path);
    var j := ChainGrows(fs, [], Comps(path), owner, f);
  }

  // On success every ancestor on the way is a directory.
  lemma {:induction false} ChainDirectories(fs: Tree, n: Node, cs: seq<string>, owner: Owner, f: Faults, k: nat)
    requires ParentClosed(fs) && IsDir(fs, n) && k <= |cs|
    requires MakeChain(fs, n, cs, owner, f).ok
    ensures IsDir(MakeChain(fs, n, cs, owner, f).tree, Reach(n, cs[..k]))
  {
    var j := ChainGrows(fs, n, cs, owner, f);
    if k == |cs| {
      assert cs[..k] == cs;
    } else {
      var before := cs[..|cs| - 1];
      ChainDirectories(fs, n, before, owner, f, k);
      assert before[..k] == cs[..k];
    }
  }

  // It succeeds exactly when no place on the way is a file and none of the
  // missing ones is refused.
  lemma {:induction false} ChainSucceedsIff(fs: Tree, n: Node, cs: seq<string>, owner: Owner, f: Faults)
    requires ParentClosed(fs) && IsDir(fs, n)
    ensures MakeChain(fs, n, cs, owner, f).ok <==> forall k :: 0 < k <= |cs| ==> Clear(fs, Reach(n, cs[..k]), f)
  {
    if cs != [] {
      var before, m := cs[..|cs| - 1], Reach(n, cs);
      ChainSucceedsIff(fs, n, before, owner, f);
      var j := ChainGrows(fs, n, before, owner, f);
      assert forall k :: 0 <= k < |cs| ==> before[..k] == cs[..k];
      assert cs[..|cs|] == cs;
      if MakeChain(fs, n, before, owner, f).ok {
        assert MakeChain(fs, n, cs, owner, f).ok <==> Clear(fs, m, f);
      } else {
        var k :| 0 < k <= |before| && !Clear(fs, Reach(n, before[..k]), f);
        assert !Clear(fs, Reach(n, cs[..k]), f);
      }
    }
  }

  lemma LastOneStops(fs: Tree, n: Node, cs: seq<string>, owner: Owner, f: Faults)
    requires ParentClosed(fs) && IsDir(fs, n) && cs != [] && !MakeChain(fs, n, cs, owner, f).ok
    requires MakeChain(fs, n, cs[..|cs| - 1], owner, f).ok
    ensures var m := Reach(n, cs); var above := MakeChain(fs, n, cs[..|cs| - 1], owner, f);
            && !Clear(fs, m, f)
            && MakeChain(fs, n, cs, owner, f).tree
               == if m in fs || f.mkdir(m) then above.tree else above.tree[m := Dir(Process)]
    ensures forall i :: 0 < i < |cs| ==> Clear(fs, Reach(n, cs[..i]), f)
  {
    var before := cs[..|cs| - 1];
    ChainSucceedsIff(fs, n, before, owner, f);
    var j := ChainGrows(fs, n, before, owner, f);
    assert forall i :: 0 <= i < |cs| ==> before[..i] == cs[..i];
  }

  // A chain that fails has made everything before the first obstacle.  A file and
  // a refused mkdir add nothing there; a refused chown leaves a directory that is
  // still the process's own.
  lemma {:induction false} FailedChainStops(fs: Tree, n: Node, cs: seq<string>, owner: Owner, f: Faults)
    returns (k: nat)
    requires ParentClosed(fs) && IsDir(fs, n) && !MakeChain(fs, n, cs, owner, f).ok
    ensures 0 < k <= |cs| && !Clear(fs, Reach(n, cs[..k]), f)
    ensures forall i :: 0 < i < k ==> Clear(fs, Reach(n, cs[..i]), f)
    ensures var m := Reach(n, cs[..k]); var made := MakeChain(fs, n, cs[..k - 1], owner, f);
            && made.ok
            && MakeChain(fs, n, cs, owner, f).tree
               == if m in fs || f.mkdir(m) then made.tree else made.tree[m := Dir(Process)]
  {
    var before, m := cs[..|cs| - 1], Reach(n, cs);
    var above := MakeChain(fs, n, before, owner, f);
    assert forall i :: 0 <= i < |cs| ==> before[..i] == cs[..i];
    assert cs[..|cs|] == cs;
    if above.ok {
      k := |cs|;
      LastOneStops(fs, n, cs, owner, f);
    } else {
      k := FailedChainStops(fs, n, before, owner, f);
    }
  }

  // ---------- walking ----------

  lemma {:induction false} WalkReaches(fs: Tree, n: Node, cs: seq<string>)
    ensures Walk(fs, n, cs) != None ==> Walk(fs, n, cs).value == Reach(n, cs)
  {
    if cs != [] {
      WalkReaches(fs, n, cs[..|cs| - 1]);
    }
  }

  // The kernel gets there exactly if the start and the end exist and every place
  // before the end is a directory.
  lemma {:induction false} WalksIff(fs: Tree, n: Node, cs: seq<string>)
    ensures Walk(fs, n, cs) != None
            <==> n in fs && Reach(n, cs) in fs && forall k :: 0 <= k < |cs| ==> IsDir(fs, Reach(n, cs[..k]))
  {
    if cs != [] {
      var before := cs[..|cs| - 1];
      WalksIff(fs, n, before);
      WalkReaches(fs, n, before);
      assert forall k :: 0 <= k < |before| ==> before[..k] == cs[..k];
      if forall k :: 0 <= k < |cs| ==> IsDir(fs, Reach(n, cs[..k])) {
        assert IsDir(fs, Reach(n, cs[..|cs| - 1]));
      }
    }
  }

  lemma {:induction false} WalkGrows(fs: Tree, after: Tree, n: Node, cs: seq<string>)
    requires forall m :: m in fs ==> m in after && after[m] == fs[m]
    requires Walk(fs, n, cs) != None
    ensures Walk(after, n, cs) == Walk(fs, n, cs)
  {
    if cs != [] {
      WalkGrows(fs, after, n, cs[..|cs| - 1]);
    }
  }

  // Where the kernel gets already, the chain has nothing to make.
  lemma {:induction false} WalkedNeedsNothing(fs: Tree, n: Node, cs: seq<string>, owner: Owner, f: Faults)
    requires IsDir(fs, n) && Walk(fs, n, cs) != None
    ensures MakeChain(fs, n, cs, owner, f) == Made(fs, fs[Walk(fs, n, cs).value].Dir?)
  {
    if cs != [] {
      WalkReaches(fs, n, cs);
      WalkedNeedsNothing(fs, n, cs[..|cs| - 1], owner, f);
    }
  }

  // After a chain that succeeded the kernel gets to its end.
  lemma {:induction false} ChainIsWalked(fs: Tree, n: Node, cs: seq<string>, owner: Owner, f: Faults)
    requires ParentClosed(fs) && IsDir(fs, n) && MakeChain(fs, n, cs, owner, f).ok
    ensures Walk(MakeChain(fs, n, cs, owner, f).tree, n, cs) == Some(Reach(n, cs))
  {
    if cs != [] {
      var before := cs[..|cs| - 1];
      var above, after := MakeChain(fs, n, before, owner, f).tree, MakeChain(fs, n, cs, owner, f).tree;
      ChainIsWalked(fs, n, before, owner, f);
      WalkGrows(above, after, n, before);
      var i := ChainGrows(fs, n, before, owner, f);
    }
  }

  // Making the same chain again changes nothing.
  lemma ChainTwice(fs: Tree, n: Node, cs: seq<string>, owner: Owner, f: Faults)
    requires ParentClosed(fs) && IsDir(fs, n) && MakeChain(fs, n, cs, owner, f).ok
    ensures var r := MakeChain(fs, n, cs, owner, f); MakeChain(r.tree, n, cs, owner, f) == r
  {
    var j := ChainGrows(fs, n, cs, owner, f);
    ChainIsWalked(fs, n, cs, owner, f);
    WalkedNeedsNothing(MakeChain(fs, n, cs, owner, f).tree, n, cs, owner, f);
  }

  // ---------- path strings ----------

  predicate AllSlashes(p: string) {
    forall i :: 0 <= i < |p| ==> p[i] == '/'
  }

  lemma {:induction false} OnlySlashes(p: string)
    requires AllSlashes(p)
    ensures Comps(p) == []
  {
    if p != "" {
      OnlySlashes(p[1..]);
    }
  }

  lemma TrailingSlashes(p: string, tail: string)
    requires AllSlashes(tail)
    ensures Comps(p + tail) == Comps(p)
  {
    if tail == "" {
      assert p + tail == p;
    } else {
      var rest := tail[1..];
      assert tail == "/" + rest;
      CompsAfterSlash(p, rest);
      OnlySlashes(rest);
      assert Comps(p) + [] == Comps(p);
    }
  }

  lemma LastComponent(head: string, last: string, tail: string)
    requires Good(last) && AllSlashes(tail)
    ensures Comps(last + tail) == [last]
    ensures Comps(head + ("/" + last) + tail) == Comps(head) + [last]
  {
    TrailingSlashes(last, tail);
    TrailingSlashes(head + ("/" + last), tail);
    CompsAfterSlash(head, last);
    assert last + "" == last;
    CompsOfLead(last, "");
  }

  // A path cut into its parent, its last component and trailing slashes.
  datatype Cut = Cut(head: string, slash: bool, last: string, tail: string)

  ghost predicate Cuts(path: string, c: Cut) {
    && AllSlashes(c.tail) && (c.last == "" ==> c.head == "" && !c.slash) && (c.last != "" ==> Good(c.last))
    && path == (if c.slash then c.head + ("/" + c.last) + c.tail else c.last + c.tail)
    && (!c.slash ==> c.head == "")
  }

  lemma CutComponents(path: string, c: Cut)
    requires Cuts(path, c)
    ensures Comps(path) == Comps(c.head) + if c.last == "" then [] else [c.last]
  {
    if c.last == "" {
      assert path == c.tail;
      OnlySlashes(path);
    } else {
      LastComponent(c.head, c.last, c.tail);
    }
  }

  // Where the two scans stop is such a cut.
  lemma ScansCut(path: string, i: nat, j: nat)
    requires j <= i <= |path|
    requires forall k :: i <= k < |path| ==> path[k] == '/'
    requires i > 0 ==> path[i - 1] != '/'
    requires forall k :: j <= k < i ==> path[k] != '/'
    requires j > 0 ==> path[j - 1] == '/'
    ensures Cuts(path, Cut(if j > 0 then path[..j - 1] else "", j > 0, path[j..i], path[i..]))
  {
  }

  // ---------- the file system ----------

  class FileSystem {
    var tree: Tree
    const cwd: Node
    const faults: Faults

    ghost predicate Valid()
      reads this
    {
      ParentClosed(tree) && IsDir(tree, cwd)
    }

    constructor (tree: Tree, cwd: Node, faults: Faults)
      requires ParentClosed(tree) && IsDir(tree, cwd)
      ensures Valid() && this.tree == tree && this.cwd == cwd && this.faults == faults
    {
      this.tree, this.cwd, this.faults := tree, cwd, faults;
    }

    // An absolute path starts at the root, any other at the working directory.
    function Start(path: string): Node {
      if path != "" && path[0] == '/' then [] else cwd
    }

    lemma StartIsDir(path: string)
      requires Valid()
      ensures IsDir(tree, Start(path))
    {
      assert HasParent(tree, []);
    }

    // os.Stat and os.Lstat: a trailing slash asks for a directory.
    function Stat(path: string): (r: Option<Entry>)
      reads this
      ensures var w := Walk(tree, if path != "" && path[0] == '/' then [] else cwd, Comps(path));
              && (r != None <==> path != "" && w != None && (path[|path| - 1] == '/' ==> tree[w.value].Dir?))
              && (r != None ==> r.value == tree[w.value])
    {
      if path == "" then None
      else match Walk(tree, Start(path), Comps(path))
        case None => None
        case Some(m) => if path[|path| - 1] == '/' && tree[m].File? then None else Some(tree[m])
    }

    // os.Mkdir
    method Make(path: string) returns (ok: bool)
      modifies this
      ensures path == "" || Comps(path) == [] ==> !ok
      ensures !ok ==> tree == old(tree)
      ensures path != "" && Comps(path) != [] ==>
                var cs := Comps(path); var c := cs[|cs| - 1];
                var above := Walk(old(tree), if path[0] == '/' then [] else cwd, cs[..|cs| - 1]);
                && (ok <==> above != None && IsDir(old(tree), above.value) && c != "." && c != ".."
                            && above.value + [c] !in old(tree) && !faults.mkdir(above.value + [c]))
                && (ok ==> tree == old(tree)[above.value + [c] := Dir(Process)])
    {
      var cs := Comps(path);
      if path == "" || cs == [] {
        return false;
      }
      var above := Walk(tree, Start(path), cs[..|cs| - 1]);
      var c := cs[|cs| - 1];
      if above == None || !IsDir(tree, above.value) || c == "." || c == ".." {
        return false;
      }
      var m := above.value + [c];
      if m in tree || faults.mkdir(m) {
        return false;
      }
      tree := tree[m := Dir(Process)];
      return true;
    }

    // os.Chown of a directory
    method Chown(path: string, owner: Owner) returns (ok: bool)
      requires Walk(tree, Start(path), Comps(path)) != None
      requires IsDir(tree, Walk(tree, Start(path), Comps(path)).value)
      modifies this
      ensures var w := Walk(old(tree), if path != "" && path[0] == '/' then [] else cwd, Comps(path));
              && w != None && var m := w.value;
              ok == !faults.chown(m) && tree == if ok then old(tree)[m := Dir(owner)] else old(tree)
    {
      var m := Walk(tree, Start(path), Comps(path)).value;
      if faults.chown(m) {
        return false;
      }
      tree := tree[m := Dir(owner)];
      return true;
    }

    lemma ParentOf(path: string, j: nat)
      requires 1 < j <= |path|
      ensures path[..j - 1] != "" && Start(path[..j - 1]) == Start(path)
    {
      assert path[..j - 1][0] == path[0];
    }

    // Once the chain of the parent is made, the kernel gets to the parent.
    lemma ChainReached(fs: Tree, n: Node, cs: seq<string>, owner: Owner)
      requires ParentClosed(fs) && IsDir(fs, n) && cs != []
      requires MakeChain(fs, n, cs[..|cs| - 1], owner, faults).ok
      ensures var above := MakeChain(fs, n, cs[..|cs| - 1], owner, faults).tree; var p := Reach(n, cs[..|cs| - 1]);
              Walk(above, n, cs[..|cs| - 1]) == Some(p) && IsDir(above, p)
    {
      var j := ChainGrows(fs, n, cs[..|cs| - 1], owner, faults);
      ChainIsWalked(fs, n, cs[..|cs| - 1], owner, faults);
    }

    // The end of mkdirAll, once the parent exists.
    method MakeLast(path: string, owner: Owner) returns (ok: bool)
      requires Valid()
      requires path != "" ==>
                 var cs := Comps(path);
                 && cs != []
                 && var p := Reach(Start(path), cs[..|cs| - 1]);
                    Walk(tree, Start(path), cs[..|cs| - 1]) == Some(p) && IsDir(tree, p)
      modifies this
      ensures Valid()
      ensures if path == "" then !ok && tree == old(tree)
              else Made(tree, ok) == MakeOne(old(tree), Reach(Start(path), Comps(path)), owner, faults)
    {
      ghost var cs := Comps(path);
      if path != "" {
        EnterInto(tree, Reach(Start(path), cs[..|cs| - 1]), cs[|cs| - 1]);
        OneKeepsClosed(tree, Reach(Start(path), cs), owner, faults);
      }
      var made := Make(path);
      if !made {
        var entry := Stat(path);
        return entry != None && entry.value.Dir?;
      }
      WalkGrows(old(tree), tree, Start(path), cs[..|cs| - 1]);
      ok := Chown(path, owner);
      assert tree == MakeOne(old(tree), Reach(Start(path), cs), owner, faults).tree;
    }

    // The two backward scans: path[..j - 1] is the parent.
    method ScanBack(path: string) returns (j: nat)
      ensures j <= |path|
      ensures Comps(path) != [] ==>
                Comps(path)[..|Comps(path)| - 1] == if j > 1 then Comps(path[..j - 1]) else []
    {
      var i := |path|;
      while i > 0 && path[i - 1] == '/'
        invariant 0 <= i <= |path|
        invariant forall k :: i <= k < |path| ==> path[k] == '/'
      {
        i := i - 1;
      }
      j := i;
      while j > 0 && path[j - 1] != '/'
        invariant 0 <= j <= i
        invariant forall k :: j <= k < i ==> path[k] != '/'
      {
        j := j - 1;
      }
      ScansCut(path, i, j);
      CutComponents(path, Cut(if j > 0 then path[..j - 1] else "", j > 0, path[j..i], path[i..]));
    }

    // Terminates for every path, and does exactly what the top-down chain does.
    method MkdirAll(path: string, owner: Owner) returns (ok: bool)
      requires Valid()
      modifies this
      ensures Valid()
      ensures if path == "" then !ok && tree == old(tree)
              else
                var start := if path[0] == '/' then [] else cwd;
                Made(tree, ok) == MakeChain(old(tree), start, Comps(path), owner, faults)
      decreases |path|
    {
      StartIsDir(path);
      var entry := Stat(path);
      if entry != None {
        WalkedNeedsNothing(tree, Start(path), Comps(path), owner, faults);
        return entry.value.Dir?;
      }
      var j := ScanBack(path);
      if j > 1 {
        ParentOf(path, j);
        var made := MkdirAll(path[..j - 1], owner);
        if !made {
          return false;
        }
      }
      if path != "" {
        ChainReached(old(tree), Start(path), Comps(path), owner);
      }
      ok := MakeLast(path, owner);
    }
  }
}
