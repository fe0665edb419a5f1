/** Model of internal/plan/plan.go: the discovery runner that walks the input
    tree, counts every entry into the run's Plan accumulator, prunes ignored
    directories and measures each selected entry's depth below the input root.

    The file system is a `Node` tree whose directories list their children in
    whatever order the tree gives (fs.ReadDir's order); fs.WalkDir's pre-order
    traversal of it is the `Trace` functions below, and the imperative walk
    that drives the callback is `WalkNode`/`WalkChildren`. The gitignore
    matcher is an abstract predicate on slash-separated walk paths. */
module PlanRunner {
  import opened Wrappers
  import opened GoStrings
  import StatsPlan
  import Migrations

  // ---------------------------------------------------------------------
  // Paths and depth

  /** A directory entry's name as fs.ReadDir reports it: non-empty, without a
      separator, and neither "." nor "..". */
  predicate ValidName(name: string) {
    name != [] && '/' !in name && name != "." && name != ".."
  }

  /** A walk path other than the root ".": it is not empty and neither starts
      with a separator nor with "./". */
  predicate BelowRoot(path: string) {
    path != [] && path != "." && !HasPrefix(path, "/") && !HasPrefix(path, "./")
  }

  /** path.Join(parent, name) as fs.WalkDir builds a child's walk path. */
  function ChildPath(parent: string, name: string): string {
    if parent == "." then name else parent + "/" + name
  }

  /** filepath.Join(input, path) for a walk path: the input path itself for
      the root ".", the walk path alone when the input is ".", and the two
      joined by one separator otherwise. */
  function Join(input: string, path: string): string {
    if path == "." then input else if input == "." then path else input + "/" + path
  }

  /** depthFrom: cut the root off the front of the path, then at most one
      separator, and count the separators that remain (0 for nothing left). */
  function DepthFrom(root: string, path: string): nat {
    var rel := TrimPrefix(TrimPrefix(path, root), "/");
    if rel == "" then 0 else Count(rel, '/')
  }

  /** An entry is never deeper than the number of separators in its full path. */
  lemma DepthAtMostSeparators(root: string, path: string)
    ensures DepthFrom(root, path) <= Count(path, '/')
  {
    var once := TrimPrefix(path, root);
    var rel := TrimPrefix(once, "/");
    if HasPrefix(path, root) {
      assert multiset(path) == multiset(root) + multiset(once);
    }
    if HasPrefix(once, "/") {
      assert multiset(once) == multiset("/") + multiset(rel);
    }
    CountIsMultiplicity(path, '/');
    CountIsMultiplicity(rel, '/');
  }

  /** The input root itself is at depth 0. */
  lemma DepthOfRoot(input: string)
    ensures DepthFrom(input, Join(input, ".")) == 0
  {
    assert TrimPrefix(input, input) == [];
  }

  /** Below the root, an entry's depth is the number of separators in its walk path. */
  lemma DepthOfJoined(input: string, path: string)
    requires BelowRoot(path)
    ensures DepthFrom(input, Join(input, path)) == Count(path, '/')
  {
    if input == "." {
      if HasPrefix(path, ".") {
        var rest := path[1..];
        assert path == "." + rest;
        assert TrimPrefix(path, ".") == rest;
        assert !HasPrefix(rest, "/");
        assert Count(path, '/') == Count(rest, '/') by {
          assert multiset(path) == multiset(".") + multiset(rest);
          CountIsMultiplicity(path, '/');
          CountIsMultiplicity(rest, '/');
        }
      } else {
        assert TrimPrefix(path, ".") == path;
      }
    } else {
      var joined := input + "/" + path;
      assert HasPrefix(joined, input) && joined[|input|..] == "/" + path;
      assert TrimPrefix("/" + path, "/") == path;
    }
  }

  /** A child of a directory below the root lies one level deeper than it; a
      child of the root lies at depth 0. */
  lemma ChildDepth(input: string, parent: string, name: string)
    requires ValidName(name)
    requires parent == "." || BelowRoot(parent)
    ensures BelowRoot(ChildPath(parent, name))
    ensures DepthFrom(input, Join(input, ChildPath(parent, name))) ==
            if parent == "." then 0 else DepthFrom(input, Join(input, parent)) + 1
  {
    var child := ChildPath(parent, name);
    if parent == "." {
      assert child == name;
      if |name| >= 2 {
        assert name[..2][1] == name[1];
      }
      assert !HasPrefix(name, "/") && !HasPrefix(name, "./");
      DepthOfJoined(input, name);
      assert multiset(name)['/'] == 0;
      CountIsMultiplicity(name, '/');
    } else {
      assert child == parent + "/" + name;
      assert child[..|parent|] == parent;
      assert !HasPrefix(child, "/") && !HasPrefix(child, "./");
      assert child != "." by {
        assert |child| >= 2;
      }
      DepthOfJoined(input, child);
      DepthOfJoined(input, parent);
      assert multiset(child) == multiset(parent) + multiset("/") + multiset(name);
      CountIsMultiplicity(child, '/');
      CountIsMultiplicity(parent, '/');
      CountIsMultiplicity(name, '/');
    }
  }

  // ---------------------------------------------------------------------
  // The tree and fs.WalkDir's traversal of it

  /** A file, or a directory with its children and the error (if any) that
      listing it produces. */
  datatype Node =
    | File(name: string)
    | Dir(name: string, children: seq<Node>, listErr: Option<string>)

  /** One call of the walk callback on an entry reached without error. */
  datatype Visit = Visit(path: string, isDir: bool)

  /** The callback calls of a walk, in order, and the error that ended it. */
  datatype Trace = Trace(visits: seq<Visit>, err: Option<string>)

  /** fs.WalkDir below `path` with Runner.Plan's callback: the entry is
      visited first; an ignored directory is pruned (fs.SkipDir); a listing
      error is passed back to the callback, which returns it and so ends the
      walk; otherwise the children are walked in order until one fails. */
  function TraceNode(path: string, n: Node, ign: string -> bool): (t: Trace)
    ensures t.visits != [] && t.visits[0] == Visit(path, n.Dir?)
    decreases n, 1
  {
    match n
    case File(_) => Trace([Visit(path, false)], None)
    case Dir(_, children, listErr) =>
      if ign(path) then Trace([Visit(path, true)], None)
      else if listErr.Some? then Trace([Visit(path, true)], listErr)
      else
        var rest := TraceChildren(path, children, ign);
        Trace([Visit(path, true)] + rest.visits, rest.err)
  }

  function TraceChildren(parent: string, children: seq<Node>, ign: string -> bool): Trace
    decreases children, 0
  {
    if children == [] then Trace([], None)
    else
      var first := TraceNode(ChildPath(parent, children[0].name), children[0], ign);
      if first.err.Some? then first
      else
        var rest := TraceChildren(parent, children[1..], ign);
        Trace(first.visits + rest.visits, rest.err)
  }

  /** fs.WalkDir(os.DirFS(input), ".", fn): a root that cannot be stat'ed is
      handed to the callback as an error, which it returns. */
  function TraceRoot(root: Result<Node, string>, ign: string -> bool): Trace {
    match root
    case Failure(e) => Trace([], Some(e))
    case Success(n) => TraceNode(".", n, ign)
  }

  // ---------------------------------------------------------------------
  // Pruning: nothing below an ignored directory is visited

  /** The prefix shared by every walk path strictly below `path`. */
  function Under(path: string): string {
    if path == "." then "" else path + "/"
  }

  /** `path` is `top` itself or lies strictly below it. */
  predicate AtOrBelow(path: string, top: string) {
    path == top || HasPrefix(path, Under(top))
  }

  /** Every visit lies strictly below `top`. */
  predicate AllBelow(visits: seq<Visit>, top: string) {
    forall i :: 0 <= i < |visits| ==> HasPrefix(visits[i].path, Under(top))
  }

  /** No visit lies strictly below `top`. */
  predicate NoneBelow(visits: seq<Visit>, top: string) {
    forall i :: 0 <= i < |visits| ==> !HasPrefix(visits[i].path, Under(top))
  }

  /** Go's fs.ReadDir lists each directory's entries under distinct names,
      none of them empty, "." or "..", or holding a separator. */
  predicate NamesOk(children: seq<Node>) {
    && (forall k :: 0 <= k < |children| ==> ValidName(children[k].name))
    && (forall k, l :: 0 <= k < l < |children| ==> children[k].name != children[l].name)
  }

  /** Every directory of the tree lists its children as fs.ReadDir does. */
  predicate WellNamed(n: Node)
    decreases n
  {
    n.Dir? ==> NamesOk(n.children) && forall k :: 0 <= k < |n.children| ==> WellNamed(n.children[k])
  }

  /** No visit after an ignored directory's own visit lies below it. */
  predicate PrunedAt(visits: seq<Visit>, ign: string -> bool) {
    forall i, j :: 0 <= i < j < |visits| && visits[i].isDir && ign(visits[i].path) ==>
      !HasPrefix(visits[j].path, Under(visits[i].path))
  }

  lemma PrefixTrans(s: string, m: string, p: string)
    requires HasPrefix(s, m) && HasPrefix(m, p)
    ensures HasPrefix(s, p)
  {
    assert s[..|p|] == s[..|m|][..|p|];
  }

  /** A child's walk path is its parent's `Under` prefix followed by its name. */
  lemma ChildPathUnder(parent: string, name: string)
    ensures ChildPath(parent, name) == Under(parent) + name
  {
  }

  /** A child, and everything below it, lies below its parent. */
  lemma ChildBelowParent(parent: string, name: string)
    ensures HasPrefix(ChildPath(parent, name), Under(parent))
    ensures HasPrefix(Under(ChildPath(parent, name)), Under(parent))
  {
    var u := Under(parent);
    ChildPathUnder(parent, name);
    assert (u + name)[..|u|] == u;
    if parent != "." {
      assert ChildPath(parent, name)[|parent|] == '/';
      assert (u + name + "/")[..|u|] == u;
    }
  }

  /** What lies below a path lies below every path that path lies below. */
  lemma UnderOfBelow(path: string, top: string)
    requires AtOrBelow(path, top)
    ensures HasPrefix(Under(path), Under(top))
  {
    if path != top && top != "." {
      assert path[..|Under(top)|] == top + "/";
      assert path != "." by {
        assert path[|top|] == '/';
      }
      assert Under(path)[..|path|] == path;
      PrefixTrans(Under(path), path, Under(top));
    }
  }

  /** A name without separators at the head of `r` leaves no separator before its end. */
  lemma NoSeparatorWithin(r: string, name: string)
    requires |name| <= |r| && r[..|name|] == name && '/' !in name
    ensures forall k :: 0 <= k < |name| ==> r[k] != '/'
  {
    forall k | 0 <= k < |name|
      ensures r[k] != '/'
    {
      assert r[k] == name[k];
    }
  }

  /** A walk path at or below the child named `b` lies below the child
      named `a` only when the two names are the same: sibling subtrees are
      disjoint. */
  lemma SameChild(parent: string, a: string, b: string, s: string)
    requires ValidName(a) && ValidName(b)
    requires AtOrBelow(s, ChildPath(parent, b))
    ensures HasPrefix(s, Under(ChildPath(parent, a))) ==> a == b
  {
    var u := Under(parent);
    ChildPathUnder(parent, a);
    ChildPathUnder(parent, b);
    assert Under(ChildPath(parent, a)) == u + a + "/";
    var pa, pb := u + a + "/", u + b + "/";
    if HasPrefix(s, pa) {
      // After the parent's prefix, the text before the first separator names the child.
      assert s[..|pa|] == pa;
      var r := s[|u|..];
      assert r[..|a|] == a && r[|a|] == '/';
      assert s == u + b ==> r == b;
      assert s != u + b ==> s[..|pb|] == pb;
      assert s != u + b ==> r[..|b|] == b && r[|b|] == '/';
      NoSeparatorWithin(r, a);
      if |b| <= |r| {
        assert r[..|b|] == b;
        NoSeparatorWithin(r, b);
      }
    }
  }

  /** Every visit of a walk below `path` other than the first lies strictly
      below `path`, and there are such visits only for a directory that is
      not ignored and lists without error. */
  lemma {:induction false} TraceNodeBelow(path: string, n: Node, ign: string -> bool)
    ensures var t := TraceNode(path, n, ign);
      && (|t.visits| > 1 ==> n.Dir? && !ign(path) && n.listErr == None)
      && AllBelow(t.visits[1..], path)
      && (forall i :: 0 <= i < |t.visits| ==> AtOrBelow(t.visits[i].path, path))
    decreases n, 1
  {
    if n.Dir? && !ign(path) && n.listErr == None {
      var rest := TraceChildren(path, n.children, ign);
      TraceChildrenBelow(path, n.children, ign);
      assert ([Visit(path, true)] + rest.visits)[1..] == rest.visits;
    }
  }

  /** Every visit of a walk over a directory's children lies strictly below it. */
  lemma {:induction false} TraceChildrenBelow(parent: string, children: seq<Node>, ign: string -> bool)
    ensures AllBelow(TraceChildren(parent, children, ign).visits, parent)
    decreases children, 0
  {
    if children != [] {
      var p := ChildPath(parent, children[0].name);
      var first := TraceNode(p, children[0], ign);
      TraceNodeBelow(p, children[0], ign);
      ChildBelowParent(parent, children[0].name);
      forall i | 0 <= i < |first.visits|
        ensures HasPrefix(first.visits[i].path, Under(parent))
      {
        if i > 0 {
          assert first.visits[i] == first.visits[1..][i - 1];
        }
        if first.visits[i].path != p {
          PrefixTrans(first.visits[i].path, Under(p), Under(parent));
        }
      }
      if first.err == None {
        var rest := TraceChildren(parent, children[1..], ign);
        TraceChildrenBelow(parent, children[1..], ign);
        var visits := first.visits + rest.visits;
        forall i | 0 <= i < |visits|
          ensures HasPrefix(visits[i].path, Under(parent))
        {
          if i >= |first.visits| {
            assert visits[i] == rest.visits[i - |first.visits|];
          } else {
            assert visits[i] == first.visits[i];
          }
        }
      }
    }
  }

  /** A walk over children whose names all differ from `name` visits nothing
      below the sibling called `name`. */
  lemma {:induction false} OutsideSibling(parent: string, children: seq<Node>, name: string, ign: string -> bool)
    requires ValidName(name)
    requires forall l :: 0 <= l < |children| ==> ValidName(children[l].name) && children[l].name != name
    ensures NoneBelow(TraceChildren(parent, children, ign).visits, ChildPath(parent, name))
    decreases children
  {
    if children != [] {
      var p := ChildPath(parent, children[0].name);
      var first := TraceNode(p, children[0], ign);
      TraceNodeBelow(p, children[0], ign);
      forall j | 0 <= j < |first.visits|
        ensures !HasPrefix(first.visits[j].path, Under(ChildPath(parent, name)))
      {
        SameChild(parent, name, children[0].name, first.visits[j].path);
      }
      if first.err == None {
        var rest := TraceChildren(parent, children[1..], ign);
        OutsideSibling(parent, children[1..], name, ign);
        var visits := first.visits + rest.visits;
        forall j | 0 <= j < |visits|
          ensures !HasPrefix(visits[j].path, Under(ChildPath(parent, name)))
        {
          if j >= |first.visits| {
            assert visits[j] == rest.visits[j - |first.visits|];
          } else {
            assert visits[j] == first.visits[j];
          }
        }
      }
    }
  }

  lemma PrunedConcat(a: seq<Visit>, b: seq<Visit>, ign: string -> bool)
    requires PrunedAt(a, ign) && PrunedAt(b, ign)
    requires forall i, j :: 0 <= i < |a| && 0 <= j < |b| && a[i].isDir && ign(a[i].path) ==>
      !HasPrefix(b[j].path, Under(a[i].path))
    ensures PrunedAt(a + b, ign)
  {
    var ab := a + b;
    forall i, j | 0 <= i < j < |ab| && ab[i].isDir && ign(ab[i].path)
      ensures !HasPrefix(ab[j].path, Under(ab[i].path))
    {
      if j < |a| {
        assert ab[i] == a[i] && ab[j] == a[j];
      } else if i < |a| {
        assert ab[i] == a[i] && ab[j] == b[j - |a|];
      } else {
        assert ab[i] == b[i - |a|] && ab[j] == b[j - |a|];
      }
    }
  }

  /** In a walk below `path` over a tree named as fs.ReadDir names it, no
      visit after an ignored directory's lies below that directory. */
  lemma {:induction false} TraceNodePrunes(path: string, n: Node, ign: string -> bool)
    requires WellNamed(n)
    ensures PrunedAt(TraceNode(path, n, ign).visits, ign)
    decreases n, 1
  {
    if n.Dir? && !ign(path) && n.listErr == None {
      var rest := TraceChildren(path, n.children, ign);
      TraceChildrenPrune(path, n.children, ign);
      PrunedConcat([Visit(path, true)], rest.visits, ign);
    }
  }

  lemma {:induction false} TraceChildrenPrune(parent: string, children: seq<Node>, ign: string -> bool)
    requires NamesOk(children) && forall k :: 0 <= k < |children| ==> WellNamed(children[k])
    ensures PrunedAt(TraceChildren(parent, children, ign).visits, ign)
    decreases children, 0
  {
    if children != [] {
      var p := ChildPath(parent, children[0].name);
      var first := TraceNode(p, children[0], ign);
      TraceNodePrunes(p, children[0], ign);
      if first.err == None {
        var tail := children[1..];
        var rest := TraceChildren(parent, tail, ign);
        assert forall k :: 0 <= k < |tail| ==> tail[k] == children[k + 1];
        TraceChildrenPrune(parent, tail, ign);
        TraceNodeBelow(p, children[0], ign);
        OutsideSibling(parent, tail, children[0].name, ign);
        forall i, j | 0 <= i < |first.visits| && 0 <= j < |rest.visits|
          ensures !HasPrefix(rest.visits[j].path, Under(first.visits[i].path))
        {
          UnderOfBelow(first.visits[i].path, p);
          if HasPrefix(rest.visits[j].path, Under(first.visits[i].path)) {
            PrefixTrans(rest.visits[j].path, Under(first.visits[i].path), Under(p));
          }
        }
        PrunedConcat(first.visits, rest.visits, ign);
      }
    }
  }

  /** fs.WalkDir with Runner.Plan's callback never visits anything below an
      ignored directory: every visit after an ignored directory's own lies
      outside it. */
  lemma WalkPrunesIgnored(root: Result<Node, string>, ign: string -> bool)
    requires root.Success? ==> WellNamed(root.value)
    ensures PrunedAt(TraceRoot(root, ign).visits, ign)
  {
    if root.Success? {
      TraceNodePrunes(".", root.value, ign);
    }
  }

  // ---------------------------------------------------------------------
  // The callback's counting discipline

  /** project.FileMeta: a selected entry's full path, depth and kind. */
  datatype FileMeta = FileMeta(path: string, depth: int, isDir: bool)

  /** The counters the callback touches, and the meta list it appends to. */
  datatype Tally = Tally(discovered: int, selected: int, dirs: int, maxDepth: int, metas: seq<FileMeta>)

  const NoTally := Tally(0, 0, 0, 0, [])

  /** One callback call: count the entry as discovered; an ignored entry
      counts as a directory when it is one and nothing more; any other entry
      counts as a directory when it is one, raises the maximum depth, is
      recorded with its full path and depth, and counts as selected. */
  function Step(t: Tally, v: Visit, input: string, ign: string -> bool): Tally {
    var dirs := if v.isDir then t.dirs + 1 else t.dirs;
    if ign(v.path) then
      t.(discovered := t.discovered + 1, dirs := dirs)
    else
      var m := MetaOf(input, v);
      Tally(t.discovered + 1, t.selected + 1, dirs, StatsPlan.DepthAfter(t.maxDepth, m.depth), t.metas + [m])
  }

  /** The meta recorded for a visit: its full path, that path's depth, its kind. */
  function MetaOf(input: string, v: Visit): FileMeta {
    FileMeta(Join(input, v.path), DepthFrom(input, Join(input, v.path)), v.isDir)
  }

  /** The callback applied to a sequence of visits, in order. */
  function Run(t: Tally, visits: seq<Visit>, input: string, ign: string -> bool): Tally
    decreases visits
  {
    if visits == [] then t else Run(Step(t, visits[0], input, ign), visits[1..], input, ign)
  }

  /** Running two stretches of a walk is running their concatenation. */
  lemma {:induction false} RunConcat(t: Tally, a: seq<Visit>, b: seq<Visit>, input: string, ign: string -> bool)
    ensures Run(t, a + b, input, ign) == Run(Run(t, a, input, ign), b, input, ign)
    decreases a
  {
    if a == [] {
      assert a + b == b;
    } else {
      assert (a + b)[0] == a[0];
      assert (a + b)[1..] == a[1..] + b;
      var s := Step(t, a[0], input, ign);
      assert Run(t, a + b, input, ign) == Run(s, a[1..] + b, input, ign);
      assert Run(t, a, input, ign) == Run(s, a[1..], input, ign);
      RunConcat(s, a[1..], b, input, ign);
    }
  }

  /** Number of directory visits. */
  function DirVisits(visits: seq<Visit>): nat
    decreases visits
  {
    if visits == [] then 0 else (if visits[0].isDir then 1 else 0) + DirVisits(visits[1..])
  }

  /** Number of visits the matcher does not ignore. */
  function SelectedVisits(visits: seq<Visit>, ign: string -> bool): nat
    decreases visits
  {
    if visits == [] then 0 else (if ign(visits[0].path) then 0 else 1) + SelectedVisits(visits[1..], ign)
  }

  /** What a sequence of callback calls adds up to: one discovery per visit,
      one directory per directory visit, one selection and one recorded meta
      per visit that is not ignored; the meta list only grows, and the
      maximum depth covers every new meta without falling. */
  lemma {:induction false} RunCounts(t: Tally, visits: seq<Visit>, input: string, ign: string -> bool)
    requires t.maxDepth >= 0
    ensures var r := Run(t, visits, input, ign);
      && r.discovered == t.discovered + |visits|
      && r.dirs == t.dirs + DirVisits(visits)
      && r.selected == t.selected + SelectedVisits(visits, ign)
      && |r.metas| == |t.metas| + SelectedVisits(visits, ign)
      && r.metas[..|t.metas|] == t.metas
      && r.maxDepth >= t.maxDepth
      && (forall k :: |t.metas| <= k < |r.metas| ==> r.metas[k].depth <= r.maxDepth)
    decreases visits
  {
    if visits != [] {
      var s := Step(t, visits[0], input, ign);
      var rest := visits[1..];
      RunCounts(s, rest, input, ign);
      var r := Run(s, rest, input, ign);
      assert r.metas[..|s.metas|] == s.metas;
      assert r.metas[..|t.metas|] == s.metas[..|t.metas|];
      forall k | |t.metas| <= k < |s.metas|
        ensures r.metas[k].depth <= r.maxDepth
      {
        assert r.metas[k] == s.metas[k];
      }
    }
  }

  /** Every meta a sequence of callback calls records describes one of its
      visits that the matcher does not ignore; `i` is that visit. */
  lemma {:induction false} RunMetaOrigin(t: Tally, visits: seq<Visit>, input: string, ign: string -> bool, k: nat)
    returns (i: nat)
    requires |t.metas| <= k < |Run(t, visits, input, ign).metas|
    ensures i < |visits| && !ign(visits[i].path)
    ensures Run(t, visits, input, ign).metas[k] == MetaOf(input, visits[i])
    decreases visits
  {
    if visits == [] {
      assert false;
    }
    var s := Step(t, visits[0], input, ign);
    var rest := visits[1..];
    var r := Run(s, rest, input, ign);
    assert r == Run(t, visits, input, ign);
    if !ign(visits[0].path) && k == |t.metas| {
      RunKeepsMetas(s, rest, input, ign);
      assert s.metas == t.metas + [MetaOf(input, visits[0])];
      assert r.metas[k] == s.metas[k];
      i := 0;
    } else {
      assert |s.metas| <= k;
      var i' := RunMetaOrigin(s, rest, input, ign, k);
      assert rest[i'] == visits[i' + 1];
      i := i' + 1;
    }
  }

  /** Callback calls only append to the meta list. */
  lemma {:induction false} RunKeepsMetas(t: Tally, visits: seq<Visit>, input: string, ign: string -> bool)
    ensures var r := Run(t, visits, input, ign);
      |t.metas| <= |r.metas| && r.metas[..|t.metas|] == t.metas
    decreases visits
  {
    if visits != [] {
      var s := Step(t, visits[0], input, ign);
      RunKeepsMetas(s, visits[1..], input, ign);
      var r := Run(s, visits[1..], input, ign);
      assert r.metas[..|t.metas|] == r.metas[..|s.metas|][..|t.metas|];
    }
  }

  /** A walk on a fresh plan selects no more than it discovers (so the
      snapshot's ignored count is never negative) and records exactly one
      meta per selection. */
  lemma FreshWalkCounts(visits: seq<Visit>, input: string, ign: string -> bool)
    ensures var r := Run(NoTally, visits, input, ign);
      && 0 <= r.selected <= r.discovered
      && r.selected == |r.metas|
      && r.discovered - r.selected == |visits| - SelectedVisits(visits, ign)
  {
    RunCounts(NoTally, visits, input, ign);
    SelectedAtMostAll(visits, ign);
  }

  lemma {:induction false} SelectedAtMostAll(visits: seq<Visit>, ign: string -> bool)
    ensures SelectedVisits(visits, ign) <= |visits|
    decreases visits
  {
    if visits != [] {
      SelectedAtMostAll(visits[1..], ign);
    }
  }

  /** The example walk: a root holding a.go, b.txt and an ignored vendor/
      holding x.go. The root, a.go, b.txt and vendor are discovered; the
      root, a.go and b.txt are selected; the root and vendor are counted as
      directories; x.go is never visited. */
  lemma VendorExample()
    ensures var tree := Dir("", [File("a.go"), File("b.txt"), Dir("vendor", [File("x.go")], None)], None);
      var ign := (p: string) => p == "vendor";
      var t := TraceNode(".", tree, ign);
      var r := Run(NoTally, t.visits, "/src", ign);
      && t.err == None
      && t.visits == [Visit(".", true), Visit("a.go", false), Visit("b.txt", false), Visit("vendor", true)]
      && r.discovered == 4 && r.selected == 3 && r.dirs == 2
  {
    var tree := Dir("", [File("a.go"), File("b.txt"), Dir("vendor", [File("x.go")], None)], None);
    var ign := (p: string) => p == "vendor";
    var vendor := Dir("vendor", [File("x.go")], None);
    assert TraceNode("vendor", vendor, ign) == Trace([Visit("vendor", true)], None);
    var cs := tree.children;
    assert cs[1..][1..] == [vendor] && cs[1..][1..][1..] == [];
    assert TraceChildren(".", [vendor], ign) == Trace([Visit("vendor", true)], None);
    assert TraceChildren(".", cs[1..], ign) == Trace([Visit("b.txt", false), Visit("vendor", true)], None);
    assert TraceChildren(".", cs, ign) == Trace([Visit("a.go", false), Visit("b.txt", false), Visit("vendor", true)], None);
  }

  // ---------------------------------------------------------------------
  // The walk itself

  /** The callback's counters of `p` together with the meta list so far. */
  function TallyOf(p: StatsPlan.Plan, metas: seq<FileMeta>): Tally
    reads p
  {
    Tally(p.filesDiscovered, p.filesSelected, p.dirsVisited, p.maxDepth, metas)
  }

  /** Runner.Plan's WalkDirFunc for an entry reached without error. It
      updates the plan as `Step` describes and asks to skip the entry's
      subtree exactly when it is an ignored directory. */
  method VisitEntry(p: StatsPlan.Plan, input: string, ign: string -> bool, path: string, isDir: bool, metas: seq<FileMeta>)
    returns (newMetas: seq<FileMeta>, skipDir: bool)
    modifies p`filesDiscovered, p`filesSelected, p`dirsVisited, p`maxDepth
    ensures TallyOf(p, newMetas) == Step(old(TallyOf(p, metas)), Visit(path, isDir), input, ign)
    ensures skipDir <==> ign(path) && isDir
  {
    newMetas := metas;
    p.IncDiscovered(1);
    var rel := path;
    if ign(rel) {
      if isDir {
        p.IncDirs(1);
        return newMetas, true;
      }
      return newMetas, false;
    }
    if isDir {
      p.IncDirs(1);
    }
    var meta := MetaOf(input, Visit(path, isDir));
    p.MaxDepthSeen(meta.depth);
    newMetas := newMetas + [meta];
    p.IncSelected(1);
    skipDir := false;
  }

  /** fs.WalkDir's recursion below one entry, driving the callback. */
  method WalkNode(p: StatsPlan.Plan, input: string, ign: string -> bool, path: string, n: Node, metas: seq<FileMeta>)
    returns (newMetas: seq<FileMeta>, err: Option<string>)
    modifies p`filesDiscovered, p`filesSelected, p`dirsVisited, p`maxDepth
    ensures TallyOf(p, newMetas) == Run(old(TallyOf(p, metas)), TraceNode(path, n, ign).visits, input, ign)
    ensures err == TraceNode(path, n, ign).err
    decreases n, 1
  {
    ghost var before := TallyOf(p, metas);
    var skipDir;
    newMetas, skipDir := VisitEntry(p, input, ign, path, n.Dir?, metas);
    ghost var self := [Visit(path, n.Dir?)];
    assert Run(before, self, input, ign) == TallyOf(p, newMetas);
    if skipDir || n.File? {
      return newMetas, None;
    }
    if n.listErr.Some? {
      return newMetas, n.listErr;
    }
    ghost var mid := TallyOf(p, newMetas);
    newMetas, err := WalkChildren(p, input, ign, path, n.children, newMetas);
    RunConcat(before, self, TraceChildren(path, n.children, ign).visits, input, ign);
  }

  /** fs.WalkDir's loop over a directory's children: each is walked in turn
      and the first error ends the loop. */
  method WalkChildren(p: StatsPlan.Plan, input: string, ign: string -> bool, parent: string, children: seq<Node>, metas: seq<FileMeta>)
    returns (newMetas: seq<FileMeta>, err: Option<string>)
    modifies p`filesDiscovered, p`filesSelected, p`dirsVisited, p`maxDepth
    ensures TallyOf(p, newMetas) == Run(old(TallyOf(p, metas)), TraceChildren(parent, children, ign).visits, input, ign)
    ensures err == TraceChildren(parent, children, ign).err
    decreases children, 0
  {
    if children == [] {
      return metas, None;
    }
    ghost var before := TallyOf(p, metas);
    var child := children[0];
    newMetas, err := WalkNode(p, input, ign, ChildPath(parent, child.name), child, metas);
    if err.Some? {
      return;
    }
    ghost var first := TraceNode(ChildPath(parent, child.name), child, ign).visits;
    newMetas, err := WalkChildren(p, input, ign, parent, children[1..], newMetas);
    RunConcat(before, first, TraceChildren(parent, children[1..], ign).visits, input, ign);
  }

  /** fs.WalkDir(os.DirFS(input), ".", fn) with Runner.Plan's callback. */
  method WalkDir(p: StatsPlan.Plan, input: string, ign: string -> bool, root: Result<Node, string>)
    returns (metas: seq<FileMeta>, err: Option<string>)
    modifies p`filesDiscovered, p`filesSelected, p`dirsVisited, p`maxDepth
    ensures TallyOf(p, metas) == Run(old(TallyOf(p, [])), TraceRoot(root, ign).visits, input, ign)
    ensures err == TraceRoot(root, ign).err
  {
    if root.Failure? {
      return [], Some(root.error);
    }
    metas, err := WalkNode(p, input, ign, ".", root.value, []);
  }

  // ---------------------------------------------------------------------
  // The runner

  /** The runner's error messages (and the prefixes of the wrapped ones). */
  const NoRunContext := "internal: planRunner: run context unavailable"
  const NoDatabase := "internal: planRunner: database unavailable"
  const MigrationsFailed := "internal: planRunner: failed to run migrations: "
  const WalkFailed := "internal: planRunner: failed to walk input path: "

  /** The parts of project.RunContext the runner uses: the database handle. */
  datatype RunContext = RunContext(db: Migrations.Database?)

  /** What migrating `db` from user version `version` and applied list
      `applied` leaves behind: when the pending list cannot be built, nothing
      is applied and its error comes back wrapped; otherwise the pending
      migrations are applied in order up to the first that fails, the user
      version is that of the last one applied, and the failure (if any) comes
      back wrapped. */
  ghost predicate Migrated(db: Migrations.Database, version: int, applied: seq<Migrations.Migration>,
                           migrations: Result<seq<Migrations.MigrationFile>, string>, err: Option<string>)
    reads db
  {
    var pending := Migrations.Pending(version, db.versionQueryError, migrations);
    && (pending.Failure? ==>
          err == Some(MigrationsFailed + pending.error)
          && db.userVersion == version && db.applied == applied)
    && (pending.Success? ==>
          var list := pending.value;
          var k := Migrations.FirstFailure(list, db.txError);
          && db.applied == applied + list[..k]
          && db.userVersion == (if k == 0 then version else list[k - 1].version)
          && err == (if k == |list| then None
                     else Some(MigrationsFailed
                               + Migrations.MigrationFailed(list[k].name, db.txError(list[k]).value))))
  }

  /** buildDatabase: bring the run's database up to date, reporting a
      missing context, a missing database or a failed migration. */
  method BuildDatabase(rc: Option<RunContext>, migrations: Result<seq<Migrations.MigrationFile>, string>)
    returns (err: Option<string>)
    modifies if rc.Some? && rc.value.db != null then {rc.value.db} else {}
    ensures rc.None? ==> err == Some(NoRunContext)
    ensures rc.Some? && rc.value.db == null ==> err == Some(NoDatabase)
    ensures rc.Some? && rc.value.db != null ==>
      Migrated(rc.value.db, old(rc.value.db.userVersion), old(rc.value.db.applied), migrations, err)
  {
    if rc.None? {
      return Some(NoRunContext);
    }
    var cdb := rc.value.db;
    if cdb == null {
      return Some(NoDatabase);
    }
    var migrationErr := Migrations.RunMigrations(cdb, migrations);
    if migrationErr.Some? {
      return Some(MigrationsFailed + migrationErr.value);
    }
    return None;
  }

  /** The counters of `p` are those of tally `t`. */
  ghost predicate CountsAre(p: StatsPlan.Plan, t: Tally)
    reads p
  {
    p.filesDiscovered == t.discovered && p.filesSelected == t.selected
    && p.dirsVisited == t.dirs && p.maxDepth == t.maxDepth
  }

  /** The walk of Runner.Plan followed by its snapshot: the plan's counters
      end as the callback calls of the walk make them, the snapshot is taken
      after the walk, and a walk error comes back wrapped. */
  method WalkAndSnapshot(plan: StatsPlan.Plan, input: string, ign: string -> bool, root: Result<Node, string>)
    returns (snap: StatsPlan.PlanSnapshot, err: Option<string>)
    modifies plan`filesDiscovered, plan`filesSelected, plan`dirsVisited, plan`maxDepth
    ensures var t := TraceRoot(root, ign);
      && CountsAre(plan, Run(old(TallyOf(plan, [])), t.visits, input, ign))
      && plan.IsSnapshotOf(snap)
      && err == (if t.err.Some? then Some(WalkFailed + t.err.value) else None)
  {
    var metas, walkErr := WalkDir(plan, input, ign, root);
    snap := plan.Snapshot();
    if walkErr.Some? {
      return snap, Some(WalkFailed + walkErr.value);
    }
    return snap, None;
  }

  class Runner {
    var runPlan: StatsPlan.Plan?

    /** NewRunner. */
    constructor (plan: StatsPlan.Plan?)
      ensures runPlan == plan
    {
      runPlan := plan;
    }

    /** The nil-plan guard of Runner.Plan: a runner without a plan gets a
        fresh one rooted at the input path with no globs. */
    method EnsurePlan(input: string, now: int)
      modifies this`runPlan
      ensures runPlan != null
      ensures old(runPlan) != null ==> runPlan == old(runPlan)
      ensures old(runPlan) == null ==> fresh(runPlan) && runPlan.IsNew(input, [], [], now)
    {
      if runPlan == null {
        var tPlan := new StatsPlan.Plan(input, [], [], now);
        runPlan := tPlan;
      }
    }

    /** The part of Runner.Plan before the walk: make sure there is a plan,
        then run the migrations on the context's database. The migration
        error is returned so the caller can drop it. */
    method Prepare(rc: RunContext, input: string, now: int,
                   migrations: Result<seq<Migrations.MigrationFile>, string>)
      returns (migrationErr: Option<string>)
      modifies this`runPlan
      modifies if rc.db != null then {rc.db} else {}
      ensures runPlan != null
      ensures old(runPlan) != null ==> runPlan == old(runPlan) && unchanged(runPlan)
      ensures old(runPlan) == null ==> fresh(runPlan) && runPlan.IsNew(input, [], [], now)
      ensures rc.db != null ==> Migrated(rc.db, old(rc.db.userVersion), old(rc.db.applied), migrations, migrationErr)
    {
      EnsurePlan(input, now);
      label BeforeMigrations:
      migrationErr := BuildDatabase(Some(rc), migrations);
      assert unchanged@BeforeMigrations(runPlan);
    }

    /** Runner.Plan: without a run context it returns an empty snapshot and
        an error at once. Otherwise it makes sure there is a plan, runs the
        migrations and ignores how that went, walks the input tree counting
        into the plan, and returns the plan's snapshot, with the walk's error
        wrapped when the walk was cut short. */
    method Plan(rc: Option<RunContext>, input: string, root: Result<Node, string>, ign: string -> bool,
                now: int, migrations: Result<seq<Migrations.MigrationFile>, string>)
      returns (snap: StatsPlan.PlanSnapshot, err: Option<string>)
      modifies this`runPlan
      modifies (if runPlan != null then {runPlan} else {})`filesDiscovered,
               (if runPlan != null then {runPlan} else {})`filesSelected,
               (if runPlan != null then {runPlan} else {})`dirsVisited,
               (if runPlan != null then {runPlan} else {})`maxDepth
      modifies if rc.Some? && rc.value.db != null then {rc.value.db} else {}
      ensures rc.None? ==>
        && snap == StatsPlan.EmptySnapshot
        && err == Some(NoRunContext)
        && runPlan == old(runPlan)
        && (runPlan != null ==> unchanged(runPlan))
      ensures rc.Some? ==> runPlan != null
      ensures rc.Some? && old(runPlan) != null ==> runPlan == old(runPlan)
      ensures rc.Some? && old(runPlan) == null ==>
        && fresh(runPlan) && runPlan.root == input
        && runPlan.includeGlobs == [] && runPlan.excludeGlobs == [] && runPlan.startedAt == now
        && runPlan.largestFileBytes == 0 && runPlan.ignoredByReason == map[]
        && runPlan.endedAt == 0 && runPlan.dbInitMS == 0
        && runPlan.language == "" && runPlan.languageSource == "" && !runPlan.gitIgnoreFound
        && runPlan.warnCnt == 0 && runPlan.errCnt == 0
      ensures rc.Some? && rc.value.db != null ==>
        exists e :: Migrated(rc.value.db, old(rc.value.db.userVersion), old(rc.value.db.applied), migrations, e)
      ensures rc.Some? ==>
        var start := if old(runPlan) == null then NoTally else old(TallyOf(runPlan, []));
        var t := TraceRoot(root, ign);
        && CountsAre(runPlan, Run(start, t.visits, input, ign))
        && runPlan.IsSnapshotOf(snap)
        && err == (if t.err.Some? then Some(WalkFailed + t.err.value) else None)
    {
      if rc.None? {
        return StatsPlan.EmptySnapshot, Some(NoRunContext);
      }
      var migrationErr := Prepare(rc.value, input, now, migrations);
      var plan := runPlan;
      ghost var start := TallyOf(plan, []);
      assert start == if old(runPlan) == null then NoTally else old(TallyOf(runPlan, []));
      label AfterMigrations:
      snap, err := WalkAndSnapshot(plan, input, ign, root);
      if rc.value.db != null {
        assert unchanged@AfterMigrations(rc.value.db);
        assert Migrated(rc.value.db, old(rc.value.db.userVersion), old(rc.value.db.applied), migrations, migrationErr);
      }
    }
  }
}
