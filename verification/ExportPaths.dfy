/** The paths an API reference exports its objects under: a depth-first walk of
    a graph of objects whose members may lead back to any of them. */
module ExportPaths {
  import opened Options

  type Node = nat
  type Path = seq<string>

  /** A member as listed: its name, and the object it resolves to; None for an
      alias that does not resolve. */
  datatype Member = Member(name: string, target: Option<Node>)

  /** Canonical paths are kept only when they start with the package's prefix. */
  datatype Object = Object(documented: bool, canonical: Option<string>, members: seq<Member>)

  /** The exports are looked up in the package by name, the path's first part. */
  datatype Graph = Graph(objects: map<Node, Object>, exports: seq<Member>)

  predicate DistinctNames(members: seq<Member>) {
    forall i, j | 0 <= i < j < |members| :: members[i].name != members[j].name
  }

  predicate Resolves(g: Graph, members: seq<Member>) {
    forall i | 0 <= i < |members| && members[i].target.Some? :: members[i].target.value in g.objects
  }

  /** A dictionary lists a name once, and what resolves is an object; one export
      name always looks up the same found. */
  predicate WellFormed(g: Graph) {
    (forall n | n in g.objects :: DistinctNames(g.objects[n].members) && Resolves(g, g.objects[n].members)) &&
    Resolves(g, g.exports) &&
    forall i, j | 0 <= i < j < |g.exports| && g.exports[i].name == g.exports[j].name :: g.exports[i] == g.exports[j]
  }

  const PACKAGE_PREFIX := "opensysml."

  predicate Private(name: string) {
    "_" <= name
  }

  /** _anchorable_member: below the top level no part may be private and the
      object must be documented. */
  predicate Anchorable(g: Graph, n: Node, path: Path)
    requires n in g.objects
  {
    |path| > 1 ==> (forall i | 1 <= i < |path| :: !Private(path[i])) && g.objects[n].documented
  }

  // ---------- walks ----------

  function Find(members: seq<Member>, name: string): Option<Node> {
    if members == [] then None
    else if members[0].name == name then members[0].target
    else Find(members[1..], name)
  }

  /** The object a path walks to by members every one of which is anchorable. */
  function At(g: Graph, path: Path): (r: Option<Node>)
    requires WellFormed(g)
    ensures r.Some? ==> r.value in g.objects && Anchorable(g, r.value, path) && path != []
  {
    if path == [] then None
    else
      var last := path[|path| - 1];
      var found := if |path| == 1 then FoundIn(g, g.exports, last) else
                     var parent := At(g, path[..|path| - 1]);
                     if parent.None? then None else FoundIn(g, g.objects[parent.value].members, last);
      if found.Some? && Anchorable(g, found.value, path) then found else None
  }

  function FoundIn(g: Graph, members: seq<Member>, name: string): (r: Option<Node>)
    requires Resolves(g, members)
    ensures r.Some? ==> r.value in g.objects
  {
    var r := Find(members, name);
    FindResolves(g, members, name);
    r
  }

  lemma {:induction false} FindResolves(g: Graph, members: seq<Member>, name: string)
    requires Resolves(g, members)
    ensures Find(members, name).Some? ==> Find(members, name).value in g.objects
  {
    if members != [] && members[0].name != name {
      assert Resolves(g, members[1..]);
      FindResolves(g, members[1..], name);
    }
  }

  lemma {:induction false} FindMember(members: seq<Member>, i: nat)
    requires i < |members|
    requires forall j | 0 <= j < i :: members[j].name != members[i].name
    ensures Find(members, members[i].name) == members[i].target
  {
    if i > 0 {
      FindMember(members[1..], i - 1);
    }
  }

  lemma {:induction false} FindIsSome(members: seq<Member>, name: string) returns (i: nat)
    requires Find(members, name).Some?
    ensures i < |members| && members[i].name == name && members[i].target == Find(members, name)
  {
    if members[0].name == name {
      i := 0;
    } else {
      i := FindIsSome(members[1..], name);
      i := i + 1;
    }
  }

  predicate Exported(g: Graph, n: Node)
    requires n in g.objects
  {
    g.objects[n].canonical.Some? && PACKAGE_PREFIX <= g.objects[n].canonical.value
  }

  /** The objects on the way to a path's end, the end apart. */
  ghost function Ancestors(g: Graph, path: Path): set<Node>
    requires WellFormed(g)
  {
    set i | 0 < i < |path| && At(g, path[..i]).Some? :: At(g, path[..i]).value
  }

  lemma {:induction false} AncestorsOfMember(g: Graph, path: Path, name: string)
    requires WellFormed(g) && At(g, path).Some?
    ensures Ancestors(g, path + [name]) == Ancestors(g, path) + {At(g, path).value}
  {
    var longer := path + [name];
    assert forall i | 0 <= i <= |path| :: longer[..i] == path[..i];
    assert path[..|path|] == path;
    forall n ensures n in Ancestors(g, longer) <==> n in Ancestors(g, path) + {At(g, path).value} {
      if n in Ancestors(g, longer) {
        var i :| 0 < i < |longer| && At(g, longer[..i]) == Some(n);
        assert At(g, path[..i]) == Some(n);
      }
      if n in Ancestors(g, path) {
        var i :| 0 < i < |path| && At(g, path[..i]) == Some(n);
        assert At(g, longer[..i]) == Some(n);
      }
      if n == At(g, path).value {
        assert At(g, longer[..|path|]) == Some(n);
      }
    }
  }

  /** The i-th listed member is where one more part of the path leads. */
  lemma {:induction false} AtMember(g: Graph, path: Path, i: nat)
    requires WellFormed(g) && At(g, path).Some?
    requires i < |g.objects[At(g, path).value].members|
    ensures var m := g.objects[At(g, path).value].members[i];
            At(g, path + [m.name]) ==
            if m.target.Some? && Anchorable(g, m.target.value, path + [m.name]) then m.target else None
  {
    var members := g.objects[At(g, path).value].members;
    FindMember(members, i);
    assert (path + [members[i].name])[..|path|] == path;
  }

  lemma {:induction false} AtExport(g: Graph, i: nat)
    requires WellFormed(g) && i < |g.exports|
    ensures At(g, [g.exports[i].name]) == g.exports[i].target
  {
    SameNameSameExport(g.exports, i);
  }

  lemma {:induction false} SameNameSameExport(exports: seq<Member>, i: nat)
    requires i < |exports|
    requires forall j, k | 0 <= j < k < |exports| && exports[j].name == exports[k].name :: exports[j] == exports[k]
    ensures Find(exports, exports[i].name) == exports[i].target
  {
    if exports[0].name == exports[i].name {
      assert exports[0] == exports[i];
    } else {
      assert forall j, k | 0 <= j < k < |exports[1..]| && exports[1..][j].name == exports[1..][k].name ::
          exports[1..][j] == exports[1..][k];
      SameNameSameExport(exports[1..], i - 1);
    }
  }

  // ---------- the walk ----------

  type Visits = set<(Node, Path)>
  type Paths = map<string, Path>

  /** Every anchorable member of the object has been visited at its path. */
  ghost predicate Expanded(g: Graph, visited: Visits, n: Node, path: Path)
    requires n in g.objects
  {
    ExpandedUpTo(g, visited, n, path, |g.objects[n].members|)
  }

  ghost predicate ExpandedUpTo(g: Graph, visited: Visits, n: Node, path: Path, k: nat)
    requires n in g.objects && k <= |g.objects[n].members|
  {
    forall i | 0 <= i < k :: Seen(g, visited, path, g.objects[n].members[i])
  }

  ghost predicate Seen(g: Graph, visited: Visits, path: Path, m: Member) {
    m.target.Some? && m.target.value in g.objects && Anchorable(g, m.target.value, path + [m.name]) ==>
      (m.target.value, path + [m.name]) in visited
  }

  /** Every recorded path walks to an object of that canonical path. */
  ghost predicate Sound(g: Graph, paths: Paths)
    requires WellFormed(g)
  {
    forall c | c in paths :: Names(g, paths[c], c)
  }

  ghost predicate Names(g: Graph, path: Path, c: string)
    requires WellFormed(g)
  {
    At(g, path).Some? && Exported(g, At(g, path).value) && g.objects[At(g, path).value].canonical == Some(c)
  }

  /** A visit is a walk, its object recorded, and gone on from unless it is under
      way or its path has come back to an object it passed before. */
  ghost predicate Settled(g: Graph, paths: Paths, visited: Visits, underWay: set<Path>, n: Node, p: Path)
    requires WellFormed(g)
  {
    At(g, p) == Some(n) &&
    (Exported(g, n) ==> g.objects[n].canonical.value in paths) &&
    (p in underWay || n in Ancestors(g, p) || Expanded(g, visited, n, p))
  }

  ghost predicate Closed(g: Graph, paths: Paths, visited: Visits, underWay: set<Path>)
    requires WellFormed(g)
  {
    forall n, p | (n, p) in visited :: Settled(g, paths, visited, underWay, n, p)
  }

  ghost predicate Extends(paths: Paths, visited: Visits, before: Paths, seen: Visits) {
    seen <= visited && forall c | c in before :: c in paths && paths[c] == before[c]
  }

  lemma {:induction false} StaysExpanded(g: Graph, visited: Visits, more: Visits, n: Node, p: Path, k: nat)
    requires n in g.objects && k <= |g.objects[n].members| && visited <= more
    requires ExpandedUpTo(g, visited, n, p, k)
    ensures ExpandedUpTo(g, more, n, p, k)
  {
    forall i | 0 <= i < k ensures Seen(g, more, p, g.objects[n].members[i]) {
      assert Seen(g, visited, p, g.objects[n].members[i]);
    }
  }

  /** Entering an object keeps the walk closed, its path now under way. */
  lemma {:induction false} Entered(g: Graph, paths: Paths, visited: Visits, underWay: set<Path>, n: Node, path: Path,
                                   recorded: Paths)
    requires WellFormed(g) && Closed(g, paths, visited, underWay) && At(g, path) == Some(n)
    requires forall c | c in paths :: c in recorded
    requires Exported(g, n) ==> g.objects[n].canonical.value in recorded
    ensures Closed(g, recorded, visited + {(n, path)}, underWay + {path})
  {
    var more := visited + {(n, path)};
    forall m, p | (m, p) in more ensures Settled(g, recorded, more, underWay + {path}, m, p) {
      if (m, p) in visited {
        assert Settled(g, paths, visited, underWay, m, p);
        if Expanded(g, visited, m, p) {
          StaysExpanded(g, visited, more, m, p, |g.objects[m].members|);
        }
      }
    }
  }

  /** Leaving it, once its members are visited or it was passed before. */
  lemma {:induction false} Left(g: Graph, paths: Paths, visited: Visits, underWay: set<Path>, n: Node, path: Path)
    requires WellFormed(g) && Closed(g, paths, visited, underWay + {path}) && At(g, path) == Some(n)
    requires n in Ancestors(g, path) || Expanded(g, visited, n, path)
    ensures Closed(g, paths, visited, underWay)
  {
    forall m, p | (m, p) in visited ensures Settled(g, paths, visited, underWay, m, p) {
      assert Settled(g, paths, visited, underWay + {path}, m, p);
    }
  }

  /** The closure of _exported_paths: what its nested visit reads and writes. */
  class Walk {
    const g: Graph
    var paths: Paths
    var visited: Visits
    var active: set<Node>

    constructor (g: Graph)
      ensures this.g == g && paths == map[] && visited == {} && active == {}
    {
      this.g := g;
      paths, visited, active := map[], {}, {};
    }

    method Visit(target: Option<Node>, path: Path)
      requires WellFormed(g) && path != []
      requires target.Some? ==> target.value in g.objects
      requires At(g, path) == if target.Some? && Anchorable(g, target.value, path) then target else None
      requires active == Ancestors(g, path)
      requires Sound(g, paths) && Closed(g, paths, visited, Prefixes(path))
      modifies this
      decreases g.objects.Keys - active, 1
      ensures active == old(active)
      ensures Sound(g, paths) && Closed(g, paths, visited, Prefixes(path))
      ensures Extends(paths, visited, old(paths), old(visited))
      ensures At(g, path).Some? ==> (At(g, path).value, path) in visited
    {
      if target.None? || !Anchorable(g, target.value, path) {
        return;
      }
      var identity := target.value;
      if (identity, path) in visited {
        return;
      }
      visited := visited + {(identity, path)};
      var canonical := g.objects[identity].canonical;
      if canonical.Some? && PACKAGE_PREFIX <= canonical.value && canonical.value !in paths {
        assert Names(g, path, canonical.value);
        paths := paths[canonical.value := path];
      }
      Entered(g, old(paths), old(visited), Prefixes(path), identity, path, paths);
      if identity in active {
        Left(g, paths, visited, Prefixes(path), identity, path);
        return;
      }
      active := active + {identity};
      VisitMembers(identity, path);
      active := active - {identity};
      Left(g, paths, visited, Prefixes(path), identity, path);
    }

    method VisitMembers(identity: Node, path: Path)
      requires WellFormed(g) && At(g, path) == Some(identity)
      requires active == Ancestors(g, path) + {identity}
      requires Sound(g, paths) && Closed(g, paths, visited, Prefixes(path) + {path})
      modifies this
      decreases g.objects.Keys - active, 2
      ensures active == old(active)
      ensures Sound(g, paths) && Closed(g, paths, visited, Prefixes(path) + {path})
      ensures Extends(paths, visited, old(paths), old(visited))
      ensures Expanded(g, visited, identity, path)
    {
      var members := g.objects[identity].members;
      for i := 0 to |members|
        invariant active == old(active)
        invariant Sound(g, paths) && Closed(g, paths, visited, Prefixes(path) + {path})
        invariant Extends(paths, visited, old(paths), old(visited))
        invariant ExpandedUpTo(g, visited, identity, path, i)
      {
        var member := members[i];
        ghost var seen := visited;
        AncestorsOfMember(g, path, member.name);
        AtMember(g, path, i);
        PrefixesOfMember(path, member.name);
        Visit(member.target, path + [member.name]);
        StaysExpanded(g, seen, visited, identity, path, i);
        assert Seen(g, visited, path, member);
      }
    }

    /** _exported_paths: every export visited from the top. */
    method VisitExports()
      requires WellFormed(g) && paths == map[] && visited == {} && active == {}
      modifies this
      ensures active == {}
      ensures Sound(g, paths) && Closed(g, paths, visited, {})
      ensures forall i | 0 <= i < |g.exports| && g.exports[i].target.Some? ::
                (g.exports[i].target.value, [g.exports[i].name]) in visited
    {
      for k := 0 to |g.exports|
        invariant active == {}
        invariant Sound(g, paths) && Closed(g, paths, visited, {})
        invariant forall i | 0 <= i < k && g.exports[i].target.Some? ::
                    (g.exports[i].target.value, [g.exports[i].name]) in visited
      {
        var name := g.exports[k].name;
        AtExport(g, k);
        assert Ancestors(g, [name]) == {} && Prefixes([name]) == {};
        Visit(g.exports[k].target, [name]);
      }
    }
  }

  /** The parts of a path that lead to it. */
  ghost function Prefixes(path: Path): set<Path> {
    set i | 0 < i < |path| :: path[..i]
  }

  lemma {:induction false} PrefixesOfMember(path: Path, name: string)
    requires path != []
    ensures Prefixes(path + [name]) == Prefixes(path) + {path}
  {
    var longer := path + [name];
    assert forall i | 0 <= i <= |path| :: longer[..i] == path[..i];
    assert path[..|path|] == path;
    forall p ensures p in Prefixes(longer) <==> p in Prefixes(path) + {path} {
      if p in Prefixes(longer) {
        var i :| 0 < i < |longer| && longer[..i] == p;
        assert path[..i] == p;
      }
      if p in Prefixes(path) {
        var i :| 0 < i < |path| && path[..i] == p;
        assert longer[..i] == p;
      }
      if p == path {
        assert longer[..|path|] == p;
      }
    }
  }

  // ---------- completeness ----------

  /** The same member of the same object, by another way with no new private part. */
  lemma {:induction false} SameStep(g: Graph, long: Path, short: Path, name: string)
    requires WellFormed(g) && long != [] && short != []
    requires At(g, long).Some? && At(g, long) == At(g, short) && At(g, long + [name]).Some?
    ensures At(g, short + [name]) == At(g, long + [name])
  {
    assert (long + [name])[..|long|] == long && (short + [name])[..|short|] == short;
    var target := At(g, long + [name]).value;
    assert Anchorable(g, target, long + [name]);
    assert !Private((long + [name])[|long|]) && g.objects[target].documented;
    assert Anchorable(g, At(g, short).value, short);
    assert forall x | 1 <= x < |short + [name]| :: !Private((short + [name])[x]);
  }

  lemma {:induction false} Extend(q: Path, i: nat, j: nat, k: nat)
    requires 0 < i < j < k <= |q|
    ensures q[..i] + q[j..k] == q[..i] + q[j..k - 1] + [q[k - 1]]
    ensures q[..k] == q[..k - 1] + [q[k - 1]] && q[..k][..k - 1] == q[..k - 1]
  {
  }

  /** Cutting a cycle out of a walk leaves a walk to the same object. */
  lemma {:induction false} Shortcut(g: Graph, q: Path, i: nat, j: nat, k: nat)
    requires WellFormed(g) && 0 < i < j <= k <= |q|
    requires At(g, q[..i]).Some? && At(g, q[..i]) == At(g, q[..j]) && At(g, q[..k]).Some?
    ensures At(g, q[..i] + q[j..k]) == At(g, q[..k])
  {
    if k == j {
      assert q[..i] + q[j..k] == q[..i];
    } else {
      var long, short, name := q[..k - 1], q[..i] + q[j..k - 1], q[k - 1];
      Extend(q, i, j, k);
      WalkPrefix(g, q[..k], k - 1);
      Shortcut(g, q, i, j, k - 1);
      SameStep(g, long, short, name);
    }
  }

  /** No object stands twice on the way, the end apart. */
  ghost predicate Simple(g: Graph, q: Path)
    requires WellFormed(g)
  {
    forall i, j | 0 < i < j < |q| :: At(g, q[..i]) != At(g, q[..j])
  }

  lemma {:induction false} WalkPrefix(g: Graph, q: Path, k: nat)
    requires WellFormed(g) && At(g, q).Some? && 0 < k <= |q|
    ensures At(g, q[..k]).Some?
  {
    if k < |q| {
      assert q[..|q| - 1][..k] == q[..k];
      WalkPrefix(g, q[..|q| - 1], k);
    } else {
      assert q[..k] == q;
    }
  }

  ghost predicate ExportsVisited(g: Graph, visited: Visits) {
    forall i | 0 <= i < |g.exports| && g.exports[i].target.Some? ::
      (g.exports[i].target.value, [g.exports[i].name]) in visited
  }

  /** A finished walk has visited every simple path. */
  lemma {:induction false} SimplePathsVisited(g: Graph, paths: Paths, visited: Visits, q: Path, k: nat)
    requires WellFormed(g) && Closed(g, paths, visited, {}) && ExportsVisited(g, visited)
    requires At(g, q).Some? && Simple(g, q) && 0 < k <= |q|
    ensures At(g, q[..k]).Some? && (At(g, q[..k]).value, q[..k]) in visited
  {
    WalkPrefix(g, q, k);
    if k == 1 {
      assert q[..1][0] == q[0];
      var i := FindIsSome(g.exports, q[0]);
      assert q[..1] == [g.exports[i].name];
    } else {
      SimplePathsVisited(g, paths, visited, q, k - 1);
      var before, name := q[..k - 1], q[k - 1];
      var n := At(g, before).value;
      assert q[..k][..k - 1] == before && q[..k] == before + [name];
      assert Settled(g, paths, visited, {}, n, before);
      assert n !in Ancestors(g, before) by {
        forall x | 0 < x < |before| ensures At(g, before[..x]) != Some(n) {
          assert before[..x] == q[..x];
        }
      }
      var i := FindIsSome(g.objects[n].members, name);
      assert Seen(g, visited, before, g.objects[n].members[i]);
    }
  }

  /** Every object a walk of any shape reaches is recorded: a walk that goes round
      a cycle has a shorter one, and one that does not is simple. */
  lemma {:induction false} ReachedIsRecorded(g: Graph, paths: Paths, visited: Visits, q: Path)
    requires WellFormed(g) && Closed(g, paths, visited, {}) && ExportsVisited(g, visited)
    requires At(g, q).Some? && Exported(g, At(g, q).value)
    ensures g.objects[At(g, q).value].canonical.value in paths
    decreases |q|
  {
    assert q[..|q|] == q;
    if Simple(g, q) {
      SimplePathsVisited(g, paths, visited, q, |q|);
      assert Settled(g, paths, visited, {}, At(g, q).value, q);
    } else {
      var i, j :| 0 < i < j < |q| && At(g, q[..i]) == At(g, q[..j]);
      WalkPrefix(g, q, i);
      Shortcut(g, q, i, j, |q|);
      ReachedIsRecorded(g, paths, visited, q[..i] + q[j..|q|]);
    }
  }

  /** The objects some walk reaches from an export, whatever cycles it takes. */
  ghost predicate Reachable(g: Graph, c: string)
    requires WellFormed(g)
  {
    exists q: Path :: Names(g, q, c)
  }

  /** On any graph, cycles and all, the map has exactly the canonical paths of the
      package's objects that are reachable from an export through anchorable
      members, each with a path that walks there. */
  method ExportedPaths(g: Graph) returns (paths: Paths)
    requires WellFormed(g)
    ensures forall c: string :: c in paths <==> Reachable(g, c)
    ensures forall c | c in paths :: Names(g, paths[c], c)
  {
    var walk := new Walk(g);
    walk.VisitExports();
    paths := walk.paths;
    ghost var visited := walk.visited;
    forall c: string | Reachable(g, c) ensures c in paths {
      var q: Path :| Names(g, q, c);
      ReachedIsRecorded(g, paths, visited, q);
    }
    forall c: string | c in paths ensures Reachable(g, c) {
      assert Names(g, paths[c], c);
    }
  }
}
