/** The SBOM of a packed npm package, made from its lockfile's: what the rewrite
    does to the graph, and which manifests it then passes. */
module Sbom {
  import opened Options
  import opened Text

  datatype Package = Package(name: string, id: string, version: Option<string>)

  datatype Relationship = Relationship(element: string, related: string, kind: string)

  datatype Spdx = Spdx(packages: seq<Package>, relationships: seq<Relationship>)

  /** A dependency as a manifest declares it, with its range. */
  datatype Dependency = Dependency(name: string, wanted: string)

  /** The packed package.json: two tables of dependencies, each name once in either,
      the optional ones in name order. */
  datatype Manifest = Manifest(name: string, version: string, dependencies: seq<Dependency>,
                               optional: seq<Dependency>)

  /** The lockfile's root package, as far as it names one. */
  datatype LockRoot = LockRoot(name: Option<string>, version: Option<string>)

  const SCOPE := "@openmbee/"
  const DOCUMENT := "SPDXRef-DOCUMENT"
  const ROOT_PREFIX := "SPDXRef-DocumentRoot"
  const PACKAGE_PREFIX := "SPDXRef-Package-"

  predicate Safe(c: char) {
    'A' <= c <= 'Z' || 'a' <= c <= 'z' || '0' <= c <= '9' || c == '.' || c == '-'
  }

  function Sanitized(s: string): string {
    if s == [] then "" else [if Safe(s[0]) then s[0] else '-'] + Sanitized(s[1..])
  }

  function SpdxId(kind: string, name: string): string {
    PACKAGE_PREFIX + Sanitized(kind + "-" + name)
  }

  /** Not the asset itself. */
  predicate Component(p: Package) {
    !StartsWith(p.id, ROOT_PREFIX)
  }

  // ---------- describe_npm ----------

  function NpmPackage(m: Manifest): Package {
    Package(m.name, SpdxId("npm", m.name + "@" + m.version), Some(m.version))
  }

  function DeclaredPackage(d: Dependency): Package {
    Package(d.name, SpdxId("npm-declared", d.name + "@" + d.wanted), Some(d.wanted))
  }

  /** The lockfile's own root, listed as a component. */
  predicate Replaced(p: Package, root: LockRoot) {
    Component(p) && Some(p.name) == root.name && p.version == root.version
  }

  function ReplacedIds(packages: seq<Package>, root: LockRoot): set<string> {
    set p | p in packages && Replaced(p, root) :: p.id
  }

  /** The first n packages, those of a replaced id left out. */
  function Kept(packages: seq<Package>, ids: set<string>, n: nat): seq<Package>
    requires n <= |packages|
  {
    if n == 0 then []
    else Kept(packages, ids, n - 1) + if packages[n - 1].id in ids then [] else [packages[n - 1]]
  }

  function Redirected(id: string, ids: set<string>, to: string): string {
    if id in ids then to else id
  }

  function Redirect(r: Relationship, ids: set<string>, to: string): Relationship {
    Relationship(Redirected(r.element, ids, to), Redirected(r.related, ids, to), r.kind)
  }

  function RedirectAll(relationships: seq<Relationship>, ids: set<string>, to: string): (s: seq<Relationship>)
    ensures |s| == |relationships|
  {
    seq(|relationships|, i requires 0 <= i < |relationships| => Redirect(relationships[i], ids, to))
  }

  /** root_id: what the document says it describes, first of all. */
  function RootId(relationships: seq<Relationship>): Option<string> {
    if relationships == [] then None
    else if relationships[0].kind == "DESCRIBES" && relationships[0].element == DOCUMENT then
      Some(relationships[0].related)
    else RootId(relationships[1..])
  }

  /** release_platform_packages */
  predicate Platform(d: Dependency, m: Manifest) {
    d in m.optional && StartsWith(d.name, SCOPE) && d.wanted == m.version
  }

  predicate Named(packages: seq<Package>, name: string) {
    exists p | p in packages :: Component(p) && p.name == name
  }

  /** Which of the first n optional dependencies the lockfile lacks and this release
      publishes beside the tarball. */
  function Undeclared(m: Manifest, packages: seq<Package>, n: nat): seq<Dependency>
    requires n <= |m.optional|
  {
    if n == 0 then []
    else
      var d := m.optional[n - 1];
      Undeclared(m, packages, n - 1) + if Platform(d, m) && !Named(packages, d.name) then [d] else []
  }

  function DeclareAll(doc: Spdx, added: seq<Dependency>, to: string): Spdx {
    if added == [] then doc
    else
      var before := DeclareAll(doc, added[..|added| - 1], to);
      var p := DeclaredPackage(added[|added| - 1]);
      Spdx(before.packages + [p], before.relationships + [Relationship(p.id, to, "DEPENDENCY_OF")])
  }

  /** The lockfile's root taken out and its relationships redirected. */
  function Rehung(doc: Spdx, m: Manifest, root: LockRoot): Spdx {
    var p := NpmPackage(m);
    var ids := ReplacedIds(doc.packages, root);
    Spdx(Kept(doc.packages, ids, |doc.packages|) + [p], RedirectAll(doc.relationships, ids, p.id))
  }

  function Described(doc: Spdx, m: Manifest, root: LockRoot): Option<Spdx> {
    var p, hung := NpmPackage(m), Rehung(doc, m, root);
    match RootId(hung.relationships)
    case None => None
    case Some(asset) =>
      var contained := Spdx(hung.packages, hung.relationships + [Relationship(asset, p.id, "CONTAINS")]);
      Some(DeclareAll(contained, Undeclared(m, hung.packages, |m.optional|), p.id))
  }

  /** The document, which describe_npm rewrites in place. */
  class Document {
    var packages: seq<Package>
    var relationships: seq<Relationship>

    function Value(): Spdx
      reads this
    {
      Spdx(packages, relationships)
    }

    constructor (doc: Spdx)
      ensures Value() == doc
    {
      packages, relationships := doc.packages, doc.relationships;
    }

    /** doc["packages"] without the replaced ones, the packed one after them. */
    method ReplacePackages(ids: set<string>, p: Package)
      modifies this
      ensures packages == Kept(old(packages), ids, |old(packages)|) + [p]
      ensures relationships == old(relationships)
    {
      var kept: seq<Package> := [];
      for i := 0 to |packages|
        invariant packages == old(packages) && relationships == old(relationships)
        invariant kept == Kept(packages, ids, i)
      {
        if packages[i].id !in ids {
          kept := kept + [packages[i]];
        }
      }
      packages := kept + [p];
    }

    /** Both ends of every relationship, in place. */
    method RedirectEnds(ids: set<string>, to: string)
      modifies this
      ensures relationships == RedirectAll(old(relationships), ids, to)
      ensures packages == old(packages)
    {
      for i := 0 to |relationships|
        invariant |relationships| == |old(relationships)| && packages == old(packages)
        invariant forall k | 0 <= k < i :: relationships[k] == Redirect(old(relationships)[k], ids, to)
        invariant forall k | i <= k < |relationships| :: relationships[k] == old(relationships)[k]
      {
        var r := relationships[i];
        if r.element in ids {
          r := r.(element := to);
        }
        if r.related in ids {
          r := r.(related := to);
        }
        relationships := relationships[i := r];
      }
    }

    /** describe_npm; a document that describes nothing is refused only after its
        root has been replaced. */
    method DescribeNpm(m: Manifest, root: LockRoot) returns (ok: bool)
      modifies this
      ensures ok <==> Described(old(Value()), m, root).Some?
      ensures Value() == if ok then Described(old(Value()), m, root).value else Rehung(old(Value()), m, root)
    {
      var p := NpmPackage(m);
      var ids := ReplacedIds(packages, root);
      ReplacePackages(ids, p);
      RedirectEnds(ids, p.id);
      assert Value() == Rehung(old(Value()), m, root);
      var asset := RootId(relationships);
      if asset.None? {
        return false;
      }
      relationships := relationships + [Relationship(asset.value, p.id, "CONTAINS")];
      ghost var contained := Value();
      ghost var added: seq<Dependency> := [];
      var resolved := packages;
      for i := 0 to |m.optional|
        invariant added == Undeclared(m, resolved, i)
        invariant Value() == DeclareAll(contained, added, p.id)
      {
        var d := m.optional[i];
        if Platform(d, m) && !Named(resolved, d.name) {
          assert (added + [d])[..|added|] == added;
          var declared := DeclaredPackage(d);
          packages := packages + [declared];
          relationships := relationships + [Relationship(declared.id, p.id, "DEPENDENCY_OF")];
          added := added + [d];
        }
      }
      return true;
    }
  }

  // ---------- the graph stays closed ----------

  function Ids(packages: seq<Package>): set<string> {
    set p | p in packages :: p.id
  }

  /** Every relationship is between things the document has: itself, its packages,
      and what else it lists. */
  predicate Closed(doc: Spdx, others: set<string>) {
    forall r | r in doc.relationships ::
      r.element in Ids(doc.packages) + others && r.related in Ids(doc.packages) + others
  }

  lemma {:induction false} KeptIs(packages: seq<Package>, ids: set<string>, n: nat)
    requires n <= |packages|
    ensures forall p :: p in Kept(packages, ids, n) <==> p in packages[..n] && p.id !in ids
  {
    if n > 0 {
      KeptIs(packages, ids, n - 1);
      assert packages[..n] == packages[..n - 1] + [packages[n - 1]];
    }
  }

  lemma {:induction false} RehungIsClosed(doc: Spdx, m: Manifest, root: LockRoot, others: set<string>)
    requires Closed(doc, others)
    ensures Closed(Rehung(doc, m, root), others)
  {
    var hung, ids, p := Rehung(doc, m, root), ReplacedIds(doc.packages, root), NpmPackage(m);
    KeptIs(doc.packages, ids, |doc.packages|);
    assert doc.packages[..|doc.packages|] == doc.packages;
    assert p in hung.packages;
    forall id | id in Ids(doc.packages) + others
      ensures Redirected(id, ids, p.id) in Ids(hung.packages) + others
    {
      if id in Ids(doc.packages) && id !in ids {
        var q :| q in doc.packages && q.id == id;
        assert q in hung.packages;
      }
    }
    forall r | r in hung.relationships
      ensures r.element in Ids(hung.packages) + others && r.related in Ids(hung.packages) + others
    {
      var i :| 0 <= i < |hung.relationships| && hung.relationships[i] == r;
      assert doc.relationships[i] in doc.relationships;
    }
  }

  lemma {:induction false} RootIsRelated(relationships: seq<Relationship>)
    requires RootId(relationships).Some?
    ensures exists r | r in relationships :: r.related == RootId(relationships).value
  {
    if relationships[0].kind == "DESCRIBES" && relationships[0].element == DOCUMENT {
      assert relationships[0] in relationships;
    } else {
      RootIsRelated(relationships[1..]);
    }
  }

  lemma {:induction false} OneMoreRelationship(doc: Spdx, p: seq<Package>, r: Relationship, others: set<string>)
    requires Closed(doc, others)
    requires r.element in Ids(doc.packages + p) + others && r.related in Ids(doc.packages + p) + others
    ensures Closed(Spdx(doc.packages + p, doc.relationships + [r]), others)
  {
    assert forall q | q in doc.packages :: q in doc.packages + p;
  }

  lemma {:induction false} DeclaredIsClosed(doc: Spdx, added: seq<Dependency>, to: string, others: set<string>)
    requires Closed(doc, others) && to in Ids(doc.packages)
    ensures Closed(DeclareAll(doc, added, to), others) && to in Ids(DeclareAll(doc, added, to).packages)
  {
    if added != [] {
      var before := DeclareAll(doc, added[..|added| - 1], to);
      var p := DeclaredPackage(added[|added| - 1]);
      DeclaredIsClosed(doc, added[..|added| - 1], to, others);
      var q :| q in before.packages && q.id == to;
      assert q in before.packages + [p] && p in before.packages + [p];
      OneMoreRelationship(before, [p], Relationship(p.id, to, "DEPENDENCY_OF"), others);
    }
  }

  /** A closed graph stays closed. */
  lemma {:induction false} DescribingKeepsClosed(doc: Spdx, m: Manifest, root: LockRoot, others: set<string>)
    requires Closed(doc, others) && Described(doc, m, root).Some?
    ensures Closed(Described(doc, m, root).value, others)
  {
    var p, hung := NpmPackage(m), Rehung(doc, m, root);
    var asset := RootId(hung.relationships).value;
    RehungIsClosed(doc, m, root, others);
    RootIsRelated(hung.relationships);
    assert p in hung.packages && hung.packages + [] == hung.packages;
    OneMoreRelationship(hung, [], Relationship(asset, p.id, "CONTAINS"), others);
    var contained := Spdx(hung.packages, hung.relationships + [Relationship(asset, p.id, "CONTAINS")]);
    DeclaredIsClosed(contained, Undeclared(m, hung.packages, |m.optional|), p.id, others);
  }

  function Ends(relationships: seq<Relationship>): set<string> {
    (set r | r in relationships :: r.element) + (set r | r in relationships :: r.related)
  }

  /** Closed or not, no relationship afterwards refers to a package that is gone. */
  lemma {:induction false} NothingRefersToTheRemoved(doc: Spdx, m: Manifest, root: LockRoot)
    requires Described(doc, m, root).Some?
    ensures var after := Described(doc, m, root).value;
            forall id | id in Ends(after.relationships) && id in ReplacedIds(doc.packages, root) ::
              id in Ids(after.packages)
  {
    var ids := ReplacedIds(doc.packages, root);
    var others := Ends(doc.relationships) - ids;
    forall id | id in ids ensures id in Ids(doc.packages) {
    }
    assert Closed(doc, others);
    DescribingKeepsClosed(doc, m, root, others);
  }

  // ---------- what the described document holds ----------

  lemma {:induction false} DocumentIsNoPackage(kind: string, name: string)
    ensures SpdxId(kind, name) != DOCUMENT
  {
    assert SpdxId(kind, name)[8] == PACKAGE_PREFIX[8] == 'P' && DOCUMENT[8] == 'D';
  }

  lemma {:induction false} RootRedirected(relationships: seq<Relationship>, ids: set<string>, to: string)
    requires DOCUMENT !in ids && to != DOCUMENT
    ensures RootId(RedirectAll(relationships, ids, to)) ==
            match RootId(relationships) case None => None case Some(asset) => Some(Redirected(asset, ids, to))
  {
    if relationships != [] {
      var all := RedirectAll(relationships, ids, to);
      assert all[1..] == RedirectAll(relationships[1..], ids, to);
      assert all[0] == Redirect(relationships[0], ids, to);
      RootRedirected(relationships[1..], ids, to);
    }
  }

  lemma {:induction false} NoRootLeft(relationships: seq<Relationship>, ids: set<string>, to: string)
    requires DOCUMENT in ids && to != DOCUMENT
    ensures RootId(RedirectAll(relationships, ids, to)).None?
  {
    if relationships != [] {
      var all := RedirectAll(relationships, ids, to);
      assert all[1..] == RedirectAll(relationships[1..], ids, to);
      assert all[0] == Redirect(relationships[0], ids, to);
      NoRootLeft(relationships[1..], ids, to);
    }
  }

  /** A document is refused exactly when it describes nothing to begin with, or
      when the package replaced in it takes the document's own identifier. */
  lemma {:induction false} RefusedWhenItDescribesNothing(doc: Spdx, m: Manifest, root: LockRoot)
    ensures Described(doc, m, root).None? <==>
            RootId(doc.relationships).None? || DOCUMENT in ReplacedIds(doc.packages, root)
  {
    var ids := ReplacedIds(doc.packages, root);
    DocumentIsNoPackage("npm", m.name + "@" + m.version);
    if DOCUMENT in ids {
      NoRootLeft(doc.relationships, ids, NpmPackage(m).id);
    } else {
      RootRedirected(doc.relationships, ids, NpmPackage(m).id);
    }
  }

  lemma {:induction false} DeclaredContents(doc: Spdx, added: seq<Dependency>, to: string)
    ensures var all := DeclareAll(doc, added, to);
            |all.packages| == |doc.packages| + |added| && all.packages[..|doc.packages|] == doc.packages &&
            |all.relationships| == |doc.relationships| + |added| &&
            all.relationships[..|doc.relationships|] == doc.relationships &&
            forall k | 0 <= k < |added| ::
              all.packages[|doc.packages| + k] == DeclaredPackage(added[k]) &&
              all.relationships[|doc.relationships| + k] ==
              Relationship(DeclaredPackage(added[k]).id, to, "DEPENDENCY_OF")
  {
    if added != [] {
      DeclaredContents(doc, added[..|added| - 1], to);
    }
  }

  /** What hung off the lockfile's root hangs off the packed package: old
      relationships keep their places and kinds, and only ends at a replaced
      package move, to the packed one.  After them the asset contains the package,
      and what is declared beside it is its dependency. */
  lemma {:induction false} DependenciesHangOffThePackage(doc: Spdx, m: Manifest, root: LockRoot)
    requires Described(doc, m, root).Some?
    ensures RootId(doc.relationships).Some?
    ensures var after, n := Described(doc, m, root).value.relationships, |doc.relationships|;
            var ids, p := ReplacedIds(doc.packages, root), NpmPackage(m).id;
            n < |after| && after[n].related == p && after[n].kind == "CONTAINS" &&
            (RootId(doc.relationships).value !in ids ==> after[n].element == RootId(doc.relationships).value) &&
            (forall k | n < k < |after| :: after[k].related == p && after[k].kind == "DEPENDENCY_OF") &&
            forall k | 0 <= k < n ::
              after[k].kind == doc.relationships[k].kind &&
              after[k].element == (if doc.relationships[k].element in ids then p else doc.relationships[k].element) &&
              after[k].related == (if doc.relationships[k].related in ids then p else doc.relationships[k].related)
  {
    RefusedWhenItDescribesNothing(doc, m, root);
    var hung, ids, p := Rehung(doc, m, root), ReplacedIds(doc.packages, root), NpmPackage(m);
    DocumentIsNoPackage("npm", m.name + "@" + m.version);
    RootRedirected(doc.relationships, ids, p.id);
    var asset := RootId(hung.relationships).value;
    var contained := Spdx(hung.packages, hung.relationships + [Relationship(asset, p.id, "CONTAINS")]);
    DescribedContents(contained, Undeclared(m, hung.packages, |m.optional|), p.id, |doc.relationships|);
  }

  lemma {:induction false} DescribedContents(contained: Spdx, added: seq<Dependency>, to: string, n: nat)
    requires |contained.relationships| == n + 1
    ensures var after := DeclareAll(contained, added, to).relationships;
            |after| > n && (forall k | 0 <= k <= n :: after[k] == contained.relationships[k]) &&
            forall k | n < k < |after| :: after[k].related == to && after[k].kind == "DEPENDENCY_OF"
  {
    DeclaredContents(contained, added, to);
    var after := DeclareAll(contained, added, to).relationships;
    forall k | 0 <= k <= n ensures after[k] == contained.relationships[k] {
      assert after[k] == after[..n + 1][k];
    }
    forall k | n < k < |after| ensures after[k].related == to && after[k].kind == "DEPENDENCY_OF" {
      var j := k - |contained.relationships|;
      assert k == |contained.relationships| + j && 0 <= j < |added|;
      assert after[|contained.relationships| + j] ==
             Relationship(DeclaredPackage(added[j]).id, to, "DEPENDENCY_OF");
    }
  }

  // ---------- what check_npm passes ----------

  /** npm_dependencies: optional ones replace plain ones. */
  predicate Declares(m: Manifest, d: Dependency) {
    d in m.optional || (d in m.dependencies && forall o | o in m.optional :: o.name != d.name)
  }

  predicate NamesOnce(s: seq<Dependency>) {
    forall i, j | 0 <= i < j < |s| :: s[i].name != s[j].name
  }

  /** The entry stands in the table. */
  predicate Holds(deps: map<string, string>, d: Dependency) {
    d.name in deps && deps[d.name] == d.wanted
  }

  /** dict.update: later entries replace earlier ones of their name. */
  method Update(deps: map<string, string>, more: seq<Dependency>) returns (r: map<string, string>)
    requires NamesOnce(more)
    ensures forall d :: Holds(r, d) <==> d in more || (Holds(deps, d) && forall o | o in more :: o.name != d.name)
  {
    r := deps;
    for i := 0 to |more|
      invariant forall d :: Holds(r, d) <==>
                            d in more[..i] || (Holds(deps, d) && forall o | o in more[..i] :: o.name != d.name)
    {
      var o := more[i];
      assert more[..i + 1] == more[..i] + [o];
      assert forall p | p in more[..i] :: p.name != o.name;
      r := r[o.name := o.wanted];
    }
    assert more[..|more|] == more;
  }

  method NpmDependencies(m: Manifest) returns (deps: map<string, string>)
    requires NamesOnce(m.dependencies) && NamesOnce(m.optional)
    ensures forall d :: Holds(deps, d) <==> Declares(m, d)
  {
    deps := Update(map[], m.dependencies);
    deps := Update(deps, m.optional);
  }

  function Versions(packages: seq<Package>, name: string): set<Option<string>> {
    set p | p in packages && Component(p) && p.name == name :: p.version
  }

  /** A dependency the SBOM has, at its version if it is pinned. */
  predicate Met(packages: seq<Package>, d: Dependency, exact: string -> bool) {
    Versions(packages, d.name) != {} && (exact(d.wanted) ==> Some(d.wanted) in Versions(packages, d.name))
  }

  /** check_npm's first loop: the versions each component is there at. */
  method CollectVersions(packages: seq<Package>) returns (versions: map<string, set<Option<string>>>)
    ensures forall name :: (if name in versions then versions[name] else {}) == Versions(packages, name)
  {
    versions := map[];
    for i := 0 to |packages|
      invariant forall name :: (if name in versions then versions[name] else {}) == Versions(packages[..i], name)
    {
      var p := packages[i];
      OneMoreVersion(packages[..i], p);
      assert packages[..i + 1] == packages[..i] + [p];
      if Component(p) {
        versions := versions[p.name := (if p.name in versions then versions[p.name] else {}) + {p.version}];
      }
    }
    assert packages[..|packages|] == packages;
  }

  /** check_npm: some dependency that is not met, if any is not. */
  method CheckNpm(doc: Spdx, m: Manifest, exact: string -> bool) returns (refused: Option<Dependency>)
    requires NamesOnce(m.dependencies) && NamesOnce(m.optional)
    ensures refused.None? <==> forall d | Declares(m, d) :: Met(doc.packages, d, exact)
    ensures refused.Some? ==> Declares(m, refused.value) && !Met(doc.packages, refused.value, exact)
  {
    var versions := CollectVersions(doc.packages);
    var deps := NpmDependencies(m);
    var todo := deps.Keys;
    while todo != {}
      invariant todo <= deps.Keys
      invariant forall d | Holds(deps, d) && d.name !in todo :: Met(doc.packages, d, exact)
      decreases |todo|
    {
      var name :| name in todo;
      var d := Dependency(name, deps[name]);
      assert Holds(deps, d);
      var found := if name in versions then versions[name] else {};
      assert found == Versions(doc.packages, name);
      if found == {} || (exact(d.wanted) && Some(d.wanted) !in found) {
        assert !Met(doc.packages, d, exact);
        return Some(d);
      }
      todo := todo - {name};
    }
    return None;
  }

  lemma {:induction false} OneMoreVersion(packages: seq<Package>, p: Package)
    ensures forall name :: Versions(packages + [p], name) ==
                           Versions(packages, name) + if Component(p) && p.name == name then {p.version} else {}
  {
    forall name
      ensures Versions(packages + [p], name) ==
              Versions(packages, name) + if Component(p) && p.name == name then {p.version} else {}
    {
      VersionsJoin(packages, [p], name);
    }
  }

  lemma {:induction false} VersionsJoin(a: seq<Package>, b: seq<Package>, name: string)
    ensures Versions(a + b, name) == Versions(a, name) + Versions(b, name)
  {
    forall v ensures v in Versions(a + b, name) <==> v in Versions(a, name) + Versions(b, name) {
      if v in Versions(a, name) {
        var p :| p in a && Component(p) && p.name == name && p.version == v;
        assert p in a + b;
      }
      if v in Versions(b, name) {
        var p :| p in b && Component(p) && p.name == name && p.version == v;
        assert p in a + b;
      }
    }
  }

  lemma {:induction false} PackageIdsAreComponents(kind: string, name: string)
    ensures !StartsWith(SpdxId(kind, name), ROOT_PREFIX)
  {
    assert PACKAGE_PREFIX[8] == 'P' && ROOT_PREFIX[8] == 'D';
    assert SpdxId(kind, name)[8] == 'P';
  }

  lemma {:induction false} UndeclaredIs(m: Manifest, packages: seq<Package>, n: nat)
    requires n <= |m.optional|
    ensures forall d :: d in Undeclared(m, packages, n) <==>
                        d in m.optional[..n] && Platform(d, m) && !Named(packages, d.name)
  {
    if n > 0 {
      UndeclaredIs(m, packages, n - 1);
      assert m.optional[..n] == m.optional[..n - 1] + [m.optional[n - 1]];
    }
  }

  function WantedOf(added: seq<Dependency>, name: string): set<Option<string>> {
    set d | d in added && d.name == name :: Some(d.wanted)
  }

  lemma {:induction false} OneMoreWanted(added: seq<Dependency>, d: Dependency, name: string)
    ensures WantedOf(added + [d], name) == WantedOf(added, name) + if d.name == name then {Some(d.wanted)} else {}
  {
    assert d in added + [d];
    forall e | e in added ensures e in added + [d] {
    }
  }

  lemma {:induction false} DeclaredVersion(d: Dependency, name: string)
    ensures Versions([DeclaredPackage(d)], name) == if d.name == name then {Some(d.wanted)} else {}
  {
    PackageIdsAreComponents("npm-declared", d.name + "@" + d.wanted);
    assert DeclaredPackage(d) in [DeclaredPackage(d)];
  }

  /** Declaring adds each dependency's own version under its name, nothing else. */
  lemma {:induction false} DeclaredVersions(doc: Spdx, added: seq<Dependency>, to: string, name: string)
    ensures Versions(DeclareAll(doc, added, to).packages, name) ==
            Versions(doc.packages, name) + WantedOf(added, name)
  {
    if added != [] {
      var before, d := added[..|added| - 1], added[|added| - 1];
      DeclaredVersions(doc, before, to, name);
      DeclaredVersion(d, name);
      VersionsJoin(DeclareAll(doc, before, to).packages, [DeclaredPackage(d)], name);
      OneMoreWanted(before, d, name);
      assert added == before + [d];
    }
  }

  lemma {:induction false} NamedHasVersions(packages: seq<Package>, name: string)
    ensures Named(packages, name) <==> Versions(packages, name) != {}
  {
    if Named(packages, name) {
      var p :| p in packages && Component(p) && p.name == name;
      assert p.version in Versions(packages, name);
    }
  }

  /** A described SBOM passes exactly when every dependency the manifest declares is
      in the lockfile, at its version if it is pinned to one, or is a platform
      package of this release that the lockfile lacks.  In the lockfile means
      among its packages once its root is replaced by the packed package. */
  lemma {:induction false} PassesExactlyWhenLocked(doc: Spdx, m: Manifest, root: LockRoot, d: Dependency,
                                                   exact: string -> bool)
    requires Described(doc, m, root).Some? && NamesOnce(m.optional) && Declares(m, d)
    ensures var locked := Rehung(doc, m, root).packages;
            Met(Described(doc, m, root).value.packages, d, exact) <==>
            Met(locked, d, exact) || (Platform(d, m) && !Named(locked, d.name))
  {
    var p, hung := NpmPackage(m), Rehung(doc, m, root);
    var asset := RootId(hung.relationships).value;
    var contained := Spdx(hung.packages, hung.relationships + [Relationship(asset, p.id, "CONTAINS")]);
    var added := Undeclared(m, hung.packages, |m.optional|);
    DeclaredVersions(contained, added, p.id, d.name);
    UndeclaredIs(m, hung.packages, |m.optional|);
    assert m.optional[..|m.optional|] == m.optional;
    NamedHasVersions(hung.packages, d.name);
    var own := WantedOf(added, d.name);
    if o :| o in added && o.name == d.name {
      OptionalWins(m, d, o);
      assert own == {Some(d.wanted)};
    } else {
      assert own == {};
    }
  }

  /** Under one name a manifest declares one range, the optional one if there is one. */
  lemma {:induction false} OptionalWins(m: Manifest, d: Dependency, o: Dependency)
    requires NamesOnce(m.optional) && Declares(m, d) && o in m.optional && o.name == d.name
    ensures o == d
  {
    var i :| 0 <= i < |m.optional| && m.optional[i] == o;
    if d in m.optional {
      var j :| 0 <= j < |m.optional| && m.optional[j] == d;
      assert i == j;
    }
  }
}
