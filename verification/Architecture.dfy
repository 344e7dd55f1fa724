/**
 The workspace architecture checker: per-edge rules between layers, per-package rules for shared
 contracts, and the worklist that finds which products really use a shared package. What the
 rules are for is transitive, and that is what is proved here.
 */
module Architecture {

  datatype Role =
    | Agent | Api | Application | Cli | Composition | Core | Infrastructure | Protocol | Shared | Test | Unknown

  datatype Area = AgentArea | CliArea | ServerArea

  datatype Package = Package(
    name: string, role: Role, policyValid: bool, scaffold: bool, hasDependencies: bool, declared: set<Area>)

  datatype Edge = Edge(source: Package, target: Package)

  datatype Graph = Graph(packages: seq<Package>, edges: seq<Edge>)

  datatype Code = UnknownLayer | InvalidDirection | AdapterSelection | AgentServer | CompositionRoot | SharedOwnership

  datatype Violation = OfPackage(code: Code, package: Package) | OfEdge(code: Code, edge: Edge)

  const SERVER_ROLES: set<Role> := {Composition, Api, Application, Core, Protocol, Infrastructure, Test}
  const SUPPORT_PACKAGES: set<string> := {"octacity-server-adapter-host"}
  const COMPOSITION_ROOT: string := "octacity-server"

  function AllowedTargets(r: Role): set<Role> {
    match r
    case Agent => {Agent, Shared}
    case Api => {Application, Shared}
    case Application => {Core, Shared}
    case Cli => {Shared}
    case Composition => {Api, Application, Core, Protocol, Infrastructure, Shared}
    case Core => {Core, Shared}
    case Infrastructure => {Core, Protocol, Shared}
    case Protocol => {Protocol, Shared}
    case Shared => {Shared}
    case Test => {Agent, Api, Application, Cli, Composition, Core, Infrastructure, Protocol, Shared, Test}
    case Unknown => {}
  }

  /** The product area that a package of this role belongs to. */
  function AreaOf(r: Role): set<Area> {
    if r == Agent then {AgentArea} else if r == Cli then {CliArea}
    else if r in SERVER_ROLES then {ServerArea} else {}
  }

  // ---------------------------------------------------------------- dependency paths

  predicate Linked(g: Graph, p: Package, q: Package) {
    Edge(p, q) in g.edges
  }

  /** `path` follows dependencies, one edge at least. */
  predicate Depends(g: Graph, path: seq<Package>) {
    |path| >= 2 && forall i :: 0 <= i < |path| - 1 ==> Linked(g, path[i], path[i + 1])
  }

  ghost predicate Reaches(g: Graph, p: Package, q: Package) {
    exists path: seq<Package> :: Depends(g, path) && path[0] == p && path[|path| - 1] == q
  }

  /** Cargo gives every workspace package a name of its own. */
  ghost predicate UniqueNames(g: Graph, p: Package) {
    forall q, r :: q in Ends(g) + {p} && r in Ends(g) + {p} && q.name == r.name ==> q == r
  }

  function Ends(g: Graph): set<Package> {
    (set e | e in g.edges :: e.source) + (set e | e in g.edges :: e.target)
  }

  function Dependents(g: Graph, name: string): (ps: set<Package>)
    ensures forall p :: p in ps <==> exists e :: e in g.edges && e.source == p && e.target.name == name
  {
    set e | e in g.edges && e.target.name == name :: e.source
  }

  // ---------------------------------------------------------------- the consumer worklist

  method Listed(s: set<Package>) returns (q: seq<Package>)
    ensures forall p :: p in q <==> p in s
  {
    q := [];
    var left := s;
    while left != {}
      invariant left <= s
      invariant forall p :: p in q <==> p in s && p !in left
      decreases |left|
    {
      var p :| p in left;
      q := q + [p];
      left := left - {p};
    }
  }

  lemma DirectReaches(g: Graph, p: Package, q: Package)
    requires Linked(g, p, q)
    ensures Reaches(g, p, q)
  {
    assert Depends(g, [p, q]);
  }

  lemma LongerReaches(g: Graph, p: Package, q: Package, r: Package)
    requires Linked(g, p, q) && Reaches(g, q, r)
    ensures Reaches(g, p, r)
  {
    var path :| Depends(g, path) && path[0] == q && path[|path| - 1] == r;
    assert Depends(g, [p] + path);
  }

  /** What is closed under "depends on a member" holds everything that reaches the target. */
  lemma {:induction false} ClosedHoldsPath(g: Graph, seen: set<Package>, path: seq<Package>)
    requires Depends(g, path)
    requires forall p, q :: Linked(g, p, q) && (q == path[|path| - 1] || q in seen) ==> p in seen
    ensures path[0] in seen
    decreases |path|
  {
    if |path| == 2 {
      assert Linked(g, path[0], path[1]);
    } else {
      var tail := path[1..];
      assert forall i :: 0 <= i < |tail| - 1 ==> Linked(g, tail[i], tail[i + 1]) by {
        forall i | 0 <= i < |tail| - 1 ensures Linked(g, tail[i], tail[i + 1]) {
          assert Linked(g, path[i + 1], path[i + 1 + 1]);
        }
      }
      ClosedHoldsPath(g, seen, tail);
      assert Linked(g, path[0], path[1]);
    }
  }

  function AreasOf(ps: set<Package>): set<Area> {
    set p, a | p in ps && a in AreaOf(p.role) :: a
  }

  function Names(ps: set<Package>): set<string> {
    set p | p in ps :: p.name
  }

  /** The worklist holds nothing but dependents, and with what was seen holds all of them so far. */
  ghost predicate Progress(g: Graph, shared: Package, pending: seq<Package>, seen: set<Package>) {
    && seen <= Ends(g)
    && (forall p :: p in pending || p in seen ==> p in Ends(g) && Reaches(g, p, shared))
    && (forall p, q :: Linked(g, p, q) && (q == shared || q in seen) ==> p in seen || p in pending)
  }

  lemma Skip(g: Graph, shared: Package, pending: seq<Package>, seen: set<Package>, d: Package)
    requires UniqueNames(g, shared) && Progress(g, shared, pending + [d], seen) && d.name in Names(seen)
    ensures Progress(g, shared, pending, seen)
  {
    assert d in pending + [d];
    VisitedIsSeen(g, shared, seen, d);
  }

  lemma Expand(g: Graph, shared: Package, pending: seq<Package>, seen: set<Package>, d: Package, more: seq<Package>)
    requires UniqueNames(g, shared) && Progress(g, shared, pending + [d], seen)
    requires forall p :: p in more <==> p in Dependents(g, d.name)
    ensures d in Ends(g) && Progress(g, shared, pending + more, seen + {d})
  {
    assert d in pending + [d];
    DependentsReach(g, shared, d);
  }

  lemma Finished(g: Graph, shared: Package, seen: set<Package>)
    requires Progress(g, shared, [], seen)
    ensures forall p :: p in seen <==> Reaches(g, p, shared)
  {
    forall p | Reaches(g, p, shared) ensures p in seen {
      var path :| Depends(g, path) && path[0] == p && path[|path| - 1] == shared;
      ClosedHoldsPath(g, seen, path);
    }
  }

  /** Exactly the product areas of the packages that depend on `shared`, directly or not. Cycles are
      no obstacle: a name is expanded once. */
  method ActualProductConsumers(g: Graph, shared: Package) returns (consumers: set<Area>)
    requires UniqueNames(g, shared)
    ensures forall a :: a in consumers <==> exists p :: Reaches(g, p, shared) && a in AreaOf(p.role)
  {
    consumers := {};
    var pending := Listed(Dependents(g, shared.name));
    var visited: set<string> := {};
    ghost var seen: set<Package> := {};
    DependentsReach(g, shared, shared);
    while pending != []
      invariant Progress(g, shared, pending, seen)
      invariant visited == Names(seen) && consumers == AreasOf(seen)
      decreases |Names(Ends(g)) - visited|, |pending|
    {
      var dependent, rest := pending[|pending| - 1], pending[..|pending| - 1];
      LastSplit(pending);
      if dependent.name in visited {
        Skip(g, shared, rest, seen, dependent);
        pending := rest;
        continue;
      }
      var more := Listed(Dependents(g, dependent.name));
      Expand(g, shared, rest, seen, dependent, more);
      OneMore(Ends(g), seen, dependent);
      visited := visited + {dependent.name};
      seen := seen + {dependent};
      consumers := consumers + AreaOf(dependent.role);
      pending := rest + more;
    }
    Finished(g, shared, seen);
  }

  lemma LastSplit(q: seq<Package>)
    requires q != []
    ensures q == q[..|q| - 1] + [q[|q| - 1]]
  {
  }

  /** Seeing one more name leaves strictly fewer to see. */
  lemma OneMore(all: set<Package>, seen: set<Package>, p: Package)
    requires p in all && p.name !in Names(seen)
    ensures Names(seen + {p}) == Names(seen) + {p.name} && AreasOf(seen + {p}) == AreasOf(seen) + AreaOf(p.role)
    ensures |Names(all) - Names(seen + {p})| < |Names(all) - Names(seen)|
  {
    var less, more := Names(all) - Names(seen + {p}), Names(all) - Names(seen);
    assert p.name in Names(all);
    assert more == less + {p.name};
  }

  lemma VisitedIsSeen(g: Graph, shared: Package, seen: set<Package>, p: Package)
    requires UniqueNames(g, shared) && seen <= Ends(g) && p in Ends(g) && p.name in Names(seen)
    ensures p in seen
  {
  }

  /** The reverse-edge table, keyed by name, yields the packages with an edge to `q` itself. */
  lemma DependentsReach(g: Graph, shared: Package, q: Package)
    requires UniqueNames(g, shared) && (q == shared || (q in Ends(g) && Reaches(g, q, shared)))
    ensures forall p :: p in Dependents(g, q.name) <==> Linked(g, p, q)
    ensures forall p :: p in Dependents(g, q.name) ==> p in Ends(g) && Reaches(g, p, shared)
  {
    forall p | p in Dependents(g, q.name) ensures Linked(g, p, q) && p in Ends(g) && Reaches(g, p, shared) {
      var e :| e in g.edges && e.source == p && e.target.name == q.name;
      assert e.target in Ends(g) && e.target == q;
      assert e == Edge(p, q);
      if q == shared {
        DirectReaches(g, p, q);
      } else {
        LongerReaches(g, p, q, shared);
      }
    }
  }

  // ---------------------------------------------------------------- the checks

  ghost predicate IsConsumer(g: Graph, shared: Package, a: Area) {
    exists p :: Reaches(g, p, shared) && a in AreaOf(p.role)
  }

  /** The shared-ownership rule. */
  ghost predicate OwnershipBroken(g: Graph, p: Package) {
    && p.role == Shared
    && (if !p.policyValid || |p.declared| < 2 then true
        else if p.scaffold then p.hasDependencies || exists a :: IsConsumer(g, p, a)
        else !(forall a :: a in p.declared <==> IsConsumer(g, p, a)))
  }

  ghost predicate PackageViolates(g: Graph, code: Code, p: Package) {
    || (code == UnknownLayer && p.role == Unknown)
    || (code == CompositionRoot && p.role == Composition && p.name != COMPOSITION_ROOT)
    || (code == SharedOwnership && OwnershipBroken(g, p))
  }

  predicate Supports(e: Edge) {
    e.source.role == Infrastructure && e.target.name in SUPPORT_PACKAGES
  }

  /** The first edge rule that an edge breaks, if any. */
  function BrokenRule(e: Edge): seq<Code> {
    if e.source.role == Agent && e.target.role in SERVER_ROLES then [AgentServer]
    else if e.target.role == Infrastructure && e.source.role !in {Composition, Test} && !Supports(e) then
          [AdapterSelection]
    else if e.target.role !in AllowedTargets(e.source.role) && !Supports(e) then [InvalidDirection]
    else []
  }

  method OwnershipIsBroken(g: Graph, p: Package) returns (broken: bool)
    requires UniqueNames(g, p) && p.role == Shared
    ensures broken <==> OwnershipBroken(g, p)
  {
    var actual := ActualProductConsumers(g, p);
    ActualIsConsumers(g, p, actual);
    broken :=
      if !p.policyValid || |p.declared| < 2 then true
      else if p.scaffold then p.hasDependencies || actual != {}
      else |actual| < 2 || p.declared != actual;
  }

  lemma ActualIsConsumers(g: Graph, p: Package, actual: set<Area>)
    requires forall a :: a in actual <==> exists q :: Reaches(g, q, p) && a in AreaOf(q.role)
    ensures forall a :: a in actual <==> IsConsumer(g, p, a)
    ensures (exists a :: IsConsumer(g, p, a)) <==> actual != {}
    ensures (forall a :: a in p.declared <==> IsConsumer(g, p, a)) <==> p.declared == actual
  {
    assert forall a :: IsConsumer(g, p, a) <==> exists q :: Reaches(g, q, p) && a in AreaOf(q.role);
    if actual != {} {
      var a :| a in actual;
      assert IsConsumer(g, p, a);
    }
    if forall a :: a in p.declared <==> IsConsumer(g, p, a) {
      assert forall a :: a in p.declared <==> a in actual;
    }
  }

  method CheckPackage(g: Graph, p: Package) returns (violations: seq<Violation>)
    requires UniqueNames(g, p)
    ensures forall v :: v in violations <==> v.OfPackage? && v.package == p && PackageViolates(g, v.code, p)
  {
    violations := [];
    if p.role == Unknown {
      violations := violations + [OfPackage(UnknownLayer, p)];
    }
    if p.role == Composition && p.name != COMPOSITION_ROOT {
      violations := violations + [OfPackage(CompositionRoot, p)];
    }
    if p.role == Shared {
      var broken := OwnershipIsBroken(g, p);
      if broken {
        violations := violations + [OfPackage(SharedOwnership, p)];
      }
    }
  }

  /** The list holds exactly the broken rules of every package and of every edge. */
  method Check(g: Graph) returns (violations: seq<Violation>)
    requires forall p :: p in g.packages ==> UniqueNames(g, p)
    ensures forall v :: v in violations <==>
      if v.OfPackage? then v.package in g.packages && PackageViolates(g, v.code, v.package)
      else v.edge in g.edges && v.code in BrokenRule(v.edge)
  {
    violations := [];
    for i := 0 to |g.packages|
      invariant forall v :: v in violations <==>
        v.OfPackage? && v.package in g.packages[..i] && PackageViolates(g, v.code, v.package)
    {
      var found := CheckPackage(g, g.packages[i]);
      violations := violations + found;
      assert g.packages[..i + 1] == g.packages[..i] + [g.packages[i]];
    }
    assert g.packages[..|g.packages|] == g.packages;
    for i := 0 to |g.edges|
      invariant forall v :: v in violations <==>
        if v.OfPackage? then v.package in g.packages && PackageViolates(g, v.code, v.package)
        else v.edge in g.edges[..i] && v.code in BrokenRule(v.edge)
    {
      var e := g.edges[i];
      var broken := BrokenRule(e);
      if broken != [] {
        violations := violations + [OfEdge(broken[0], e)];
      }
      assert g.edges[..i + 1] == g.edges[..i] + [e];
    }
    assert g.edges[..|g.edges|] == g.edges;
  }

  ghost predicate Clean(g: Graph) {
    && (forall p, code :: p in g.packages ==> !PackageViolates(g, code, p))
    && (forall e :: e in g.edges ==> BrokenRule(e) == [])
  }

  // ---------------------------------------------------------------- what a clean graph guarantees

  /** A clean active shared package declares exactly the products that use it, directly or through
      others, and there are at least two. */
  lemma SharedDeclaresItsConsumers(g: Graph, p: Package)
    requires Clean(g) && p in g.packages && p.role == Shared && !p.scaffold
    ensures forall a :: a in p.declared <==> exists q :: Reaches(g, q, p) && a in AreaOf(q.role)
    ensures |p.declared| >= 2
  {
    assert !PackageViolates(g, SharedOwnership, p);
    forall a ensures a in p.declared <==> exists q :: Reaches(g, q, p) && a in AreaOf(q.role) {
      assert a in p.declared <==> IsConsumer(g, p, a);
    }
  }

  /** The layers a role may reach over any number of edges. */
  function MayReach(r: Role): set<Role> {
    match r
    case Agent => {Agent, Shared}
    case Api => {Application, Core, Shared}
    case Application => {Core, Shared}
    case Cli => {Shared}
    case Composition => {Api, Application, Core, Protocol, Infrastructure, Shared}
    case Core => {Core, Shared}
    case Infrastructure => {Infrastructure, Core, Protocol, Shared}
    case Protocol => {Protocol, Shared}
    case Shared => {Shared}
    case Test => {Agent, Api, Application, Cli, Composition, Core, Infrastructure, Protocol, Shared, Test}
    case Unknown => {}
  }

  /** Roles whose reach no support package can widen. */
  predicate Narrow(r: Role) {
    r in {Agent, Api, Application, Cli, Core, Protocol, Shared}
  }

  lemma {:induction false} NarrowReach(g: Graph, path: seq<Package>)
    requires Clean(g) && Depends(g, path) && Narrow(path[0].role)
    ensures path[|path| - 1].role in MayReach(path[0].role)
    decreases |path|
  {
    assert Linked(g, path[0], path[1]);
    assert BrokenRule(Edge(path[0], path[1])) == [];
    if |path| > 2 {
      TailDepends(g, path);
      NarrowReach(g, path[1..]);
    }
  }

  lemma TailDepends(g: Graph, path: seq<Package>)
    requires Depends(g, path) && |path| > 2
    ensures Depends(g, path[1..])
  {
    forall i | 0 <= i < |path[1..]| - 1 ensures Linked(g, path[1..][i], path[1..][i + 1]) {
      assert Linked(g, path[i + 1], path[i + 1 + 1]);
    }
  }

  /** In a clean graph, over paths of any length, an agent reaches only agent and shared packages,
      the core only core and shared, and so on down the layers. */
  lemma LayersHoldTransitively(g: Graph, p: Package, q: Package)
    requires Clean(g) && Reaches(g, p, q) && Narrow(p.role)
    ensures q.role in MayReach(p.role)
  {
    var path :| Depends(g, path) && path[0] == p && path[|path| - 1] == q;
    NarrowReach(g, path);
  }

  lemma {:induction false} OnlyTopReachesAdapters(g: Graph, path: seq<Package>)
    requires Clean(g) && Depends(g, path) && path[|path| - 1].role == Infrastructure
    ensures path[0].role in {Composition, Test, Infrastructure}
    decreases |path|
  {
    assert Linked(g, path[0], path[1]);
    assert BrokenRule(Edge(path[0], path[1])) == [];
    if |path| > 2 {
      TailDepends(g, path);
      OnlyTopReachesAdapters(g, path[1..]);
    }
  }

  /** Only the composition root, tests and adapters themselves ever depend on an adapter. */
  lemma AdaptersAreSelectedOnce(g: Graph, p: Package, q: Package)
    requires Clean(g) && Reaches(g, p, q) && q.role == Infrastructure
    ensures p.role in {Composition, Test, Infrastructure}
  {
    var path :| Depends(g, path) && path[0] == p && path[|path| - 1] == q;
    OnlyTopReachesAdapters(g, path);
  }

  /** Every support package that an adapter uses has role `r`. */
  predicate SupportRole(g: Graph, r: Role) {
    forall e :: e in g.edges && Supports(e) ==> e.target.role == r
  }

  /** Cargo edges join packages of the workspace. */
  predicate WellFormed(g: Graph) {
    forall e :: e in g.edges ==> e.source in g.packages && e.target in g.packages
  }

  ghost predicate AdaptersStayLow(r: Role) {
    forall g: Graph, p: Package, q: Package ::
      WellFormed(g) && Clean(g) && SupportRole(g, r) && Reaches(g, p, q) && p.role == Infrastructure ==>
        q.role in MayReach(Infrastructure)
  }

  /** Roles the support package may have without letting adapters reach above themselves; the last
      two it cannot have in a clean graph at all. */
  predicate HarmlessSupport(r: Role) {
    r in MayReach(Infrastructure) || r == Unknown || r == Composition
  }

  lemma {:induction false} SupportedReach(g: Graph, path: seq<Package>, r: Role)
    requires WellFormed(g) && Clean(g) && SupportRole(g, r) && HarmlessSupport(r)
    requires Depends(g, path) && path[0].role in MayReach(Infrastructure)
    ensures path[|path| - 1].role in MayReach(Infrastructure)
    decreases |path|
  {
    var e := Edge(path[0], path[1]);
    assert Linked(g, path[0], path[1]);
    assert BrokenRule(e) == [];
    assert !PackageViolates(g, UnknownLayer, e.target) && !PackageViolates(g, CompositionRoot, e.target);
    if |path| > 2 {
      TailDepends(g, path);
      SupportedReach(g, path[1..], r);
    }
  }

  /** A support package in any other layer passes every check and is reached by an adapter. */
  lemma HarmfulSupport(r: Role)
    requires !HarmlessSupport(r)
    ensures !AdaptersStayLow(r)
  {
    var adapter := Package("adapter", Infrastructure, true, false, true, {});
    var support := Package("octacity-server-adapter-host", r, true, false, true, {});
    var g := Graph([adapter, support], [Edge(adapter, support)]);
    assert Linked(g, adapter, support);
    DirectReaches(g, adapter, support);
    assert forall p, code :: p in g.packages ==> !PackageViolates(g, code, p);
    assert WellFormed(g) && Clean(g) && SupportRole(g, r);
  }

  /** The edge rules exempt the support package from every direction check, so that adapters stay in
      their layers depends on the role of that package, and on exactly this much of it. */
  lemma SupportPackageDecides(r: Role)
    ensures AdaptersStayLow(r) <==> HarmlessSupport(r)
  {
    if HarmlessSupport(r) {
      forall g: Graph, p: Package, q: Package |
        WellFormed(g) && Clean(g) && SupportRole(g, r) && Reaches(g, p, q) && p.role == Infrastructure
        ensures q.role in MayReach(Infrastructure)
      {
        var path :| Depends(g, path) && path[0] == p && path[|path| - 1] == q;
        SupportedReach(g, path, r);
      }
    } else {
      HarmfulSupport(r);
    }
  }
}
