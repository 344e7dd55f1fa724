/**
 Staging an installation update: the fingerprint of a configuration directory, and the next
 configuration put together from a copy of the live one and what the generators write.
 */
module Staging {
  import opened Values
  import opened PrivateTree
  import opened HostFiles

  // ---------------------------------------------------------------- fingerprints

  /** config/server adds two levels to each executable bundle's depth bound. */
  const SNAPSHOT_BOUNDS: Bounds := Bounds(6, 4096, 2 * 1024 * 1024 * 1024)

  ghost predicate Injective(sha256: Bytes -> string) {
    forall a, b :: sha256(a) == sha256(b) ==> a == b
  }

  /** A configuration that can be fingerprinted. */
  ghost predicate Legible(tree: FileSystem) {
    IsTree(tree) && Admissible(tree, SNAPSHOT_BOUNDS)
  }

  function Snapshot(tree: FileSystem, sha256: Bytes -> string): map<Path, Record<string>> {
    map p | p in tree :: Read(tree[p], sha256)
  }

  lemma SameRead(a: Node, b: Node, sha256: Bytes -> string)
    requires Injective(sha256) && !a.Special? && !b.Special?
    ensures Read(a, sha256) == Read(b, sha256) <==> a == b
  {
  }

  /** Two legible configurations have one fingerprint exactly when they are the same. */
  lemma SnapshotDecides(a: FileSystem, b: FileSystem, sha256: Bytes -> string)
    requires Injective(sha256) && Legible(a) && Legible(b)
    ensures Snapshot(a, sha256) == Snapshot(b, sha256) <==> a == b
  {
    var p, q := Snapshot(a, sha256), Snapshot(b, sha256);
    if p == q {
      assert a.Keys == p.Keys && b.Keys == q.Keys;
      forall x | x in a ensures a[x] == b[x] {
        assert p[x] == q[x];
        assert x != [] ==> EntryFits(a, x) && EntryFits(b, x);
        SameRead(a[x], b[x], sha256);
      }
    }
  }

  /** Fingerprints a directory: there is one exactly when the directory is there, legible, and no read fails. */
  method TakeSnapshot(tree: Option<FileSystem>, readable: bool, sha256: Bytes -> string)
    returns (seen: Option<map<Path, Record<string>>>)
    requires tree.Some? ==> IsTree(tree.value)
    ensures seen.Some? <==> readable && tree.Some? && Legible(tree.value)
    ensures seen.Some? ==> seen.value == Snapshot(tree.value, sha256)
  {
    if tree.None? || !readable {
      return None;
    }
    var listing := MapPrivateTree(tree.value, SNAPSHOT_BOUNDS, sha256);
    if listing.None? {
      return None;
    }
    var files := Collect(listing.value);
    ListedIsSnapshot(tree.value, listing.value, files, sha256);
    return Some(files);
  }

  /** The listing as a dictionary. */
  method Collect<V>(items: seq<Item<V>>) returns (files: map<Path, Record<V>>)
    requires Distinct(items)
    ensures files.Keys == Paths(items)
    ensures forall i :: 0 <= i < |items| ==> items[i].path in files && files[items[i].path] == items[i].record
  {
    files := map[];
    for i := 0 to |items|
      invariant files.Keys == Paths(items[..i])
      invariant forall k :: 0 <= k < i ==> items[k].path in files && files[items[k].path] == items[k].record
    {
      assert items[..i + 1] == items[..i] + [items[i]];
      PathsAppend(items[..i], items[i]);
      files := files[items[i].path := items[i].record];
    }
    assert items[..|items|] == items;
  }

  lemma ListedIsSnapshot(tree: FileSystem, items: seq<Item<string>>, files: map<Path, Record<string>>,
                         sha256: Bytes -> string)
    requires Lists(items, tree, sha256) && files.Keys == Paths(items)
    requires forall i :: 0 <= i < |items| ==> items[i].path in files && files[items[i].path] == items[i].record
    ensures files == Snapshot(tree, sha256)
  {
    forall p | p in files ensures files[p] == Snapshot(tree, sha256)[p] {
      var i :| 0 <= i < |items| && items[i].path == p;
    }
  }

  // ---------------------------------------------------------------- the staged configuration

  const SERVER: Path := ["server"]
  const SERVER_TOML: Path := ["server", "server.toml"]
  const INTEGRATED: Path := ["integrations", "server.toml"]
  const AGENT_TOML: Path := ["agent.toml"]
  const AGENT_PROFILE: Path := ["factory-agent-profile.toml"]

  predicate InServer(p: Path) {
    p != [] && p[0] == "server"
  }

  predicate InAgent(p: Path) {
    p == AGENT_TOML || p == AGENT_PROFILE
  }

  /** What the two generators write: a server bundle, and the agent's file with an optional profile. */
  datatype Generated = Generated(bundle: FileSystem, agent: Bytes, profile: Option<Bytes>)

  ghost predicate IsGenerated(g: Generated) {
    IsTree(g.bundle) && ["server.toml"] in g.bundle && g.bundle[["server.toml"]].Regular?
  }

  /** A tree, put below a name. */
  function Mounted(name: string, tree: FileSystem): (r: FileSystem)
    ensures forall p :: p in r <==> p != [] && p[0] == name && p[1..] in tree
    ensures forall p :: p in r ==> r[p] == tree[p[1..]]
  {
    var paths := set p | p in tree :: [name] + p;
    assert forall p :: p in tree ==> ([name] + p)[1..] == p;
    assert forall p: Path :: p != [] && p[0] == name ==> p == [name] + p[1..];
    map q | q in paths :: tree[q[1..]]
  }

  function AgentFiles(g: Generated): FileSystem {
    var file := map[AGENT_TOML := Regular(false, g.agent)];
    if g.profile.None? then file else file[AGENT_PROFILE := Regular(false, g.profile.value)]
  }

  /** The copy can be stripped of what the generators own: a directory and one or two files. */
  predicate Strippable(copy: FileSystem) {
    && SERVER in copy && copy[SERVER].Folder? && AGENT_TOML in copy && !copy[AGENT_TOML].Folder?
    && (AGENT_PROFILE in copy ==> !copy[AGENT_PROFILE].Folder?)
  }

  function Kept(copy: FileSystem): FileSystem {
    map p | p in copy && !InServer(p) && !InAgent(p) :: copy[p]
  }

  /** The suffix that the integration setup appended to the server's file, if that is all it did. */
  function Suffix(copy: FileSystem, live: FileSystem, isIntegration: Bytes -> bool): Option<Bytes>
    requires INTEGRATED in copy
  {
    if SERVER_TOML !in live || !live[SERVER_TOML].Regular? || !copy[INTEGRATED].Regular? then None
    else
      var base, contents := live[SERVER_TOML].contents, copy[INTEGRATED].contents;
      if HasPrefix(contents, base) && isIntegration(contents[|base|..]) then Some(contents[|base|..]) else None
  }

  /** The copy without what the generators own. */
  method Strip(copy: FileSystem) returns (rest: Option<FileSystem>)
    ensures rest.Some? <==> Strippable(copy)
    ensures rest.Some? ==> rest.value == Kept(copy)
  {
    if SERVER !in copy || !copy[SERVER].Folder? {
      return None;
    }
    var tree := map p | p in copy && !InServer(p) :: copy[p];
    if AGENT_TOML !in tree || tree[AGENT_TOML].Folder? {
      return None;
    }
    tree := tree - {AGENT_TOML};
    if AGENT_PROFILE in tree && tree[AGENT_PROFILE].Folder? {
      return None;
    }
    tree := tree - {AGENT_PROFILE};
    return Some(tree);
  }

  /** The integration's file, moved from the live base file to the generated one. */
  method Rebase(integrated: Node, live: FileSystem, base: Bytes, isIntegration: Bytes -> bool)
    returns (moved: Option<Node>)
    ensures var copy := map[INTEGRATED := integrated];
            moved == match Suffix(copy, live, isIntegration)
                     case None => None
                     case Some(suffix) => Some(Regular(integrated.executable, base + suffix))
  {
    if SERVER_TOML !in live || !live[SERVER_TOML].Regular? || !integrated.Regular? {
      return None;
    }
    var previous, contents := live[SERVER_TOML].contents, integrated.contents;
    if !HasPrefix(contents, previous) || !isIntegration(contents[|previous|..]) {
      return None;
    }
    return Some(integrated.(contents := base + contents[|previous|..]));
  }

  /** The next configuration, made from a copy of the live one and what was generated. */
  method Stage(copy: FileSystem, live: FileSystem, g: Generated, isIntegration: Bytes -> bool)
    returns (staged: Option<FileSystem>)
    requires IsTree(copy) && IsGenerated(g)
    ensures staged.Some? <==> Stageable(copy, live, isIntegration)
    ensures staged.Some? ==> staged.value == NextTree(copy, live, g, isIntegration) && IsTree(staged.value)
  {
    var rest := Strip(copy);
    if rest.None? {
      return None;
    }
    var tree := rest.value + Mounted("server", g.bundle);
    assert SERVER_TOML[1..] == ["server.toml"];
    if INTEGRATED in tree {
      var moved := Rebase(tree[INTEGRATED], live, tree[SERVER_TOML].contents, isIntegration);
      if moved.None? {
        return None;
      }
      tree := tree[INTEGRATED := moved.value];
    }
    NextMeets(copy, live, g, isIntegration);
    NextIsTree(NextTree(copy, live, g, isIntegration), copy, live, g, isIntegration);
    return Some(tree + AgentFiles(g));
  }

  predicate Stageable(copy: FileSystem, live: FileSystem, isIntegration: Bytes -> bool) {
    Strippable(copy) && (INTEGRATED in copy ==> Suffix(copy, live, isIntegration).Some?)
  }

  /** Every name of the next configuration, by its owner. */
  ghost predicate IsNext(next: FileSystem, copy: FileSystem, live: FileSystem, g: Generated,
      isIntegration: Bytes -> bool)
    requires IsGenerated(g)
  {
    && (forall p {:trigger InServer(p)} :: InServer(p) ==> Same(next, p, g.bundle, p[1..]))
    && (forall p {:trigger InAgent(p)} :: InAgent(p) ==> Same(next, p, AgentFiles(g), p))
    && (forall p {:trigger Same(next, p, copy, p)} :: !InServer(p) && !InAgent(p) && p != INTEGRATED ==>
          Same(next, p, copy, p))
    && (INTEGRATED in next <==> INTEGRATED in copy)
    && (INTEGRATED in copy ==>
          && copy[INTEGRATED].Regular? && Suffix(copy, live, isIntegration).Some?
          && next[INTEGRATED] == Regular(copy[INTEGRATED].executable,
               g.bundle[["server.toml"]].contents + Suffix(copy, live, isIntegration).value))
  }

  ghost predicate Same(a: FileSystem, p: Path, b: FileSystem, q: Path) {
    (p in a <==> q in b) && (p in a ==> a[p] == b[q])
  }

  /** What staging puts together, with the integration's file moved if there is one. */
  function NextTree(copy: FileSystem, live: FileSystem, g: Generated, isIntegration: Bytes -> bool): FileSystem
    requires Stageable(copy, live, isIntegration) && ["server.toml"] in g.bundle && g.bundle[["server.toml"]].Regular?
  {
    var base := Kept(copy) + Mounted("server", g.bundle);
    if INTEGRATED !in copy then base + AgentFiles(g)
    else
      base[INTEGRATED := Regular(copy[INTEGRATED].executable,
        g.bundle[["server.toml"]].contents + Suffix(copy, live, isIntegration).value)] + AgentFiles(g)
  }

  lemma NextAt(copy: FileSystem, live: FileSystem, g: Generated, isIntegration: Bytes -> bool, p: Path)
    requires IsGenerated(g) && Stageable(copy, live, isIntegration) && p != INTEGRATED
    ensures var tree := NextTree(copy, live, g, isIntegration);
            && (InServer(p) ==> Same(tree, p, g.bundle, p[1..]))
            && (InAgent(p) ==> Same(tree, p, AgentFiles(g), p))
            && (!InServer(p) && !InAgent(p) ==> Same(tree, p, copy, p))
  {
  }

  lemma NextIntegrated(copy: FileSystem, live: FileSystem, g: Generated, isIntegration: Bytes -> bool)
    requires IsGenerated(g) && Stageable(copy, live, isIntegration)
    ensures var tree := NextTree(copy, live, g, isIntegration);
            && (INTEGRATED in tree <==> INTEGRATED in copy)
            && (INTEGRATED in copy ==> tree[INTEGRATED] == Regular(copy[INTEGRATED].executable,
                  g.bundle[["server.toml"]].contents + Suffix(copy, live, isIntegration).value))
  {
    assert !InServer(INTEGRATED) && !InAgent(INTEGRATED);
  }

  /** What holds of a name and its owner. */
  ghost predicate Owned(tree: FileSystem, copy: FileSystem, g: Generated, p: Path) {
    && (InServer(p) ==> Same(tree, p, g.bundle, p[1..]))
    && (InAgent(p) ==> Same(tree, p, AgentFiles(g), p))
    && (!InServer(p) && !InAgent(p) ==> Same(tree, p, copy, p))
  }

  lemma OwnedIsNext(tree: FileSystem, copy: FileSystem, live: FileSystem, g: Generated, isIntegration: Bytes -> bool)
    requires IsGenerated(g) && Stageable(copy, live, isIntegration)
    requires forall p {:trigger Owned(tree, copy, g, p)} :: p != INTEGRATED ==> Owned(tree, copy, g, p)
    requires INTEGRATED in tree <==> INTEGRATED in copy
    requires INTEGRATED in copy ==> tree[INTEGRATED] == Regular(copy[INTEGRATED].executable,
               g.bundle[["server.toml"]].contents + Suffix(copy, live, isIntegration).value)
    ensures IsNext(tree, copy, live, g, isIntegration)
  {
    forall p | p != INTEGRATED
      ensures InServer(p) ==> Same(tree, p, g.bundle, p[1..])
      ensures InAgent(p) ==> Same(tree, p, AgentFiles(g), p)
      ensures !InServer(p) && !InAgent(p) ==> Same(tree, p, copy, p)
    {
      assert Owned(tree, copy, g, p);
    }
    assert !InServer(INTEGRATED) && !InAgent(INTEGRATED);
  }

  /** Each name of the staged configuration has its owner's contents. */
  lemma NextMeets(copy: FileSystem, live: FileSystem, g: Generated, isIntegration: Bytes -> bool)
    requires IsGenerated(g) && Stageable(copy, live, isIntegration)
    ensures IsNext(NextTree(copy, live, g, isIntegration), copy, live, g, isIntegration)
  {
    forall p | p != INTEGRATED ensures Owned(NextTree(copy, live, g, isIntegration), copy, g, p) {
      NextAt(copy, live, g, isIntegration, p);
    }
    NextIntegrated(copy, live, g, isIntegration);
    OwnedIsNext(NextTree(copy, live, g, isIntegration), copy, live, g, isIntegration);
  }

  /** The staged configuration is a tree again. */
  lemma NextIsTree(next: FileSystem, copy: FileSystem, live: FileSystem, g: Generated, isIntegration: Bytes -> bool)
    requires IsGenerated(g) && IsTree(copy) && Strippable(copy) && IsNext(next, copy, live, g, isIntegration)
    ensures IsTree(next)
  {
    assert Same(next, [], copy, []);
    forall p | p in next ensures InFolder(next, p) {
      if p != [] {
        NextParent(next, copy, live, g, isIntegration, p);
      }
    }
  }

  lemma NextParent(next: FileSystem, copy: FileSystem, live: FileSystem, g: Generated, isIntegration: Bytes -> bool,
      p: Path)
    requires IsGenerated(g) && IsTree(copy) && Strippable(copy) && IsNext(next, copy, live, g, isIntegration)
    requires p in next && p != []
    ensures Parent(p) in next && next[Parent(p)].Folder?
  {
    var d := Parent(p);
    assert Same(next, [], copy, []);
    if InServer(p) {
      assert Same(next, p, g.bundle, p[1..]) && InFolder(g.bundle, p[1..]);
      if |p| > 1 {
        assert InServer(d) && Same(next, d, g.bundle, d[1..]);
        assert d[1..] == Parent(p[1..]);
      }
    } else if !InAgent(p) {
      assert p in copy by {
        assert p != INTEGRATED ==> Same(next, p, copy, p);
      }
      assert InFolder(copy, p);
      assert !InServer(d) && !InAgent(d) && d != INTEGRATED;
      assert Same(next, d, copy, d);
    }
  }

  /** The staged configuration is determined by its parts, */
  lemma NextIsUnique(a: FileSystem, b: FileSystem, copy: FileSystem, live: FileSystem, g: Generated,
                     isIntegration: Bytes -> bool)
    requires IsGenerated(g)
    requires IsNext(a, copy, live, g, isIntegration) && IsNext(b, copy, live, g, isIntegration)
    ensures a == b
  {
    forall p ensures Same(a, p, b, p) {
      if InServer(p) {
        assert Same(a, p, g.bundle, p[1..]) && Same(b, p, g.bundle, p[1..]);
      } else if InAgent(p) {
        assert Same(a, p, AgentFiles(g), p) && Same(b, p, AgentFiles(g), p);
      } else if p != INTEGRATED {
        assert Same(a, p, copy, p) && Same(b, p, copy, p);
      }
    }
    SameEverywhere(a, b);
  }

  lemma SameEverywhere(a: FileSystem, b: FileSystem)
    requires forall p :: Same(a, p, b, p)
    ensures a == b
  {
    assert forall p :: p in a ==> Same(a, p, b, p);
    assert forall p :: p in b ==> Same(a, p, b, p);
  }

  /** and an update with the same inputs, once it is live, stages what is already there: nothing changes. */
  lemma RepeatChangesNothing(next: FileSystem, copy: FileSystem, g: Generated, isIntegration: Bytes -> bool,
                             again: FileSystem)
    requires IsGenerated(g)
    requires IsNext(next, copy, copy, g, isIntegration)
    requires IsNext(again, next, next, g, isIntegration)
    ensures again == next
  {
    forall p ensures Same(again, p, next, p) {
      if InServer(p) {
        assert Same(again, p, g.bundle, p[1..]) && Same(next, p, g.bundle, p[1..]);
      } else if InAgent(p) {
        assert Same(again, p, AgentFiles(g), p) && Same(next, p, AgentFiles(g), p);
      } else if p != INTEGRATED {
        assert Same(again, p, next, p);
      } else if INTEGRATED in copy {
        SuffixSurvives(next, copy, g, isIntegration);
      }
    }
    SameEverywhere(again, next);
  }

  /** The next update recognizes the integration that this one moved to a new base file. */
  lemma SuffixSurvives(next: FileSystem, copy: FileSystem, g: Generated, isIntegration: Bytes -> bool)
    requires IsGenerated(g) && IsNext(next, copy, copy, g, isIntegration) && INTEGRATED in copy
    ensures Suffix(next, next, isIntegration) == Suffix(copy, copy, isIntegration)
    ensures Strippable(next)
  {
    assert InServer(SERVER_TOML) && Same(next, SERVER_TOML, g.bundle, SERVER_TOML[1..]);
    assert SERVER_TOML[1..] == ["server.toml"] && SERVER[1..] == [];
    assert InServer(SERVER) && Same(next, SERVER, g.bundle, SERVER[1..]);
    assert InAgent(AGENT_TOML) && Same(next, AGENT_TOML, AgentFiles(g), AGENT_TOML);
    assert InAgent(AGENT_PROFILE) && Same(next, AGENT_PROFILE, AgentFiles(g), AGENT_PROFILE);
    var base, suffix := g.bundle[["server.toml"]].contents, Suffix(copy, copy, isIntegration).value;
    assert (base + suffix)[..|base|] == base && (base + suffix)[|base|..] == suffix;
  }
}
