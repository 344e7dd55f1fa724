/**
 One update that loses the old configuration: the caller's startup removes the live directory and then
 raises. The restoring exchange has nothing to exchange with, and the cleanup deletes the only copy.
 */
module LostGeneration {
  import opened Values
  import opened PrivateTree
  import opened Staging
  import opened InstallationUpdate

  lemma {:induction false} TotalIsSmall(fs: FileSystem, paths: set<Path>)
    requires paths <= fs.Keys && forall p :: p in paths ==> Size(fs[p]) <= 1
    ensures Total(fs, paths) <= |paths|
    decreases |paths|
  {
    if paths != {} {
      var p :| p in paths;
      TotalTakes(fs, paths, p);
      TotalIsSmall(fs, paths - {p});
    }
  }

  /** A configuration with a server and an agent file. */
  function Sample(server: Bytes): FileSystem {
    map[[] := Folder, SERVER := Folder, SERVER_TOML := Regular(false, server), AGENT_TOML := Regular(false, "a")]
  }

  lemma SampleIsTree(server: Bytes)
    ensures IsTree(Sample(server))
  {
    var tree := Sample(server);
    assert Parent(SERVER) == [] && Parent(SERVER_TOML) == SERVER && Parent(AGENT_TOML) == [];
    forall p | p in tree ensures InFolder(tree, p) {
      assert p == [] || p == SERVER || p == SERVER_TOML || p == AGENT_TOML;
    }
  }

  lemma SampleFits(server: Bytes, p: Path)
    requires |server| == 1 && p in Sample(server)
    ensures p != [] ==> EntryFits(Sample(server), p)
    ensures |p| <= 2 && Size(Sample(server)[p]) <= 1
  {
    assert IsName("server") && IsName("server.toml") && IsName("agent.toml");
    assert p == [] || p == SERVER || p == SERVER_TOML || p == AGENT_TOML;
  }

  lemma SampleIsLegible(server: Bytes)
    requires |server| == 1
    ensures Legible(Sample(server))
  {
    var tree := Sample(server);
    SampleIsTree(server);
    forall p | p in tree ensures p != [] ==> EntryFits(tree, p) ensures |p| <= 2 && Size(tree[p]) <= 1 {
      SampleFits(server, p);
    }
    TotalIsSmall(tree, tree.Keys);
    AtMostFour([], SERVER, SERVER_TOML, AGENT_TOML, tree.Keys);
    assert |tree| == |tree.Keys|;
  }

  lemma AtMostFour(a: Path, b: Path, c: Path, d: Path, s: set<Path>)
    requires s == {a, b, c, d}
    ensures |s| <= 4
  {
    assert s == {a} + {b} + {c} + {d};
    assert |{a} + {b}| <= 2 && |{a} + {b} + {c}| <= 3;
  }

  /** What is generated for it: a new server file and the same agent file. */
  function Anew(server: Bytes): Generated {
    Generated(map[[] := Folder, ["server.toml"] := Regular(false, server)], "a", None)
  }

  lemma AnewIsGenerated(server: Bytes)
    ensures IsGenerated(Anew(server))
  {
    var bundle := Anew(server).bundle;
    assert Parent(["server.toml"]) == [];
    forall p | p in bundle ensures InFolder(bundle, p) {
      assert p == [] || p == ["server.toml"];
    }
  }

  lemma SampleServer(server: Bytes, p: Path)
    requires InServer(p)
    ensures Same(Sample(server), p, Anew(server).bundle, p[1..])
  {
    assert p == ["server"] + p[1..];
    assert SERVER == ["server"] + [] && SERVER_TOML == ["server"] + ["server.toml"];
    assert AGENT_TOML[0] != "server";
  }

  lemma SampleIsStaged(before: Bytes, after: Bytes)
    ensures Stageable(Sample(before), Sample(before), _ => false) && IsGenerated(Anew(after))
    ensures NextTree(Sample(before), Sample(before), Anew(after), _ => false) == Sample(after)
  {
    var none: Bytes -> bool := _ => false;
    AnewIsGenerated(after);
    forall p | InServer(p) ensures Same(Sample(after), p, Anew(after).bundle, p[1..]) {
      SampleServer(after, p);
    }
    assert IsNext(Sample(after), Sample(before), Sample(before), Anew(after), none);
    NextMeets(Sample(before), Sample(before), Anew(after), none);
    NextIsUnique(NextTree(Sample(before), Sample(before), Anew(after), none), Sample(after),
                 Sample(before), Sample(before), Anew(after), none);
  }

  /** Everything succeeds until the startup removes the live directory and raises. */
  function RemovingWorld(): World {
    var calm := Look(Untouched, true);
    World(true, true, true, true, true, None, [], true, Sample("o"), calm, true, true, true, calm, true, true,
          Untouched, true, calm, Untouched, true, Gone, true, true)
  }

  lemma NothingRefuses()
    ensures Proceeds(RemovingWorld(), Plan(Sample("o"), Sample("n")), true) && IsWorld(RemovingWorld())
    ensures Sample("o") != Sample("n")
  {
    SampleIsLegible("o");
    SampleIsLegible("n");
    assert Sample("o")[SERVER_TOML] != Sample("n")[SERVER_TOML];
  }

  method OldGenerationCanBeLost() returns (stand: Stand, outcome: Outcome)
    ensures outcome == BodyFailed(true, false) && stand.Ended()
    ensures stand.plan.original == Sample("o") && stand.live.None? && stand.staged.None?
  {
    var none: Bytes -> bool := _ => false;
    NothingRefuses();
    SampleIsTree("o");
    SampleIsStaged("o", "n");
    stand := new Stand(Sample("o"), Anew("n"), none);
    outcome := stand.Update(RemovingWorld(), (b: Bytes) => b);
  }
}
