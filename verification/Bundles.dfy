/**
 Publishing a server bundle: the expected entries are written to a staging directory in their
 order, validated there, and moved into place; an existing bundle is only validated.
 */
module Bundles {
  import opened Values
  import opened PrivateTree

  /** An expected entry: a directory, or a file with its contents. */
  type Expected = Item<Bytes>

  function NodeOf(record: Record<Bytes>): Node {
    if record.Directory? then Folder else Regular(record.executable, record.value)
  }

  /** Entries come once, below the root, and after their directories. */
  ghost predicate Closed(expected: seq<Expected>) {
    && Distinct(expected)
    && forall j :: 0 <= j < |expected| ==> Grounded(expected, j)
  }

  ghost predicate Grounded(expected: seq<Expected>, j: nat)
    requires j < |expected|
  {
    && expected[j].path != []
    && (|expected[j].path| == 1 || exists i :: 0 <= i < j && expected[i] == Item(Parent(expected[j].path), Directory))
  }

  predicate NoneEmpty(expected: seq<Expected>) {
    forall i :: 0 <= i < |expected| && expected[i].record.File? ==> expected[i].record.value != ""
  }

  /** The directory that holds exactly the expected entries. */
  ghost predicate Holds(fs: FileSystem, expected: seq<Expected>) {
    && fs.Keys == Paths(expected) + {[]} && fs[[]] == Folder
    && forall i :: 0 <= i < |expected| ==> fs[expected[i].path] == NodeOf(expected[i].record)
  }

  // ---------------------------------------------------------------- validation

  function ChildrenOf(fs: FileSystem, d: Path): set<Path> {
    set p | p in fs && IsChild(p, d)
  }

  function ExpectedChildren(expected: seq<Expected>, d: Path): set<Path> {
    set i | 0 <= i < |expected| && IsChild(expected[i].path, d) :: expected[i].path
  }

  /** The first components of the expected names. */
  function Tops(expected: seq<Expected>): set<Path> {
    set i | 0 <= i < |expected| && expected[i].path != [] :: expected[i].path[..1]
  }

  predicate ItemStands(fs: FileSystem, expected: seq<Expected>, i: nat)
    requires i < |expected|
  {
    var item := expected[i];
    && item.path in fs && fs[item.path] == NodeOf(item.record)
    && if item.record.Directory? then ChildrenOf(fs, item.path) == ExpectedChildren(expected, item.path)
       else item.record.value != ""
  }

  predicate Stands(fs: FileSystem, expected: seq<Expected>) {
    ChildrenOf(fs, []) == Tops(expected) && forall i :: 0 <= i < |expected| ==> ItemStands(fs, expected, i)
  }

  method ValidateExisting(fs: FileSystem, expected: seq<Expected>) returns (ok: bool)
    requires IsTree(fs) && Closed(expected)
    ensures ok <==> Holds(fs, expected) && NoneEmpty(expected)
  {
    ok := ChildrenOf(fs, []) == Tops(expected);
    var i := 0;
    while ok && i < |expected|
      invariant 0 <= i <= |expected|
      invariant ok ==> ChildrenOf(fs, []) == Tops(expected) && forall k :: 0 <= k < i ==> ItemStands(fs, expected, k)
      invariant !ok ==> !Stands(fs, expected)
      decreases |expected| - i, ok
    {
      var item := expected[i];
      if item.record.Directory? {
        ok := item.path in fs && fs[item.path].Folder?
              && ChildrenOf(fs, item.path) == ExpectedChildren(expected, item.path);
      } else {
        ok := item.path in fs && item.record.value != ""
              && fs[item.path] == Regular(item.record.executable, item.record.value);
      }
      assert ok <==> ItemStands(fs, expected, i);
      i := i + 1;
    }
    StandsExactly(fs, expected);
  }

  /** A closed bundle has its top entries among the expected ones, */
  lemma TopsAreExpected(expected: seq<Expected>, p: Path)
    requires Closed(expected)
    ensures p in Tops(expected) <==> |p| == 1 && p in Paths(expected)
  {
    if p in Tops(expected) {
      var i :| 0 <= i < |expected| && expected[i].path != [] && p == expected[i].path[..1];
      TopOf(expected, i);
    }
    if |p| == 1 && p in Paths(expected) {
      var i :| 0 <= i < |expected| && expected[i].path == p;
      assert expected[i].path[..1] == p;
    }
  }

  lemma {:induction false} TopOf(expected: seq<Expected>, i: nat)
    requires Closed(expected) && i < |expected|
    ensures expected[i].path != [] && expected[i].path[..1] in Paths(expected)
    decreases |expected[i].path|
  {
    assert Grounded(expected, i);
    var p := expected[i].path;
    if |p| == 1 {
      assert p[..1] == p;
    } else {
      var k :| 0 <= k < i && expected[k] == Item(Parent(p), Directory);
      TopOf(expected, k);
      assert p[..1] == Parent(p)[..1];
    }
  }

  /** so entry by entry validation finds every difference, missing and unexpected entries included. */
  lemma StandsExactly(fs: FileSystem, expected: seq<Expected>)
    requires IsTree(fs) && Closed(expected)
    ensures Stands(fs, expected) <==> Holds(fs, expected) && NoneEmpty(expected)
  {
    if Stands(fs, expected) {
      StandingHolds(fs, expected);
    }
    if Holds(fs, expected) && NoneEmpty(expected) {
      HeldStands(fs, expected);
    }
  }

  lemma StandingHolds(fs: FileSystem, expected: seq<Expected>)
    requires IsTree(fs) && Closed(expected) && Stands(fs, expected)
    ensures Holds(fs, expected) && NoneEmpty(expected)
  {
    forall p | p in fs ensures p in Paths(expected) + {[]} {
      StandingIsExpected(fs, expected, p);
    }
    forall i | 0 <= i < |expected|
      ensures expected[i].path in fs && fs[expected[i].path] == NodeOf(expected[i].record)
      ensures expected[i].record.File? ==> expected[i].record.value != ""
    {
      assert ItemStands(fs, expected, i);
    }
    assert fs.Keys == Paths(expected) + {[]};
  }

  lemma {:induction false} StandingIsExpected(fs: FileSystem, expected: seq<Expected>, p: Path)
    requires IsTree(fs) && Closed(expected) && Stands(fs, expected) && p in fs
    ensures p == [] || p in Paths(expected)
    decreases |p|
  {
    if p != [] {
      assert InFolder(fs, p);
      var d := Parent(p);
      StandingIsExpected(fs, expected, d);
      assert p in ChildrenOf(fs, d);
      if d == [] {
        TopsAreExpected(expected, p);
      } else {
        var i :| 0 <= i < |expected| && expected[i].path == d;
        assert ItemStands(fs, expected, i);
        assert p in ExpectedChildren(expected, d);
      }
    }
  }

  lemma HeldStands(fs: FileSystem, expected: seq<Expected>)
    requires IsTree(fs) && Closed(expected) && Holds(fs, expected) && NoneEmpty(expected)
    ensures Stands(fs, expected)
  {
    forall p ensures p in ChildrenOf(fs, []) <==> p in Tops(expected) {
      TopsAreExpected(expected, p);
    }
    forall i | 0 <= i < |expected| ensures ItemStands(fs, expected, i) {
      var d := expected[i].path;
      assert d in Paths(expected) && Grounded(expected, i);
      forall p ensures p in ChildrenOf(fs, d) <==> p in ExpectedChildren(expected, d) {
        if p in ChildrenOf(fs, d) {
          assert p in Paths(expected);
        }
      }
    }
  }

  // ---------------------------------------------------------------- publication

  /** Writing needs the directory to be there. */
  ghost predicate CanWrite(fs: FileSystem, p: Path) {
    p != [] && Parent(p) in fs && fs[Parent(p)].Folder?
  }

  function Write(fs: FileSystem, item: Expected): FileSystem
    requires CanWrite(fs, item.path)
  {
    fs[item.path := NodeOf(item.record)]
  }

  /** Each expected entry is written into a directory that an earlier one made. */
  lemma NeverMissing(fs: FileSystem, expected: seq<Expected>, n: nat)
    requires Closed(expected) && n < |expected| && Holds(fs, expected[..n])
    ensures CanWrite(fs, expected[n].path) && expected[n].path !in fs
  {
    assert Grounded(expected, n);
    var p := expected[n].path;
    if |p| > 1 {
      var i :| 0 <= i < n && expected[i] == Item(Parent(p), Directory);
      assert expected[..n][i] == expected[i];
      assert Parent(p) in Paths(expected[..n]);
    }
    forall i | 0 <= i < n ensures expected[..n][i].path != p {
      assert expected[..n][i] == expected[i];
    }
  }

  lemma WriteHolds(fs: FileSystem, expected: seq<Expected>, n: nat)
    requires IsTree(fs) && Closed(expected) && n < |expected| && Holds(fs, expected[..n])
    requires CanWrite(fs, expected[n].path) && expected[n].path !in fs
    ensures Holds(Write(fs, expected[n]), expected[..n + 1]) && IsTree(Write(fs, expected[n]))
  {
    var more := Write(fs, expected[n]);
    var upto := expected[..n + 1];
    assert upto == expected[..n] + [expected[n]];
    PathsAppend(expected[..n], expected[n]);
    forall i | 0 <= i < |upto| ensures upto[i].path in more && more[upto[i].path] == NodeOf(upto[i].record) {
      if i < n {
        assert expected[..n][i] == upto[i] && upto[i].path in Paths(expected[..n]);
      }
    }
    forall p | p in more ensures InFolder(more, p) {
      assert p in fs ==> InFolder(fs, p);
    }
  }

  /** `rival` is what another publisher put in place meanwhile, if any; moving a directory replaces only an
      empty one. The result says whether the call succeeds and what is then in place. */
  method PublishBundle(destination: Option<FileSystem>, expected: seq<Expected>, rival: Option<FileSystem>)
    returns (ok: bool, placed: Option<FileSystem>)
    requires Closed(expected)
    requires destination.Some? ==> IsTree(destination.value)
    requires rival.Some? ==> IsTree(rival.value)
    ensures ok ==> placed.Some? && Holds(placed.value, expected) && NoneEmpty(expected)
    ensures destination.Some? ==> placed == destination && (ok <==>
            Holds(destination.value, expected) && NoneEmpty(expected))
    ensures destination.None? && (rival.None? || rival.value == map[[] := Folder]) ==> (ok <==> NoneEmpty(expected))
    ensures destination.None? && !ok ==> placed == if NoneEmpty(expected) then rival else None
    ensures destination.None? && rival.Some? && Holds(rival.value, expected) ==> (ok <==> NoneEmpty(expected))
  {
    if destination.Some? {
      ok := ValidateExisting(destination.value, expected);
      return ok, destination;
    }
    var staging: FileSystem := map[[] := Folder];
    assert expected[..0] == [];
    for n := 0 to |expected|
      invariant IsTree(staging) && Holds(staging, expected[..n])
    {
      NeverMissing(staging, expected, n);
      WriteHolds(staging, expected, n);
      staging := Write(staging, expected[n]);
    }
    assert expected[..|expected|] == expected;
    var staged := ValidateExisting(staging, expected);
    if !staged {
      return false, None;
    }
    if rival.None? || rival.value == map[[] := Folder] {
      return true, Some(staging);
    }
    ok := ValidateExisting(rival.value, expected);
    return ok, rival;
  }

  /** What was published is a tree again. */
  lemma HeldIsTree(fs: FileSystem, expected: seq<Expected>)
    requires Closed(expected) && Holds(fs, expected)
    ensures IsTree(fs)
  {
    forall p | p in fs ensures InFolder(fs, p) {
      if p != [] {
        var j :| 0 <= j < |expected| && expected[j].path == p;
        assert Grounded(expected, j);
        if |p| > 1 {
          var i :| 0 <= i < j && expected[i] == Item(Parent(p), Directory);
          assert fs[expected[i].path] == Folder;
        }
      }
    }
  }

  /** Publishing the same entries again succeeds, whoever else publishes meanwhile, and changes nothing. */
  method PublishAgain(expected: seq<Expected>, rival: Option<FileSystem>)
    returns (first: Option<FileSystem>, second: Option<FileSystem>)
    requires Closed(expected) && NoneEmpty(expected) && (rival.Some? ==> IsTree(rival.value))
    ensures first.Some? && Holds(first.value, expected) && second == first
  {
    var ok, again;
    ok, first := PublishBundle(None, expected, None);
    HeldIsTree(first.value, expected);
    again, second := PublishBundle(first, expected, rival);
    assert again;
  }

  // ---------------------------------------------------------------- executable installations

  /** The entries of an installation, below a name of the bundle. */
  function Below(name: string, listing: seq<Item<Bytes>>): (expected: seq<Expected>)
    ensures |expected| == |listing|
    ensures forall i :: 0 <= i < |listing| ==> expected[i] == Item([name] + listing[i].path, listing[i].record)
  {
    if listing == [] then []
    else Below(name, listing[..|listing| - 1]) + [Item([name] + listing[|listing| - 1].path,
          listing[|listing| - 1].record)]
  }

  method PlaceBelow(name: string, listing: seq<Item<Bytes>>) returns (files: seq<Expected>)
    ensures files == Below(name, listing)
  {
    files := [];
    for i := 0 to |listing|
      invariant files == Below(name, listing[..i])
    {
      assert listing[..i + 1][..i] == listing[..i];
      files := files + [Item([name] + listing[i].path, listing[i].record)];
    }
    assert listing[..|listing|] == listing;
  }

  const EXECUTABLE_BOUNDS: Bounds := Bounds(4, 1024, 512 * 1024 * 1024)

  method ExecutableBundle(fs: FileSystem, name: string) returns (expected: Option<seq<Expected>>)
    requires IsTree(fs)
    ensures expected.Some? <==> Admissible(fs, EXECUTABLE_BOUNDS)
    ensures expected.Some? ==> Closed(expected.value) && NoneEmpty(expected.value) && Copies(expected.value, name, fs)
  {
    var listing := MapPrivateTree(fs, EXECUTABLE_BOUNDS, (b: Bytes) => b);
    if listing.None? {
      return None;
    }
    var files := PlaceBelow(name, listing.value);
    BelowIsClosed(name, listing.value, fs);
    BelowCopies(name, listing.value, fs, EXECUTABLE_BOUNDS);
    return Some(files);
  }

  /** The entries are those of the tree, each below the name and with its own contents. */
  ghost predicate Copies(expected: seq<Expected>, name: string, fs: FileSystem) {
    && (forall p :: p in fs <==> [name] + p in Paths(expected))
    && (forall i :: 0 <= i < |expected| ==>
          && expected[i].path != [] && expected[i].path[0] == name && expected[i].path[1..] in fs
          && NodeOf(expected[i].record) == fs[expected[i].path[1..]])
  }

  lemma BelowIsClosed(name: string, listing: seq<Item<Bytes>>, fs: FileSystem)
    requires Lists(listing, fs, (b: Bytes) => b)
    ensures Closed(Below(name, listing))
  {
    var expected := Below(name, listing);
    forall i, j | 0 <= i < j < |expected| ensures expected[i].path != expected[j].path {
      assert expected[i].path[1..] == listing[i].path && expected[j].path[1..] == listing[j].path;
    }
    forall j | 0 <= j < |expected| ensures Grounded(expected, j) {
      if j > 0 {
        assert AfterParent(listing, j);
        var i :| 0 <= i < j && listing[i] == Item(Parent(listing[j].path), Directory);
        assert Parent([name] + listing[j].path) == [name] + Parent(listing[j].path);
        assert expected[i] == Item(Parent(expected[j].path), Directory);
      }
    }
  }

  lemma BelowCopies(name: string, listing: seq<Item<Bytes>>, fs: FileSystem, bounds: Bounds)
    requires Lists(listing, fs, (b: Bytes) => b) && Admissible(fs, bounds) && IsTree(fs)
    ensures NoneEmpty(Below(name, listing)) && Copies(Below(name, listing), name, fs)
  {
    var expected := Below(name, listing);
    forall i | 0 <= i < |expected|
      ensures expected[i].path != [] && expected[i].path[0] == name && expected[i].path[1..] in fs
      ensures NodeOf(expected[i].record) == fs[expected[i].path[1..]]
      ensures expected[i].record.File? ==> expected[i].record.value != ""
    {
      var p := listing[i].path;
      assert expected[i].path[1..] == p && p in Paths(listing);
      assert p != [] ==> EntryFits(fs, p);
    }
    BelowPaths(name, listing, fs);
  }

  lemma BelowPaths(name: string, listing: seq<Item<Bytes>>, fs: FileSystem)
    requires Paths(listing) == fs.Keys
    ensures forall p :: p in fs <==> [name] + p in Paths(Below(name, listing))
  {
    var expected := Below(name, listing);
    forall p ensures p in fs <==> [name] + p in Paths(expected) {
      if p in fs {
        var i :| 0 <= i < |listing| && listing[i].path == p;
        assert expected[i].path == [name] + p;
      }
      if [name] + p in Paths(expected) {
        var i :| 0 <= i < |expected| && expected[i].path == [name] + p;
        assert expected[i].path[1..] == p;
        assert listing[i].path == p && p in Paths(listing);
      }
    }
  }

  /** Bundles under different names, and single files, can be published together. */
  lemma ClosedTogether(a: seq<Expected>, b: seq<Expected>)
    requires Closed(a) && Closed(b)
    requires forall i, j :: 0 <= i < |a| && 0 <= j < |b| ==> a[i].path != b[j].path
    ensures Closed(a + b)
  {
    var all := a + b;
    forall j | 0 <= j < |all| ensures Grounded(all, j) {
      if j < |a| {
        assert all[j] == a[j] && Grounded(a, j);
        if |a[j].path| > 1 {
          var i :| 0 <= i < j && a[i] == Item(Parent(a[j].path), Directory);
          assert all[i] == a[i];
        }
      } else {
        var k := j - |a|;
        assert all[j] == b[k] && Grounded(b, k);
        if |b[k].path| > 1 {
          var i :| 0 <= i < k && b[i] == Item(Parent(b[k].path), Directory);
          assert all[|a| + i] == b[i];
        }
      }
    }
  }

  /** What is published below the name is the installation that was read, entry for entry. */
  lemma PublishedIsTheInstallation(placed: FileSystem, expected: seq<Expected>, name: string, fs: FileSystem, p: Path)
    requires Holds(placed, expected) && Copies(expected, name, fs)
    ensures p in fs <==> [name] + p in placed
    ensures p in fs ==> placed[[name] + p] == fs[p]
  {
    if p in fs {
      var i :| 0 <= i < |expected| && expected[i].path == [name] + p;
      assert expected[i].path[1..] == p;
    }
  }
}
