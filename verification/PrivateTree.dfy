/**
 Reading a private installation: a bounded walk of a directory tree with a stack of directories
 still to be listed. A file system is a map from paths to nodes; the order in which a directory
 lists its entries is not fixed.
 */
module PrivateTree {
  import opened Values
  import Text

  type Path = seq<string>

  datatype Node = Folder | Regular(executable: bool, contents: Bytes) | Special

  type FileSystem = map<Path, Node>

  function Parent(p: Path): Path
    requires p != []
  {
    p[..|p| - 1]
  }

  /** A directory, with everything below it reached through directories. */
  ghost predicate IsTree(fs: FileSystem) {
    && [] in fs && fs[[]].Folder?
    && forall p {:trigger InFolder(fs, p)} :: p in fs ==> InFolder(fs, p)
  }

  ghost predicate InFolder(fs: FileSystem, p: Path) {
    p != [] ==> Parent(p) in fs && fs[Parent(p)].Folder?
  }

  const EXECUTABLE_LIMIT: nat := 256 * 1024 * 1024
  const PRIVATE_LIMIT: nat := 4 * 1024 * 1024

  datatype Bounds = Bounds(maxDepth: nat, maxEntries: nat, maxBytes: nat)

  predicate IsPlain(c: char) {
    'A' <= c <= 'Z' || 'a' <= c <= 'z' || '0' <= c <= '9' || c == '_' || c == '.'
  }

  /** `[A-Za-z0-9_.][A-Za-z0-9_.-]{0,127}` */
  predicate IsName(s: string) {
    1 <= |s| <= 128 && IsPlain(s[0]) && forall i :: 1 <= i < |s| ==> IsPlain(s[i]) || s[i] == '-'
  }

  predicate HasValidSize(n: Node) {
    n.Regular? ==> 0 < |n.contents| <= if n.executable then EXECUTABLE_LIMIT else PRIVATE_LIMIT
  }

  function Size(n: Node): nat {
    if n.Regular? then |n.contents| else 0
  }

  /** What is asked of one entry below the root. */
  predicate EntryFits(fs: FileSystem, p: Path)
    requires p in fs && p != []
  {
    IsName(p[|p| - 1]) && !fs[p].Special? && HasValidSize(fs[p])
  }

  // ---------------------------------------------------------------- the bytes of a set of entries

  ghost function Total(fs: FileSystem, paths: set<Path>): nat
    requires paths <= fs.Keys
  {
    if paths == {} then 0
    else
      var p :| p in paths;
      Size(fs[p]) + Total(fs, paths - {p})
  }

  lemma {:induction false} TotalTakes(fs: FileSystem, paths: set<Path>, p: Path)
    requires paths <= fs.Keys && p in paths
    ensures Total(fs, paths) == Size(fs[p]) + Total(fs, paths - {p})
    decreases |paths|
  {
    var q :| q in paths && Total(fs, paths) == Size(fs[q]) + Total(fs, paths - {q});
    if q != p {
      TotalTakes(fs, paths - {q}, p);
      TotalTakes(fs, paths - {p}, q);
      assert paths - {q} - {p} == paths - {p} - {q};
    }
  }

  lemma {:induction false} TotalGrows(fs: FileSystem, a: set<Path>, b: set<Path>)
    requires a <= b <= fs.Keys
    ensures Total(fs, a) <= Total(fs, b)
    decreases |b|
  {
    if a != b {
      assert exists p :: p in b && p !in a;
      var p :| p in b && p !in a;
      TotalTakes(fs, b, p);
      TotalGrows(fs, a, b - {p});
    }
  }

  /** The trees that are read: named, sized and bounded as asked. */
  ghost predicate Admissible(fs: FileSystem, bounds: Bounds) {
    && (forall p :: p in fs && p != [] ==> EntryFits(fs, p))
    && (forall p :: p in fs && fs[p].Folder? ==> |p| <= bounds.maxDepth)
    && (|fs| == 1 || |fs| <= bounds.maxEntries)
    && Total(fs, fs.Keys) <= bounds.maxBytes
  }

  // ---------------------------------------------------------------- the listing

  /** A directory, or a file's mode and what the reader made of its contents. */
  datatype Record<V> = Directory | File(executable: bool, value: V)

  datatype Item<V> = Item(path: Path, record: Record<V>)

  function Read<V>(n: Node, read: Bytes -> V): Record<V> {
    if n.Regular? then File(n.executable, read(n.contents)) else Directory
  }

  ghost function Paths<V>(items: seq<Item<V>>): set<Path> {
    set i | 0 <= i < |items| :: items[i].path
  }

  ghost predicate Distinct<V>(items: seq<Item<V>>) {
    forall i, j :: 0 <= i < j < |items| ==> items[i].path != items[j].path
  }

  /** Every entry but the first comes after its directory. */
  ghost predicate ParentsFirst<V>(items: seq<Item<V>>) {
    && items != [] && items[0] == Item([], Directory)
    && forall j :: 0 < j < |items| ==> AfterParent(items, j)
  }

  ghost predicate AfterParent<V>(items: seq<Item<V>>, j: nat)
    requires j < |items|
  {
    items[j].path != [] && exists i :: 0 <= i < j && items[i] == Item(Parent(items[j].path), Directory)
  }

  ghost predicate Reads<V>(items: seq<Item<V>>, fs: FileSystem, read: Bytes -> V) {
    forall i :: 0 <= i < |items| ==> items[i].path in fs && items[i].record == Read(fs[items[i].path], read)
  }

  /** The listing names every entry once, with its contents, a directory before what it holds. */
  ghost predicate Lists<V>(items: seq<Item<V>>, fs: FileSystem, read: Bytes -> V) {
    Distinct(items) && ParentsFirst(items) && Reads(items, fs, read) && Paths(items) == fs.Keys
  }

  // ---------------------------------------------------------------- the walk

  predicate IsChild(p: Path, d: Path) {
    p != [] && Parent(p) == d
  }

  /** Each listed entry fits, and together they stay within the bounds. */
  ghost predicate WithinBounds<V>(fs: FileSystem, bounds: Bounds, items: seq<Item<V>>, total: nat) {
    && Paths(items) <= fs.Keys
    && (forall p :: p in Paths(items) && p != [] ==> EntryFits(fs, p))
    && (|items| == 1 || |items| <= bounds.maxEntries)
    && total == Total(fs, Paths(items)) <= bounds.maxBytes
  }

  /** Each listed directory is either expanded or on the stack, once. */
  ghost predicate StackCovers(fs: FileSystem, bounds: Bounds, listed: set<Path>, pending: seq<Path>,
      expanded: set<Path>) {
    && listed <= fs.Keys
    && (forall d :: d in expanded ==> d in listed && fs[d].Folder? && |d| <= bounds.maxDepth)
    && (forall d :: d in listed && fs[d].Folder? ==> d in expanded || d in pending)
    && (forall i :: 0 <= i < |pending| ==> pending[i] in listed && fs[pending[i]].Folder? && pending[i] !in expanded)
    && (forall i, j :: 0 <= i < j < |pending| ==> pending[i] != pending[j])
  }

  ghost predicate IsListing<V>(fs: FileSystem, items: seq<Item<V>>, read: Bytes -> V) {
    Distinct(items) && ParentsFirst(items) && Reads(items, fs, read)
  }

  /** Exactly the children of expanded directories are listed, but for those still to come. */
  ghost predicate ChildrenListed(fs: FileSystem, listed: set<Path>, expanded: set<Path>, coming: set<Path>) {
    forall p {:trigger Placed(p, listed, expanded, coming)} :: p in fs && p != [] ==>
          Placed(p, listed, expanded, coming)
  }

  ghost predicate Placed(p: Path, listed: set<Path>, expanded: set<Path>, coming: set<Path>)
    requires p != []
  {
    p in listed <==> Parent(p) in expanded && p !in coming
  }

  lemma PathsAppend<V>(items: seq<Item<V>>, item: Item<V>)
    ensures Paths(items + [item]) == Paths(items) + {item.path}
  {
    var more := items + [item];
    assert more[|items|] == item;
    forall p | p in Paths(items) ensures p in Paths(more) {
      var i :| 0 <= i < |items| && items[i].path == p;
      assert more[i] == items[i];
    }
  }

  /** One more entry keeps the listing in order, */
  lemma ListingGrows<V>(fs: FileSystem, items: seq<Item<V>>, read: Bytes -> V, p: Path)
    requires IsListing(fs, items, read) && p in fs && p != [] && p !in Paths(items)
    requires Parent(p) in Paths(items) && fs[Parent(p)].Folder?
    ensures IsListing(fs, items + [Item(p, Read(fs[p], read))], read)
  {
    var more := items + [Item(p, Read(fs[p], read))];
    forall j | 0 < j < |more| ensures AfterParent(more, j) {
      if j < |items| {
        assert more[j] == items[j] && AfterParent(items, j);
        var i :| 0 <= i < j && items[i] == Item(Parent(items[j].path), Directory);
        assert more[i] == items[i];
      } else {
        var i :| 0 <= i < |items| && items[i].path == Parent(p);
        assert more[i] == items[i] == Item(Parent(p), Directory);
      }
    }
  }

  /** counts its bytes, */
  lemma BoundsGrow<V>(fs: FileSystem, bounds: Bounds, items: seq<Item<V>>, total: nat, item: Item<V>)
    requires WithinBounds(fs, bounds, items, total)
    requires item.path in fs && item.path != [] && item.path !in Paths(items) && EntryFits(fs, item.path)
    requires |items| < bounds.maxEntries && total + Size(fs[item.path]) <= bounds.maxBytes
    ensures WithinBounds(fs, bounds, items + [item], total + Size(fs[item.path]))
  {
    PathsAppend(items, item);
    TotalTakes(fs, Paths(items) + {item.path}, item.path);
    assert Paths(items) + {item.path} - {item.path} == Paths(items);
  }

  /** and stays on the stack if it is a directory. */
  lemma StackGrows(fs: FileSystem, bounds: Bounds, listed: set<Path>, pending: seq<Path>, expanded: set<Path>, p: Path)
    requires StackCovers(fs, bounds, listed, pending, expanded) && p in fs && p !in listed
    ensures StackCovers(fs, bounds, listed + {p}, if fs[p].Folder? then pending + [p] else pending, expanded)
  {
  }

  lemma ChildrenGrow(fs: FileSystem, listed: set<Path>, expanded: set<Path>, coming: set<Path>, p: Path)
    requires ChildrenListed(fs, listed, expanded, coming) && p in coming && p != [] && Parent(p) in expanded
    ensures ChildrenListed(fs, listed + {p}, expanded, coming - {p})
  {
    forall q | q in fs && q != [] ensures Placed(q, listed + {p}, expanded, coming - {p}) {
      assert Placed(q, listed, expanded, coming);
    }
  }

  /** Too many entries, or too many bytes, among those listed already rule the tree out. */
  lemma TooMany<V>(fs: FileSystem, bounds: Bounds, items: seq<Item<V>>, p: Path)
    requires Distinct(items) && Paths(items) <= fs.Keys && items != [] && p in fs && p !in Paths(items)
    requires |items| >= bounds.maxEntries
    ensures !Admissible(fs, bounds)
  {
    SizeOfPaths(items);
    assert Paths(items) + {p} <= fs.Keys;
    SubsetSize(Paths(items) + {p}, fs.Keys);
  }

  lemma TooLarge(fs: FileSystem, bounds: Bounds, listed: set<Path>, p: Path)
    requires listed <= fs.Keys && p in fs && p !in listed
    requires Total(fs, listed) + Size(fs[p]) > bounds.maxBytes
    ensures !Admissible(fs, bounds)
  {
    TotalTakes(fs, listed + {p}, p);
    assert listed + {p} - {p} == listed;
    TotalGrows(fs, listed + {p}, fs.Keys);
  }

  lemma {:induction false} SizeOfPaths<V>(items: seq<Item<V>>)
    requires Distinct(items)
    ensures |Paths(items)| == |items|
  {
    if items != [] {
      var n := |items| - 1;
      SizeOfPaths(items[..n]);
      assert items == items[..n] + [items[n]];
      PathsAppend(items[..n], items[n]);
    }
  }

  lemma {:induction false} SubsetSize(a: set<Path>, b: set<Path>)
    requires a <= b
    ensures |a| <= |b|
  {
    if a != {} {
      var p :| p in a;
      SubsetSize(a - {p}, b - {p});
    }
  }

  /** An empty stack means that everything was listed. */
  lemma {:induction false} AllListed(fs: FileSystem, listed: set<Path>, expanded: set<Path>, p: Path)
    requires IsTree(fs) && [] in listed && p in fs
    requires ChildrenListed(fs, listed, expanded, {})
    requires forall d :: d in listed && d in fs && fs[d].Folder? ==> d in expanded
    ensures p in listed
    decreases |p|
  {
    if p != [] {
      assert InFolder(fs, p) && Placed(p, listed, expanded, {});
      AllListed(fs, listed, expanded, Parent(p));
    }
  }

  /** What holds of the listing, the stack and the running total while the entries of the last expanded
      directory are still coming. */
  ghost predicate Walking<V>(fs: FileSystem, bounds: Bounds, read: Bytes -> V, items: seq<Item<V>>, pending: seq<Path>,
                             total: nat, expanded: set<Path>, coming: set<Path>)
  {
    && IsListing(fs, items, read) && WithinBounds(fs, bounds, items, total)
    && StackCovers(fs, bounds, Paths(items), pending, expanded)
    && ChildrenListed(fs, Paths(items), expanded, coming)
  }

  ghost predicate Coming(fs: FileSystem, dir: Path, expanded: set<Path>, coming: set<Path>) {
    dir in expanded && coming <= fs.Keys && forall p :: p in coming ==> IsChild(p, dir)
  }

  predicate Fits<V>(fs: FileSystem, bounds: Bounds, items: seq<Item<V>>, total: nat, p: Path)
    requires p in fs && p != []
  {
    |items| < bounds.maxEntries && EntryFits(fs, p) && total + Size(fs[p]) <= bounds.maxBytes
  }

  lemma NotComing<V>(fs: FileSystem, bounds: Bounds, read: Bytes -> V, items: seq<Item<V>>, pending: seq<Path>,
                     total: nat, expanded: set<Path>, coming: set<Path>, dir: Path, p: Path)
    requires Walking(fs, bounds, read, items, pending, total, expanded, coming) && Coming(fs, dir, expanded, coming)
    requires p in coming
    ensures p != [] && p in fs && p !in Paths(items) && dir in Paths(items) && fs[dir].Folder?
  {
    assert IsChild(p, dir) && Placed(p, Paths(items), expanded, coming);
  }

  /** An entry that fits is taken, */
  lemma TakeEntry<V>(fs: FileSystem, bounds: Bounds, read: Bytes -> V, items: seq<Item<V>>, pending: seq<Path>,
                     total: nat, expanded: set<Path>, coming: set<Path>, dir: Path, p: Path)
    requires IsTree(fs) && Walking(fs, bounds, read, items, pending, total, expanded, coming)
            && Coming(fs, dir, expanded, coming)
    requires p in coming && p != [] && Fits(fs, bounds, items, total, p)
    ensures Walking(fs, bounds, read, items + [Item(p, Read(fs[p], read))], if fs[p].Folder? then pending + [p]
            else pending,
                    total + Size(fs[p]), expanded, coming - {p})
  {
    var item := Item(p, Read(fs[p], read));
    NotComing(fs, bounds, read, items, pending, total, expanded, coming, dir, p);
    ListingGrows(fs, items, read, p);
    BoundsGrow(fs, bounds, items, total, item);
    StackGrows(fs, bounds, Paths(items), pending, expanded, p);
    PathsAppend(items, item);
    ChildrenGrow(fs, Paths(items), expanded, coming, p);
  }

  /** and one that does not fit rules the tree out. */
  lemma RefuseEntry<V>(fs: FileSystem, bounds: Bounds, read: Bytes -> V, items: seq<Item<V>>, pending: seq<Path>,
                       total: nat, expanded: set<Path>, coming: set<Path>, dir: Path, p: Path)
    requires IsTree(fs) && Walking(fs, bounds, read, items, pending, total, expanded, coming)
            && Coming(fs, dir, expanded, coming)
    requires p in coming && p != [] && !Fits(fs, bounds, items, total, p)
    ensures !Admissible(fs, bounds)
  {
    NotComing(fs, bounds, read, items, pending, total, expanded, coming, dir, p);
    if |items| >= bounds.maxEntries {
      TooMany(fs, bounds, items, p);
    } else if EntryFits(fs, p) {
      TooLarge(fs, bounds, Paths(items), p);
    }
  }

  /** Lists one directory: its entries go to the listing, its directories on the stack as well. */
  method ListDirectory<V>(fs: FileSystem, bounds: Bounds, read: Bytes -> V, dir: Path,
                          items: seq<Item<V>>, pending: seq<Path>, total: nat, ghost expanded: set<Path>)
    returns (ok: bool, items': seq<Item<V>>, pending': seq<Path>, total': nat)
    requires IsTree(fs) && dir in expanded
    requires Walking(fs, bounds, read, items, pending, total, expanded, set p | p in fs && IsChild(p, dir))
    ensures ok ==> Walking(fs, bounds, read, items', pending', total', expanded, {})
    ensures !ok ==> !Admissible(fs, bounds)
  {
    items', pending', total', ok := items, pending, total, true;
    var coming := set p | p in fs && IsChild(p, dir);
    while coming != {}
      invariant Coming(fs, dir, expanded, coming)
      invariant Walking(fs, bounds, read, items', pending', total', expanded, coming)
      decreases |coming|
    {
      var p :| p in coming;
      assert IsChild(p, dir);
      var node := fs[p];
      if !Fits(fs, bounds, items', total', p) {
        RefuseEntry(fs, bounds, read, items', pending', total', expanded, coming, dir, p);
        return false, items', pending', total';
      }
      TakeEntry(fs, bounds, read, items', pending', total', expanded, coming, dir, p);
      items', total' := items' + [Item(p, Read(node, read))], total' + Size(node);
      if node.Folder? {
        pending' := pending' + [p];
      }
      coming := coming - {p};
    }
  }

  /** Taking a directory off the stack expands it. */
  lemma PopDirectory<V>(fs: FileSystem, bounds: Bounds, read: Bytes -> V, items: seq<Item<V>>, pending: seq<Path>,
                        total: nat, expanded: set<Path>, dir: Path)
    requires Walking(fs, bounds, read, items, pending, total, expanded, {})
    requires pending != [] && dir == pending[|pending| - 1] && |dir| <= bounds.maxDepth
    ensures dir in fs && dir !in expanded
    ensures Walking(fs, bounds, read, items, pending[..|pending| - 1], total, expanded + {dir}, set p | p in fs
            && IsChild(p, dir))
  {
    StackPops(fs, bounds, Paths(items), pending, expanded);
    var kids := set p | p in fs && IsChild(p, dir);
    forall q | q in fs && q != [] ensures Placed(q, Paths(items), expanded + {dir}, kids) {
      assert Placed(q, Paths(items), expanded, {});
    }
  }

  lemma TooDeep<V>(fs: FileSystem, bounds: Bounds, read: Bytes -> V, items: seq<Item<V>>, pending: seq<Path>,
                   total: nat, expanded: set<Path>)
    requires Walking(fs, bounds, read, items, pending, total, expanded, {})
    requires pending != [] && |pending[|pending| - 1]| > bounds.maxDepth
    ensures !Admissible(fs, bounds)
  {
  }

  lemma StartWalking<V>(fs: FileSystem, bounds: Bounds, read: Bytes -> V)
    requires IsTree(fs)
    ensures Walking(fs, bounds, read, [Item([], Directory)], [[]], 0, {}, {})
  {
    var items: seq<Item<V>> := [Item([], Directory)];
    RootOnly(fs, items);
  }

  /** The walk succeeds exactly on the admissible trees, and then lists the whole tree. */
  method MapPrivateTree<V>(fs: FileSystem, bounds: Bounds, read: Bytes -> V) returns (listing: Option<seq<Item<V>>>)
    requires IsTree(fs)
    ensures listing.Some? <==> Admissible(fs, bounds)
    ensures listing.Some? ==> Lists(listing.value, fs, read)
  {
    var items: seq<Item<V>> := [Item([], Directory)];
    var pending: seq<Path>, total := [[]], 0;
    ghost var expanded: set<Path> := {};
    StartWalking(fs, bounds, read);
    while pending != []
      invariant Walking(fs, bounds, read, items, pending, total, expanded, {})
      decreases |fs.Keys - expanded|
    {
      var dir := pending[|pending| - 1];
      if |dir| > bounds.maxDepth {
        TooDeep(fs, bounds, read, items, pending, total, expanded);
        return None;
      }
      PopDirectory(fs, bounds, read, items, pending, total, expanded, dir);
      assert fs.Keys - (expanded + {dir}) == fs.Keys - expanded - {dir};
      expanded := expanded + {dir};
      pending := pending[..|pending| - 1];
      var ok;
      ok, items, pending, total := ListDirectory(fs, bounds, read, dir, items, pending, total, expanded);
      if !ok {
        return None;
      }
    }
    Finished(fs, bounds, read, items, total, expanded);
    return Some(items);
  }

  lemma RootOnly<V>(fs: FileSystem, items: seq<Item<V>>)
    requires IsTree(fs) && items == [Item([], Directory)]
    ensures Paths(items) == {[]} && Total(fs, {[]}) == 0
  {
    assert items[0].path == [];
    TotalTakes(fs, {[]}, []);
  }

  lemma StackPops(fs: FileSystem, bounds: Bounds, listed: set<Path>, pending: seq<Path>, expanded: set<Path>)
    requires StackCovers(fs, bounds, listed, pending, expanded) && pending != []
    requires |pending[|pending| - 1]| <= bounds.maxDepth
    ensures StackCovers(fs, bounds, listed, pending[..|pending| - 1], expanded + {pending[|pending| - 1]})
  {
    var dir, rest := pending[|pending| - 1], pending[..|pending| - 1];
    forall d | d in listed && fs[d].Folder? ensures d in expanded + {dir} || d in rest {
      if d in pending && d != dir {
        var i :| 0 <= i < |pending| && pending[i] == d;
        assert rest[i] == d;
      }
    }
  }

  lemma Finished<V>(fs: FileSystem, bounds: Bounds, read: Bytes -> V, items: seq<Item<V>>, total: nat,
      expanded: set<Path>)
    requires IsTree(fs) && IsListing(fs, items, read) && WithinBounds(fs, bounds, items, total)
    requires StackCovers(fs, bounds, Paths(items), [], expanded) && ChildrenListed(fs, Paths(items), expanded, {})
    ensures Lists(items, fs, read) && Admissible(fs, bounds)
  {
    assert items[0].path in Paths(items);
    forall p | p in fs ensures p in Paths(items) {
      AllListed(fs, Paths(items), expanded, p);
    }
    assert Paths(items) == fs.Keys;
    SizeOfPaths(items);
    assert |fs| == |fs.Keys|;
  }

  /** Paths are spelled with slashes, and no two of them alike. */
  lemma SpelledApart(p: Path, q: Path)
    requires p != [] && q != []
    requires forall i :: 0 <= i < |p| ==> IsName(p[i])
    requires forall i :: 0 <= i < |q| ==> IsName(q[i])
    ensures Text.Join(p, '/') == Text.Join(q, '/') <==> p == q
  {
    NamesAreFree(p);
    NamesAreFree(q);
    Text.SplitJoin(p, '/');
    Text.SplitJoin(q, '/');
  }

  lemma NamesAreFree(p: Path)
    requires forall i :: 0 <= i < |p| ==> IsName(p[i])
    ensures forall i :: 0 <= i < |p| ==> Text.Free(p[i], '/')
  {
  }
}
