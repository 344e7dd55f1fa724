/**
 What an update keeps: it exports the installed connectors and readers, selects for every input the one
 it was given or else the installed one, and generates the next bundle from the selection. The exports
 go to files of their own on the host, and the generator reads them there like any other input. The parts
 of a bundle are proved to stay one by one: runtime, delivery, version control, connectors and readers;
 the last theorem puts them together.
 */
module Retention {
  import opened Values
  import opened PrivateTree
  import opened HostFiles
  import opened Connectors
  import opened IssueReaders
  import opened ServerBundle
  import opened Staging
  import CatalogText
  import CatalogLimits

  // ---------------------------------------------------------------- the selection

  function Or(given: Option<string>, inherited: Option<string>): Option<string> {
    if given.Some? then given else inherited
  }

  /** What was given, and the installed input where nothing was. */
  function Selected(given: Inputs, inherited: Inputs): Inputs {
    Inputs(given.profiles, Or(given.connectors, inherited.connectors), Or(given.readers, inherited.readers),
           Or(given.vcs, inherited.vcs), Or(given.delivery, inherited.delivery), Or(given.runtime, inherited.runtime))
  }

  /** The installed inputs, with the disk on which the exports are written. */
  datatype Inherited = Inherited(inputs: Inputs, disk: Disk)

  predicate Exists(d: Disk, path: string) {
    path in d.files || path in d.trees
  }

  function Existing(d: Disk, dir: string, name: string): Option<string> {
    if Exists(d, Inside(dir, name)) then Some(Inside(dir, name)) else None
  }

  const CONNECTORS_EXPORT: string := "signal-connectors.json"
  const READERS_EXPORT: string := "issue-mcp-readers.json"

  /** The host's files once an export is written. */
  function WithExport(files: Host, path: string, e: Export): Host {
    if e.Written? then files[path := e.contents] else files
  }

  function WrittenTo(e: Export, path: string): Option<string> {
    if e.Written? then Some(path) else None
  }

  /** The effective installation of a bundle; nothing where a catalog is not recognized. */
  function Inherit(d: Disk, dir: string, exports: string, s: Settings): Option<Inherited> {
    var connectors := ExportedConnectors(d.files, dir, s.codec);
    var readers := ExportedReaders(d.files, dir, s.forms);
    if connectors.Invalid? || readers.Invalid? then None
    else
      var first, second := Inside(exports, CONNECTORS_EXPORT), Inside(exports, READERS_EXPORT);
      Some(Inherited(
        Inputs(Existing(d, dir, PROFILES), WrittenTo(connectors, first), WrittenTo(readers, second),
               Existing(d, dir, VCS_CATALOG), Existing(d, dir, DELIVERY), Existing(d, dir, RUNTIME)),
        d.(files := WithExport(WithExport(d.files, first, connectors), second, readers))))
  }

  method InstalledInputs(d: Disk, dir: string, exports: string, s: Settings) returns (r: Option<Inherited>)
    ensures r == Inherit(d, dir, exports, s)
  {
    var first, second := Inside(exports, CONNECTORS_EXPORT), Inside(exports, READERS_EXPORT);
    var profiles, vcs := Existing(d, dir, PROFILES), Existing(d, dir, VCS_CATALOG);
    var delivery, runtime := Existing(d, dir, DELIVERY), Existing(d, dir, RUNTIME);
    var connectors := ExportConnectors(d.files, dir, s.codec);
    if connectors.Invalid? {
      return None;
    }
    var readers := ExportReaders(d.files, dir, s.forms);
    if readers.Invalid? {
      return None;
    }
    var files := WithExport(WithExport(d.files, first, connectors), second, readers);
    var inputs := Inputs(profiles, WrittenTo(connectors, first), WrittenTo(readers, second), vcs, delivery, runtime);
    return Some(Inherited(inputs, d.(files := files)));
  }

  // ---------------------------------------------------------------- the installed bundle on disk

  /** What the host shows at a name of the bundle's directory is what the bundle holds there. */
  ghost predicate Shows(d: Disk, dir: string, bundle: FileSystem, name: string) {
    var path := Inside(dir, name);
    && (path in d.files <==> [name] in bundle && bundle[[name]].Regular?)
    && (path in d.files ==> bundle[[name]].contents == d.files[path])
    && (path in d.trees <==> [name] in bundle && bundle[[name]].Folder?)
    && (path in d.trees ==> forall p :: NodeAt(d.trees[path], p) == NodeAt(bundle, [name] + p))
  }

  /** The directory of the host holds the bundle; the exports go to a new one. */
  ghost predicate Mirrors(d: Disk, dir: string, bundle: FileSystem, exports: string) {
    && IsAbsolute(dir) && (forall name :: IsTop(name) ==> Shows(d, dir, bundle, name))
    && Inside(exports, CONNECTORS_EXPORT) !in d.files && Inside(exports, READERS_EXPORT) !in d.files
  }

  lemma ExportsApart(exports: string)
    ensures Inside(exports, CONNECTORS_EXPORT) != Inside(exports, READERS_EXPORT)
  {
    var a, b := Inside(exports, CONNECTORS_EXPORT), Inside(exports, READERS_EXPORT);
    assert a[|exports| + 1] == 's' && b[|exports| + 1] == 'i';
  }

  lemma ConnectorsHeld(d: Disk, dir: string, exports: string, bundle: FileSystem, files: map<string, Bytes>)
    requires Mirrors(d, dir, bundle, exports)
    requires forall name :: name in files ==> IsSignal(name)
    requires HoldsConnectors(bundle, Part(files))
    ensures Holding(d.files, dir, files)
  {
    forall name | name in files ensures Inside(dir, name) in d.files && d.files[Inside(dir, name)] == files[name] {
      assert NodeAt(bundle, [name]) == Plain(files, name);
      assert Shows(d, dir, bundle, name);
    }
  }

  lemma ReadersHeld(d: Disk, dir: string, exports: string, bundle: FileSystem, r: ReaderBundle)
    requires Mirrors(d, dir, bundle, exports)
    requires forall name :: name in r.files ==> IsReaderFile(name)
    requires HoldsReaders(bundle, Part(r))
    ensures Holding(d.files, dir, r.files)
  {
    forall name | name in r.files ensures Inside(dir, name) in d.files && d.files[Inside(dir, name)] == r.files[name] {
      assert NodeAt(bundle, [name]) == Plain(r.files, name);
      assert Shows(d, dir, bundle, name);
    }
  }

  lemma HoldingStays(files: Host, more: Host, dir: string, held: map<string, Bytes>)
    requires Holding(files, dir, held) && forall path :: path in files ==> path in more && more[path] == files[path]
    ensures Holding(more, dir, held)
  {
  }

  // ---------------------------------------------------------------- what an update reads of the installed bundle

  /** What an update starts from and does: an installed bundle, generated from some inputs some time ago and now on
      the host's disk; the inputs given to the update; and the next bundle, generated from the selection. */
  datatype Case = Case(
    before: Disk, inputs: Inputs, former: Settings, placed: FileSystem,
    now: Disk, dir: string, exports: string,
    given: Inputs, present: Settings, staged: FileSystem)

  function After(c: Case): Option<Inherited> {
    Inherit(c.now, c.dir, c.exports, c.present)
  }

  /** An installed bundle whose catalogs are recognized, and the inputs of an update. */
  ghost predicate Starts(c: Case) {
    && IsSettings(c.former) && IsSettings(c.present)
    && c.former.codec == c.present.codec && c.former.forms == c.present.forms
    && IsDisk(c.before) && IsServerBundle(c.placed, c.before, c.inputs, c.former)
    && Mirrors(c.now, c.dir, c.placed, c.exports)
    && After(c).Some?
  }

  /** The disk on which the next bundle is generated, and the inputs it is generated from. */
  function NextDisk(c: Case): Disk
    requires After(c).Some?
  {
    After(c).value.disk
  }

  function NextInputs(c: Case): Inputs
    requires After(c).Some?
  {
    Selected(c.given, After(c).value.inputs)
  }

  lemma ExportsAreThere(c: Case)
    requires After(c).Some?
    ensures var connectors := ExportedConnectors(c.now.files, c.dir, c.present.codec);
            var readers := ExportedReaders(c.now.files, c.dir, c.present.forms);
            var first, second := Inside(c.exports, CONNECTORS_EXPORT), Inside(c.exports, READERS_EXPORT);
            && (connectors.Written? ==> ReadAt(NextDisk(c).files, first, connectors.contents))
            && (readers.Written? ==> ReadAt(NextDisk(c).files, second, readers.contents))
  {
    ExportsApart(c.exports);
  }

  predicate ReadAt(files: Host, path: string, contents: Bytes) {
    path in files && files[path] == contents
  }

  /** The exports are new files; everything else is as it was. */
  lemma NothingElseChanges(c: Case)
    requires After(c).Some? && Inside(c.exports, CONNECTORS_EXPORT) !in c.now.files
    requires Inside(c.exports, READERS_EXPORT) !in c.now.files
    ensures NextDisk(c).trees == c.now.trees
    ensures forall path :: path in c.now.files ==> ReadAt(NextDisk(c).files, path, c.now.files[path])
  {
  }

  // ---------------------------------------------------------------- the inputs that were not given

  /** The connectors' export, if there is one, fits the limit under which it is read. */
  ghost predicate ConnectorExportFits(c: Case)
    requires !ConnectorPart(c.before, c.inputs, c.former).Refused?
  {
    c.inputs.connectors.Some? ==>
      var cs := c.former.codec.parse(c.before.files[c.inputs.connectors.value]).value;
      |c.present.codec.render(Pointing(cs, In(c.dir)))| <= MAX_CATALOG_BYTES
  }

  ghost predicate ReaderExportFits(c: Case)
    requires !ReaderPart(c.before, c.inputs, c.former).Refused?
  {
    c.inputs.readers.Some? ==>
      var bundle := InstallReaders(c.before.files, c.inputs.readers.value, c.former.forms).value;
      |c.present.forms.render(ReadersPointing(bundle.installed, In(c.dir)))| < MAX_CATALOG_BYTES
  }

  /** Readers' exports always fit, below every path that leaves room for them. */
  lemma ReaderExportsFit(c: Case)
    requires Starts(c) && CatalogLimits.AreJsonForms(c.former.forms)
    requires |CatalogText.Escape(c.dir)| <= CatalogLimits.PATH_ROOM
    ensures ReaderExportFits(c)
  {
    if c.inputs.readers.Some? {
      CatalogLimits.ReadersFit(c.before.files, c.inputs.readers.value, c.former.forms, c.dir);
    }
  }

  lemma NoConnectorsStay(c: Case)
    requires Starts(c) && c.inputs.connectors.None?
    ensures After(c).value.inputs.connectors.None?
  {
    CatalogIsSignal();
    assert NodeAt(c.placed, [CONNECTOR_CATALOG]) == None;
    assert Shows(c.now, c.dir, c.placed, CONNECTOR_CATALOG);
  }

  lemma ConnectorsAreExported(c: Case, files: map<string, Bytes>)
    requires Starts(c) && c.inputs.connectors.Some?
    requires InstallConnectors(c.before.files, c.inputs.connectors.value, c.former.codec) == Some(files)
    ensures Holding(NextDisk(c).files, c.dir, files)
    ensures var cs := c.former.codec.parse(c.before.files[c.inputs.connectors.value]).value;
            var target := Inside(c.exports, CONNECTORS_EXPORT);
            && After(c).value.inputs.connectors == Some(target)
            && ReadAt(NextDisk(c).files, target, c.present.codec.render(Pointing(cs, In(c.dir))))
  {
    var host, path := c.before.files, c.inputs.connectors.value;
    FilesAreSignals(host, c.former.codec.parse(host[path]).value, c.former.codec);
    ConnectorsHeld(c.now, c.dir, c.exports, c.placed, files);
    Connectors.InstalledIsExported(host, path, c.now.files, c.dir, c.former.codec);
    ExportsAreThere(c);
    NothingElseChanges(c);
    HoldingStays(c.now.files, NextDisk(c).files, c.dir, files);
  }

  /** Connectors that were not given are read again as they were installed, exactly if their export fits. */
  lemma ConnectorPartNext(c: Case)
    requires Starts(c) && c.given.connectors.None?
    ensures ConnectorPart(NextDisk(c), NextInputs(c), c.present) ==
            if ConnectorExportFits(c) then ConnectorPart(c.before, c.inputs, c.former) else Refused
  {
    if c.inputs.connectors.None? {
      NoConnectorsStay(c);
    } else {
      var host, path := c.before.files, c.inputs.connectors.value;
      ConnectorsAreExported(c, InstallConnectors(host, path, c.former.codec).value);
      Connectors.ExportReinstalls(host, path, NextDisk(c).files, c.dir, Inside(c.exports, CONNECTORS_EXPORT),
                                  c.former.codec);
    }
  }

  lemma NoReadersStay(c: Case)
    requires Starts(c) && c.inputs.readers.None?
    ensures After(c).value.inputs.readers.None?
  {
    CatalogIsReaderFile();
    assert NodeAt(c.placed, [READER_CATALOG]) == None;
    assert Shows(c.now, c.dir, c.placed, READER_CATALOG);
  }

  lemma ReadersAreExported(c: Case, bundle: ReaderBundle)
    requires Starts(c) && c.inputs.readers.Some?
    requires InstallReaders(c.before.files, c.inputs.readers.value, c.former.forms) == Some(bundle)
    ensures Holding(NextDisk(c).files, c.dir, bundle.files)
    ensures var target := Inside(c.exports, READERS_EXPORT);
            && After(c).value.inputs.readers == Some(target)
            && ReadAt(NextDisk(c).files, target,
                      c.present.forms.render(ReadersPointing(bundle.installed, In(c.dir))) + "\n")
  {
    var host, path := c.before.files, c.inputs.readers.value;
    FilesAreReaderFiles(host, c.former.forms.parse(host[path]).value, c.former.forms);
    ReadersHeld(c.now, c.dir, c.exports, c.placed, bundle);
    IssueReaders.InstalledIsExported(host, path, c.now.files, c.dir, c.former.forms);
    ExportsAreThere(c);
    NothingElseChanges(c);
    HoldingStays(c.now.files, NextDisk(c).files, c.dir, bundle.files);
  }

  /** The same of Issue MCP readers, */
  lemma ReaderPartNext(c: Case)
    requires Starts(c) && c.given.readers.None?
    ensures ReaderPart(NextDisk(c), NextInputs(c), c.present) ==
            if ReaderExportFits(c) then ReaderPart(c.before, c.inputs, c.former) else Refused
  {
    if c.inputs.readers.None? {
      NoReadersStay(c);
    } else {
      var host, path := c.before.files, c.inputs.readers.value;
      ReadersAreExported(c, InstallReaders(host, path, c.former.forms).value);
      IssueReaders.ExportReinstalls(host, path, NextDisk(c).files, c.dir, Inside(c.exports, READERS_EXPORT),
                                    c.former.forms);
    }
  }

  lemma VcsIsThere(c: Case)
    requires Starts(c)
    ensures var path, part := Inside(c.dir, VCS_CATALOG), VcsPart(c.before, c.inputs, c.former);
            && After(c).value.inputs.vcs == (if part.Part? then Some(path) else None)
            && (part.Part? ==> ReadAt(NextDisk(c).files, path, part.value))
  {
    NothingElseChanges(c);
    assert HoldsFile(c.placed, VCS_CATALOG, VcsPart(c.before, c.inputs, c.former));
    VcsIsTop();
    assert Shows(c.now, c.dir, c.placed, VCS_CATALOG);
  }

  lemma VcsIsTop()
    ensures IsTop(VCS_CATALOG)
  {
  }

  /** of the VCS catalog, if it is still valid, */
  lemma VcsPartNext(c: Case)
    requires Starts(c) && c.given.vcs.None?
    ensures var part := VcsPart(c.before, c.inputs, c.former);
            VcsPart(NextDisk(c), NextInputs(c), c.present) ==
            if part.Part? && c.present.vcsRows(part.value).None? then Refused else part
  {
    VcsIsThere(c);
  }

  lemma TreeIsThere(c: Case, name: string, part: Part<FileSystem>)
    requires Mirrors(c.now, c.dir, c.placed, c.exports) && IsTop(name)
    requires HoldsTree(c.placed, name, part) && !part.Refused? && (part.Part? ==> IsTree(part.value))
    ensures var path := Inside(c.dir, name);
            && Existing(c.now, c.dir, name) == (if part.Part? then Some(path) else None)
            && (part.Part? ==> path in c.now.trees && c.now.trees[path] == part.value)
  {
    assert Shows(c.now, c.dir, c.placed, name);
    assert [name] + [] == [name];
    assert NodeAt(c.placed, [name] + []) == if part.Part? then NodeAt(part.value, []) else None;
    if part.Part? {
      SameTree(c.now.trees[Inside(c.dir, name)], part.value, c.placed, name);
    }
  }

  lemma SameTree(a: FileSystem, b: FileSystem, whole: FileSystem, name: string)
    requires forall p :: NodeAt(a, p) == NodeAt(whole, [name] + p)
    requires forall p :: NodeAt(whole, [name] + p) == NodeAt(b, p)
    ensures a == b
  {
    forall p ensures NodeAt(a, p) == NodeAt(b, p) {
      assert NodeAt(a, p) == NodeAt(whole, [name] + p);
    }
    assert forall p :: p in a ==> NodeAt(a, p) == NodeAt(b, p);
    assert forall p :: p in b ==> NodeAt(a, p) == NodeAt(b, p);
  }

  /** and of the two installations. */
  lemma TreePartNext(c: Case, name: string, input: Option<string>)
    requires Starts(c) && IsTop(name) && HoldsTree(c.placed, name, TreePart(c.before, input))
    requires !TreePart(c.before, input).Refused?
    ensures TreePart(NextDisk(c), Existing(c.now, c.dir, name)) == TreePart(c.before, input)
  {
    TreeIsThere(c, name, TreePart(c.before, input));
    NothingElseChanges(c);
  }

  lemma TreePartsNext(c: Case)
    requires Starts(c)
    ensures c.given.delivery.None? ==>
      TreePart(NextDisk(c), NextInputs(c).delivery) == TreePart(c.before, c.inputs.delivery)
    ensures c.given.runtime.None? ==>
      TreePart(NextDisk(c), NextInputs(c).runtime) == TreePart(c.before, c.inputs.runtime)
  {
    TreesAreTop();
    TreePartNext(c, DELIVERY, c.inputs.delivery);
    TreePartNext(c, RUNTIME, c.inputs.runtime);
  }

  lemma TreesAreTop()
    ensures IsTop(DELIVERY) && IsTop(RUNTIME)
  {
  }

  // ---------------------------------------------------------------- every omitted input is accepted again

  /** An update is refused only for what it was given, or for an export that does not fit: what is installed is
      otherwise accepted again. */
  lemma OmittedAreAccepted(c: Case)
    requires Starts(c) && c.given.profiles.Some? && c.former.vcsRows == c.present.vcsRows
    ensures Accepts(NextDisk(c), NextInputs(c), c.present) <==>
      && Accepts(NextDisk(c), c.given, c.present)
      && (c.given.connectors.None? ==> ConnectorExportFits(c)) && (c.given.readers.None? ==> ReaderExportFits(c))
  {
    ConnectorsAccepted(c);
    ReadersAccepted(c);
    VcsAccepted(c);
    TreesAccepted(c);
    AcceptedTogether(NextDisk(c), NextInputs(c), c.given, c.present,
                     c.given.connectors.None? && !ConnectorExportFits(c),
                     c.given.readers.None? && !ReaderExportFits(c));
  }

  /** Two selections with the same profiles are accepted alike, but for what one of them refuses in addition. */
  lemma AcceptedTogether(d: Disk, i: Inputs, j: Inputs, s: Settings, connectors: bool, readers: bool)
    requires i.profiles == j.profiles && i.profiles.Some?
    requires ConnectorPart(d, i, s).Refused? <==> ConnectorPart(d, j, s).Refused? || connectors
    requires ReaderPart(d, i, s).Refused? <==> ReaderPart(d, j, s).Refused? || readers
    requires VcsPart(d, i, s).Refused? <==> VcsPart(d, j, s).Refused?
    requires TreePart(d, i.delivery).Refused? <==> TreePart(d, j.delivery).Refused?
    requires TreePart(d, i.runtime).Refused? <==> TreePart(d, j.runtime).Refused?
    ensures Accepts(d, i, s) <==> Accepts(d, j, s) && !connectors && !readers
  {
    assert ProfilePart(d, i, s) == ProfilePart(d, j, s);
  }

  lemma TreesAccepted(c: Case)
    requires Starts(c)
    ensures TreePart(NextDisk(c), NextInputs(c).delivery).Refused? <==> TreePart(NextDisk(c), c.given.delivery).Refused?
    ensures TreePart(NextDisk(c), NextInputs(c).runtime).Refused? <==> TreePart(NextDisk(c), c.given.runtime).Refused?
  {
    TreePartsNext(c);
  }

  lemma ConnectorsAccepted(c: Case)
    requires Starts(c)
    ensures ConnectorPart(NextDisk(c), NextInputs(c), c.present).Refused? <==>
            if c.given.connectors.None? then !ConnectorExportFits(c)
            else ConnectorPart(NextDisk(c), c.given, c.present).Refused?
  {
    if c.given.connectors.None? {
      ConnectorPartNext(c);
    }
  }

  lemma ReadersAccepted(c: Case)
    requires Starts(c)
    ensures ReaderPart(NextDisk(c), NextInputs(c), c.present).Refused? <==>
            if c.given.readers.None? then !ReaderExportFits(c)
            else ReaderPart(NextDisk(c), c.given, c.present).Refused?
  {
    if c.given.readers.None? {
      ReaderPartNext(c);
    }
  }

  lemma VcsAccepted(c: Case)
    requires Starts(c) && c.former.vcsRows == c.present.vcsRows
    ensures VcsPart(NextDisk(c), NextInputs(c), c.present).Refused? <==>
            VcsPart(NextDisk(c), c.given, c.present).Refused?
  {
    if c.given.vcs.None? {
      VcsPartNext(c);
    }
  }

  // ---------------------------------------------------------------- every omitted input is retained

  ghost predicate IsCase(c: Case) {
    Starts(c) && IsServerBundle(c.staged, NextDisk(c), NextInputs(c), c.present)
  }

  /** An update without connectors of its own keeps the installed ones, byte for byte, and has none where none
      were installed. */
  lemma ConnectorsStay(c: Case, name: string)
    requires IsCase(c) && c.given.connectors.None? && IsSignal(name)
    ensures NodeAt(c.staged, [name]) == NodeAt(c.placed, [name])
  {
    ConnectorPartNext(c);
  }

  /** The same of Issue MCP readers, */
  lemma ReadersStay(c: Case, name: string)
    requires IsCase(c) && c.given.readers.None? && IsReaderFile(name)
    ensures NodeAt(c.staged, [name]) == NodeAt(c.placed, [name])
  {
    ReaderPartNext(c);
  }

  /** of the VCS catalog, */
  lemma VcsStays(c: Case)
    requires IsCase(c) && c.given.vcs.None?
    ensures NodeAt(c.staged, [VCS_CATALOG]) == NodeAt(c.placed, [VCS_CATALOG])
  {
    VcsPartNext(c);
    FileStays(c.staged, c.placed, VCS_CATALOG, VcsPart(c.before, c.inputs, c.former));
  }

  lemma FileStays(a: FileSystem, b: FileSystem, name: string, part: Part<Bytes>)
    requires HoldsFile(a, name, part) && HoldsFile(b, name, part)
    ensures NodeAt(a, [name]) == NodeAt(b, [name])
  {
  }

  /** of the delivery installation, */
  lemma DeliveryStays(c: Case, p: Path)
    requires IsCase(c) && c.given.delivery.None?
    ensures NodeAt(c.staged, [DELIVERY] + p) == NodeAt(c.placed, [DELIVERY] + p)
  {
    TreePartsNext(c);
    TreeStays(c.staged, c.placed, DELIVERY, TreePart(c.before, c.inputs.delivery), p);
  }

  /** and of the runtime installation, entry for entry. */
  lemma RuntimeStays(c: Case, p: Path)
    requires IsCase(c) && c.given.runtime.None?
    ensures NodeAt(c.staged, [RUNTIME] + p) == NodeAt(c.placed, [RUNTIME] + p)
  {
    TreePartsNext(c);
    TreeStays(c.staged, c.placed, RUNTIME, TreePart(c.before, c.inputs.runtime), p);
  }

  lemma TreeStays(a: FileSystem, b: FileSystem, name: string, part: Part<FileSystem>, p: Path)
    requires HoldsTree(a, name, part) && HoldsTree(b, name, part)
    ensures NodeAt(a, [name] + p) == NodeAt(b, [name] + p)
  {
  }

  /** The names of a bundle that belong to an input which the update was not given. */
  predicate Omitted(given: Inputs, p: Path) {
    && p != []
    && (|| (given.connectors.None? && |p| == 1 && IsSignal(p[0]))
        || (given.readers.None? && |p| == 1 && IsReaderFile(p[0]))
        || (given.vcs.None? && p == [VCS_CATALOG])
        || (given.delivery.None? && p[0] == DELIVERY)
        || (given.runtime.None? && p[0] == RUNTIME))
  }

  lemma OmittedStay(c: Case, p: Path)
    requires IsCase(c) && Omitted(c.given, p)
    ensures NodeAt(c.staged, p) == NodeAt(c.placed, p)
  {
    assert p == [p[0]] + p[1..] && (|p| == 1 ==> p == [p[0]]);
    if c.given.connectors.None? && |p| == 1 && IsSignal(p[0]) {
      ConnectorsStay(c, p[0]);
    } else if c.given.readers.None? && |p| == 1 && IsReaderFile(p[0]) {
      ReadersStay(c, p[0]);
    } else if c.given.vcs.None? && p == [VCS_CATALOG] {
      VcsStays(c);
    } else if c.given.delivery.None? && p[0] == DELIVERY {
      DeliveryStays(c, p[1..]);
    } else {
      RuntimeStays(c, p[1..]);
    }
  }

  /** What the generator publishes can be staged: the server's file is in it. */
  lemma BundleIsGenerated(g: Generated, d: Disk, i: Inputs, s: Settings)
    requires IsServerBundle(g.bundle, d, i, s)
    ensures IsGenerated(g) && g.bundle[["server.toml"]].contents == ServerFile(d, i, s)
  {
    assert NodeAt(g.bundle, [SERVER_FILE]) == Some(Regular(false, ServerFile(d, i, s)));
  }

  /** In the configuration that the update stages, every file of an input it was not given is the installed one,
      byte for byte, whatever else changes; and what was not installed stays absent. */
  lemma OmittedInputsAreRetained(c: Case, original: FileSystem, g: Generated, isIntegration: Bytes -> bool, p: Path)
    requires IsCase(c) && Omitted(c.given, p)
    requires g.bundle == c.staged && Stageable(original, original, isIntegration)
    requires forall q :: NodeAt(original, ["server"] + q) == NodeAt(c.placed, q)
    ensures IsGenerated(g)
    ensures var next := NextTree(original, original, g, isIntegration);
            NodeAt(next, ["server"] + p) == NodeAt(original, ["server"] + p)
  {
    OmittedStay(c, p);
    BundleIsGenerated(g, NextDisk(c), NextInputs(c), c.present);
    NextMeets(original, original, g, isIntegration);
    var q := ["server"] + p;
    assert InServer(q) && q[1..] == p;
    assert Same(NextTree(original, original, g, isIntegration), q, g.bundle, q[1..]);
  }

  // ---------------------------------------------------------------- the next bundle, and when there is one

  /** Selects and generates: there is a next bundle exactly when both catalogs are recognized and every selected
      input is valid. */
  method NextBundle(d: Disk, dir: string, exports: string, given: Inputs, s: Settings)
    returns (bundle: Option<FileSystem>)
    requires IsDisk(d) && IsSettings(s)
    ensures bundle.Some? <==>
      && Inherit(d, dir, exports, s).Some?
      && var after := Inherit(d, dir, exports, s).value; Accepts(after.disk, Selected(given, after.inputs), s)
    ensures bundle.Some? ==>
      var after := Inherit(d, dir, exports, s).value;
      IsServerBundle(bundle.value, after.disk, Selected(given, after.inputs), s)
  {
    var inherited := InstalledInputs(d, dir, exports, s);
    if inherited.None? {
      return None;
    }
    var disk := inherited.value.disk;
    assert disk.trees == d.trees;
    bundle := GenerateServer(disk, Selected(given, inherited.value.inputs), s);
  }

  /** The catalogs of an installed bundle are recognized exactly when each fits the size limit that was not
      checked when it was written. */
  lemma InheritsExactly(before: Disk, inputs: Inputs, s: Settings, placed: FileSystem, now: Disk, dir: string,
      exports: string)
    requires IsSettings(s) && IsServerBundle(placed, before, inputs, s) && Mirrors(now, dir, placed, exports)
    ensures Inherit(now, dir, exports, s).Some? <==> ConnectorsFit(before, inputs, s) && ReadersFit(before, inputs, s)
  {
    ConnectorExport(before, inputs, s, placed, now, dir, exports);
    ReaderExport(before, inputs, s, placed, now, dir, exports);
  }

  ghost predicate ConnectorsFit(before: Disk, inputs: Inputs, s: Settings)
    requires !ConnectorPart(before, inputs, s).Refused?
  {
    inputs.connectors.Some? ==>
      var cs := s.codec.parse(before.files[inputs.connectors.value]).value;
      |s.codec.render(Pointing(cs, Runtime))| < MAX_CATALOG_BYTES
  }

  ghost predicate ReadersFit(before: Disk, inputs: Inputs, s: Settings)
    requires !ReaderPart(before, inputs, s).Refused?
  {
    inputs.readers.Some? ==>
      |s.forms.render(InstallReaders(before.files, inputs.readers.value, s.forms).value.installed)| < MAX_CATALOG_BYTES
  }

  lemma ConnectorExport(before: Disk, inputs: Inputs, s: Settings, placed: FileSystem, now: Disk, dir: string,
      exports: string)
    requires IsSettings(s) && !ConnectorPart(before, inputs, s).Refused?
    requires HoldsConnectors(placed, ConnectorPart(before, inputs, s)) && Mirrors(now, dir, placed, exports)
    ensures ExportedConnectors(now.files, dir, s.codec).Invalid? <==> !ConnectorsFit(before, inputs, s)
  {
    if inputs.connectors.None? {
      CatalogIsSignal();
      assert NodeAt(placed, [CONNECTOR_CATALOG]) == None;
      assert Shows(now, dir, placed, CONNECTOR_CATALOG);
    } else {
      var host, path := before.files, inputs.connectors.value;
      FilesAreSignals(host, s.codec.parse(host[path]).value, s.codec);
      ConnectorsHeld(now, dir, exports, placed, InstallConnectors(host, path, s.codec).value);
      Connectors.InstalledIsExported(host, path, now.files, dir, s.codec);
    }
  }

  lemma ReaderExport(before: Disk, inputs: Inputs, s: Settings, placed: FileSystem, now: Disk, dir: string,
      exports: string)
    requires IsSettings(s) && !ReaderPart(before, inputs, s).Refused?
    requires HoldsReaders(placed, ReaderPart(before, inputs, s)) && Mirrors(now, dir, placed, exports)
    ensures ExportedReaders(now.files, dir, s.forms).Invalid? <==> !ReadersFit(before, inputs, s)
  {
    if inputs.readers.None? {
      CatalogIsReaderFile();
      assert NodeAt(placed, [READER_CATALOG]) == None;
      assert Shows(now, dir, placed, READER_CATALOG);
    } else {
      var host, path := before.files, inputs.readers.value;
      FilesAreReaderFiles(host, s.forms.parse(host[path]).value, s.forms);
      ReadersHeld(now, dir, exports, placed, InstallReaders(host, path, s.forms).value);
      IssueReaders.InstalledIsExported(host, path, now.files, dir, s.forms);
    }
  }
}
