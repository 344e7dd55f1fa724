/**
 The server bundle: the generator reads the inputs that were selected, puts their files together with
 the rendered configuration, and publishes the whole. What each kind of input contributes to the
 bundle is told by the names that belong to it.
 */
module ServerBundle {
  import opened Values
  import opened PrivateTree
  import opened Bundles
  import opened HostFiles
  import opened Connectors
  import opened IssueReaders

  const MAX_VCS_BYTES: nat := 1024 * 1024
  const VCS_CATALOG: string := "vcs-integrations.json"
  const PROFILES: string := "factory-profiles.json"
  const DELIVERY: string := "factory-delivery"
  const RUNTIME: string := "factory-runtime"

  /** The private files and the directories of the host, by absolute path. */
  datatype Disk = Disk(files: Host, trees: map<string, FileSystem>)

  /** The paths of the inputs; all are optional. */
  datatype Inputs = Inputs(profiles: Option<string>, connectors: Option<string>, readers: Option<string>,
                           vcs: Option<string>, delivery: Option<string>, runtime: Option<string>)

  /** How the generator renders what it does not copy: the server's file from the kinds of input there are, rows
      for readers and for VCS integrations, and the two files that no input bears on. */
  datatype Settings = Settings(
    toml: (bool, bool) -> Bytes, url: Bytes, policy: Bytes,
    profilesValid: Bytes -> bool,
    readerRows: seq<Reader> -> Bytes, vcsRows: Bytes -> Option<(Bytes, Bytes)>,
    codec: Codec, forms: Forms)

  ghost predicate IsSettings(s: Settings) {
    && (forall a, b :: s.toml(a, b) != "") && s.url != "" && s.policy != ""
    && IsCodec(s.codec.render, s.codec.parse) && AreForms(s.forms)
  }

  /** Directories hold trees. */
  ghost predicate IsDisk(d: Disk) {
    forall path :: path in d.trees ==> IsTree(d.trees[path])
  }

  // ---------------------------------------------------------------- what the inputs come to

  /** Without an input there is nothing; with one there is what it comes to, or a refusal. */
  datatype Part<T> = NotGiven | Refused | Part(value: T)

  function ConnectorPart(d: Disk, i: Inputs, s: Settings): Part<map<string, Bytes>> {
    if i.connectors.None? then NotGiven
    else
      match InstallConnectors(d.files, i.connectors.value, s.codec)
      case None => Refused
      case Some(files) => Part(files)
  }

  function ReaderPart(d: Disk, i: Inputs, s: Settings): Part<ReaderBundle> {
    if i.readers.None? then NotGiven
    else
      match InstallReaders(d.files, i.readers.value, s.forms)
      case None => Refused
      case Some(bundle) => Part(bundle)
  }

  function VcsPart(d: Disk, i: Inputs, s: Settings): Part<Bytes> {
    if i.vcs.None? then NotGiven
    else
      match ReadFile(d.files, i.vcs.value, MAX_VCS_BYTES)
      case None => Refused
      case Some(contents) => if s.vcsRows(contents).Some? then Part(contents) else Refused
  }

  function ProfilePart(d: Disk, i: Inputs, s: Settings): Part<Bytes> {
    if i.profiles.None? then NotGiven
    else
      match ReadFile(d.files, i.profiles.value, MAX_CATALOG_BYTES)
      case None => Refused
      case Some(contents) => if s.profilesValid(contents) then Part(contents) else Refused
  }

  ghost function TreePart(d: Disk, path: Option<string>): Part<FileSystem> {
    if path.None? then NotGiven
    else if path.value in d.trees && Admissible(d.trees[path.value], EXECUTABLE_BOUNDS) then Part(d.trees[path.value])
    else Refused
  }

  // ---------------------------------------------------------------- what the bundle holds

  const SERVER_FILE: string := "server.toml"
  const URL_FILE: string := "postgres-url"
  const POLICY_FILE: string := "job-spec-policy.json"

  predicate IsFixed(name: string) {
    name == SERVER_FILE || name == URL_FILE || name == POLICY_FILE || name == PROFILES || name == VCS_CATALOG
  }

  /** The server's file: rendered, with the rows of the readers behind it, between the rows of the VCS catalog. */
  function ServerText(s: Settings, factory: bool, signals: bool, readers: Part<ReaderBundle>, vcs: Part<Bytes>): Bytes {
    var toml := s.toml(factory, signals) + if readers.Part? then s.readerRows(readers.value.installed) else "";
    if vcs.Part? && s.vcsRows(vcs.value).Some? then
      s.vcsRows(vcs.value).value.0 + toml + s.vcsRows(vcs.value).value.1
    else toml
  }

  function ServerFile(d: Disk, i: Inputs, s: Settings): Bytes {
    ServerText(s, ProfilePart(d, i, s).Part?, ConnectorPart(d, i, s).Part?, ReaderPart(d, i, s), VcsPart(d, i, s))
  }

  function NodeAt(fs: FileSystem, p: Path): Option<Node> {
    if p in fs then Some(fs[p]) else None
  }

  function Plain(files: map<string, Bytes>, name: string): Option<Node> {
    if name in files then Some(Regular(false, files[name])) else None
  }

  ghost predicate HoldsConnectors(fs: FileSystem, part: Part<map<string, Bytes>>) {
    forall name :: IsSignal(name) ==> NodeAt(fs, [name]) == if part.Part? then Plain(part.value, name) else None
  }

  ghost predicate HoldsReaders(fs: FileSystem, part: Part<ReaderBundle>) {
    forall name :: IsReaderFile(name) ==>
      NodeAt(fs, [name]) == if part.Part? then Plain(part.value.files, name) else None
  }

  predicate HoldsFile(fs: FileSystem, name: string, part: Part<Bytes>) {
    NodeAt(fs, [name]) == if part.Part? then Some(Regular(false, part.value)) else None
  }

  ghost predicate HoldsTree(fs: FileSystem, name: string, part: Part<FileSystem>) {
    forall p :: NodeAt(fs, [name] + p) == if part.Part? then NodeAt(part.value, p) else None
  }

  /** The files that every bundle has. */
  ghost predicate HoldsFixed(fs: FileSystem, d: Disk, i: Inputs, s: Settings) {
    && HoldsFile(fs, SERVER_FILE, Part(ServerFile(d, i, s)))
    && HoldsFile(fs, URL_FILE, Part(s.url)) && HoldsFile(fs, POLICY_FILE, Part(s.policy))
  }

  predicate IsKnown(name: string) {
    IsSignal(name) || IsReaderFile(name) || IsFixed(name) || name == DELIVERY || name == RUNTIME
  }

  ghost predicate HoldsNothingElse(fs: FileSystem) {
    forall p :: p in fs && p != [] ==> IsKnown(p[0])
  }

  /** The bundle holds the rendered files and what each input contributes, and nothing else. */
  ghost predicate IsServerBundle(fs: FileSystem, d: Disk, i: Inputs, s: Settings) {
    && IsTree(fs) && HoldsFixed(fs, d, i, s) && HoldsNothingElse(fs)
    && !ConnectorPart(d, i, s).Refused? && HoldsConnectors(fs, ConnectorPart(d, i, s))
    && !ReaderPart(d, i, s).Refused? && HoldsReaders(fs, ReaderPart(d, i, s))
    && !VcsPart(d, i, s).Refused? && HoldsFile(fs, VCS_CATALOG, VcsPart(d, i, s))
    && !ProfilePart(d, i, s).Refused? && HoldsFile(fs, PROFILES, ProfilePart(d, i, s))
    && !TreePart(d, i.delivery).Refused? && HoldsTree(fs, DELIVERY, TreePart(d, i.delivery))
    && !TreePart(d, i.runtime).Refused? && HoldsTree(fs, RUNTIME, TreePart(d, i.runtime))
  }

  /** The inputs that the generator accepts: each one valid, and none of the Factory's without a profile. */
  ghost predicate Accepts(d: Disk, i: Inputs, s: Settings) {
    && (i.connectors.Some? || i.delivery.Some? || i.runtime.Some? || i.readers.Some? ==> i.profiles.Some?)
    && !ProfilePart(d, i, s).Refused? && !ConnectorPart(d, i, s).Refused? && !ReaderPart(d, i, s).Refused?
    && !VcsPart(d, i, s).Refused? && !TreePart(d, i.delivery).Refused? && !TreePart(d, i.runtime).Refused?
  }

  // ---------------------------------------------------------------- the plain files

  /** The names of the five fixed files and of the two installations belong to no numbered input. */
  lemma FixedApart(name: string)
    requires IsFixed(name) || name == DELIVERY || name == RUNTIME
    ensures !IsSignal(name) && !IsReaderFile(name) && !(IsFixed(name) && (name == DELIVERY || name == RUNTIME))
  {
    assert DELIVERY[8] == 'd' && RUNTIME[8] == 'r' && PROFILES[8] == 'p';
    assert "factory-signal-"[8] == 's' && "factory-issue-mcp-"[8] == 'i';
    assert SERVER_FILE[0] == 's' && URL_FILE[0] == 'p' && POLICY_FILE[0] == 'j' && VCS_CATALOG[0] == 'v';
    assert "factory-signal-"[0] == 'f' && "factory-issue-mcp-"[0] == 'f';
  }

  lemma KindsApart(name: string)
    ensures !(IsSignal(name) && IsReaderFile(name))
  {
    assert "factory-signal-"[8] == 's' && "factory-issue-mcp-"[8] == 'i';
  }

  /** Every plain file is the one of its input, not empty, and none has the name of an installation. */
  ghost predicate IsFlat(files: map<string, Bytes>, d: Disk, i: Inputs, s: Settings) {
    && (forall name :: IsSignal(name) ==>
          Plain(files, name) == var part := ConnectorPart(d, i, s); if part.Part? then Plain(part.value, name)
                else None)
    && (forall name :: IsReaderFile(name) ==>
          Plain(files, name) == var part := ReaderPart(d, i, s); if part.Part? then Plain(part.value.files, name)
                else None)
    && Plain(files, VCS_CATALOG) == AsPlain(VcsPart(d, i, s)) && Plain(files, PROFILES) == AsPlain(ProfilePart(d, i, s))
    && Plain(files, SERVER_FILE) == Some(Regular(false, ServerFile(d, i, s)))
    && Plain(files, URL_FILE) == Some(Regular(false, s.url))
    && Plain(files, POLICY_FILE) == Some(Regular(false, s.policy))
    && (forall name :: name in files ==> files[name] != "" && (IsSignal(name) || IsReaderFile(name) || IsFixed(name)))
  }

  function AsPlain(part: Part<Bytes>): Option<Node> {
    if part.Part? then Some(Regular(false, part.value)) else None
  }

  /** The names and the contents of a part of the plain files. */
  ghost predicate OnlySignals(files: map<string, Bytes>) {
    forall name :: name in files ==> IsSignal(name) && files[name] != ""
  }

  ghost predicate OnlyReaderFiles(files: map<string, Bytes>) {
    forall name :: name in files ==> IsReaderFile(name) && files[name] != ""
  }

  ghost predicate OnlyFixed(files: map<string, Bytes>) {
    forall name :: name in files ==> IsFixed(name) && files[name] != ""
  }

  lemma PartsAreKind(d: Disk, i: Inputs, s: Settings)
    requires IsSettings(s)
    ensures ConnectorPart(d, i, s).Part? ==> OnlySignals(ConnectorPart(d, i, s).value)
    ensures ReaderPart(d, i, s).Part? ==> OnlyReaderFiles(ReaderPart(d, i, s).value.files)
  {
    if ConnectorPart(d, i, s).Part? {
      FilesAreSignals(d.files, s.codec.parse(d.files[i.connectors.value]).value, s.codec);
    }
    if ReaderPart(d, i, s).Part? {
      FilesAreReaderFiles(d.files, s.forms.parse(d.files[i.readers.value]).value, s.forms);
    }
  }

  /** Fixed files, connector files and reader files do not get in each other's way. */
  lemma TogetherAt(fixed: map<string, Bytes>, signals: map<string, Bytes>, readers: map<string, Bytes>, name: string)
    requires OnlyFixed(fixed) && OnlySignals(signals) && OnlyReaderFiles(readers)
    ensures var all := fixed + signals + readers;
            && (IsSignal(name) ==> Plain(all, name) == Plain(signals, name))
            && (IsReaderFile(name) ==> Plain(all, name) == Plain(readers, name))
            && (IsFixed(name) ==> Plain(all, name) == Plain(fixed, name))
            && (name in all ==> all[name] != "" && (IsSignal(name) || IsReaderFile(name) || IsFixed(name)))
  {
    KindsApart(name);
    if IsFixed(name) {
      FixedApart(name);
    }
  }

  lemma TogetherAreFlat(fixed: map<string, Bytes>, signals: map<string, Bytes>, readers: map<string, Bytes>,
                        d: Disk, i: Inputs, s: Settings)
    requires OnlyFixed(fixed) && OnlySignals(signals) && OnlyReaderFiles(readers)
    requires signals == SignalFiles(ConnectorPart(d, i, s)) && readers == ReaderFiles(ReaderPart(d, i, s))
    requires Plain(fixed, VCS_CATALOG) == AsPlain(VcsPart(d, i, s))
    requires Plain(fixed, PROFILES) == AsPlain(ProfilePart(d, i, s))
    requires Plain(fixed, SERVER_FILE) == Some(Regular(false, ServerFile(d, i, s)))
    requires Plain(fixed, URL_FILE) == Some(Regular(false, s.url))
    requires Plain(fixed, POLICY_FILE) == Some(Regular(false, s.policy))
    ensures IsFlat(fixed + signals + readers, d, i, s)
  {
    var all := fixed + signals + readers;
    forall name
      ensures IsSignal(name) ==> Plain(all, name) == Plain(signals, name)
      ensures IsReaderFile(name) ==> Plain(all, name) == Plain(readers, name)
      ensures IsFixed(name) ==> Plain(all, name) == Plain(fixed, name)
      ensures name in all ==> all[name] != "" && (IsSignal(name) || IsReaderFile(name) || IsFixed(name))
    {
      TogetherAt(fixed, signals, readers, name);
    }
  }

  function SignalFiles(part: Part<map<string, Bytes>>): map<string, Bytes> {
    if part.Part? then part.value else map[]
  }

  function ReaderFiles(part: Part<ReaderBundle>): map<string, Bytes> {
    if part.Part? then part.value.files else map[]
  }

  method ReadConnectors(d: Disk, i: Inputs, s: Settings) returns (part: Part<map<string, Bytes>>)
    ensures part == ConnectorPart(d, i, s)
  {
    if i.connectors.None? {
      return NotGiven;
    }
    var read := ConnectorBundle(d.files, i.connectors.value, s.codec);
    return if read.None? then Refused else Part(read.value);
  }

  method ReadReaders(d: Disk, i: Inputs, s: Settings) returns (part: Part<ReaderBundle>)
    ensures part == ReaderPart(d, i, s)
  {
    if i.readers.None? {
      return NotGiven;
    }
    var read := IssueMcpBundle(d.files, i.readers.value, s.forms);
    return if read.None? then Refused else Part(read.value);
  }

  /** The files that are rendered or copied under a fixed name. */
  method FixedFiles(toml: Bytes, url: Bytes, policy: Bytes, profiles: Part<Bytes>, vcs: Part<Bytes>)
    returns (fixed: map<string, Bytes>)
    requires toml != "" && url != "" && policy != ""
    requires (profiles.Part? ==> profiles.value != "") && (vcs.Part? ==> vcs.value != "")
    ensures OnlyFixed(fixed)
    ensures Plain(fixed, VCS_CATALOG) == AsPlain(vcs) && Plain(fixed, PROFILES) == AsPlain(profiles)
    ensures Plain(fixed, SERVER_FILE) == Some(Regular(false, toml))
    ensures Plain(fixed, URL_FILE) == Some(Regular(false, url))
    ensures Plain(fixed, POLICY_FILE) == Some(Regular(false, policy))
  {
    FixedNamesDiffer();
    fixed := map[SERVER_FILE := toml, URL_FILE := url, POLICY_FILE := policy];
    if profiles.Part? {
      fixed := fixed[PROFILES := profiles.value];
    }
    if vcs.Part? {
      fixed := fixed[VCS_CATALOG := vcs.value];
    }
  }

  /** Reads the plain inputs and puts their files together. */
  method PlainFiles(d: Disk, i: Inputs, s: Settings) returns (files: Option<map<string, Bytes>>)
    requires IsSettings(s)
    ensures files.Some? <==>
      && !ProfilePart(d, i, s).Refused? && !ConnectorPart(d, i, s).Refused?
      && !ReaderPart(d, i, s).Refused? && !VcsPart(d, i, s).Refused?
    ensures files.Some? ==> IsFlat(files.value, d, i, s)
  {
    var profiles := ProfilePart(d, i, s);
    var signals := ReadConnectors(d, i, s);
    var readers := ReadReaders(d, i, s);
    var vcs := VcsPart(d, i, s);
    if profiles.Refused? || signals.Refused? || readers.Refused? || vcs.Refused? {
      files := None;
    } else {
      var joined := JoinFiles(s, profiles, signals, readers, vcs, d, i);
      files := Some(joined);
    }
  }

  method JoinFiles(s: Settings, profiles: Part<Bytes>, signals: Part<map<string, Bytes>>, readers: Part<ReaderBundle>,
                   vcs: Part<Bytes>, ghost d: Disk, ghost i: Inputs)
    returns (files: map<string, Bytes>)
    requires IsSettings(s) && profiles == ProfilePart(d, i, s) && signals == ConnectorPart(d, i, s)
    requires readers == ReaderPart(d, i, s) && vcs == VcsPart(d, i, s)
    ensures IsFlat(files, d, i, s)
  {
    var toml := ServerText(s, profiles.Part?, signals.Part?, readers, vcs);
    var fixed := FixedFiles(toml, s.url, s.policy, profiles, vcs);
    PartsAreKind(d, i, s);
    TogetherAreFlat(fixed, SignalFiles(signals), ReaderFiles(readers), d, i, s);
    files := fixed + SignalFiles(signals) + ReaderFiles(readers);
  }

  lemma FixedNamesDiffer()
    ensures SERVER_FILE != PROFILES && URL_FILE != PROFILES && POLICY_FILE != PROFILES && VCS_CATALOG != PROFILES
    ensures SERVER_FILE != VCS_CATALOG && URL_FILE != VCS_CATALOG && POLICY_FILE != VCS_CATALOG
    ensures SERVER_FILE != URL_FILE && SERVER_FILE != POLICY_FILE
  {
    assert SERVER_FILE[0] == 's' && URL_FILE[0] == 'p' && POLICY_FILE[0] == 'j' && VCS_CATALOG[0] == 'v';
    assert PROFILES[0] == 'f';
  }

  // ---------------------------------------------------------------- the whole bundle

  /** The plain files as expected entries. */
  method ListFiles(files: map<string, Bytes>) returns (expected: seq<Expected>)
    ensures Closed(expected)
    ensures forall k :: 0 <= k < |expected| ==>
      |expected[k].path| == 1 && expected[k].path[0] in files
      && expected[k].record == File(false, files[expected[k].path[0]])
    ensures forall name :: name in files ==> [name] in Paths(expected)
  {
    expected := [];
    var pending := files.Keys;
    while pending != {}
      invariant pending <= files.Keys && Distinct(expected)
      invariant forall k :: 0 <= k < |expected| ==>
        && |expected[k].path| == 1 && expected[k].path[0] in files && expected[k].path[0] !in pending
        && expected[k].record == File(false, files[expected[k].path[0]])
      invariant forall name :: name in files && name !in pending ==> [name] in Paths(expected)
      decreases |pending|
    {
      var name :| name in pending;
      pending := pending - {name};
      PathsAppend(expected, Item([name], File(false, files[name])));
      expected := expected + [Item([name], File(false, files[name]))];
    }
  }

  /** Reads an executable installation, to be placed under a name. */
  method ReadTree(d: Disk, path: Option<string>, name: string) returns (entries: Option<seq<Expected>>)
    requires IsDisk(d)
    ensures entries.None? <==> TreePart(d, path).Refused?
    ensures entries.Some? ==> IsInstalled(entries.value, name, TreePart(d, path))
  {
    if path.None? {
      return Some([]);
    }
    if path.value !in d.trees {
      return None;
    }
    entries := ExecutableBundle(d.trees[path.value], name);
  }

  /** The entries of an installation under its name, or no entry without one. */
  ghost predicate IsInstalled(entries: seq<Expected>, name: string, part: Part<FileSystem>) {
    if part.Part? then Closed(entries) && NoneEmpty(entries) && Copies(entries, name, part.value) else entries == []
  }

  lemma InstalledIsBelow(entries: seq<Expected>, name: string, part: Part<FileSystem>)
    requires IsInstalled(entries, name, part)
    ensures Closed(entries) && NoneEmpty(entries)
    ensures forall k :: 0 <= k < |entries| ==> entries[k].path != [] && entries[k].path[0] == name
  {
  }

  predicate UnderName(entries: seq<Expected>, name: string) {
    forall k :: 0 <= k < |entries| ==> entries[k].path != [] && entries[k].path[0] == name
  }

  /** Plain entries have neither installation's name. */
  predicate PlainEntries(entries: seq<Expected>) {
    forall k :: 0 <= k < |entries| ==>
      entries[k].path != [] && entries[k].path[0] != DELIVERY && entries[k].path[0] != RUNTIME
  }

  lemma WholeIsClosed(flat: seq<Expected>, delivery: seq<Expected>, runtime: seq<Expected>)
    requires Closed(flat) && PlainEntries(flat) && NoneEmpty(flat)
    requires Closed(delivery) && UnderName(delivery, DELIVERY) && NoneEmpty(delivery)
    requires Closed(runtime) && UnderName(runtime, RUNTIME) && NoneEmpty(runtime)
    ensures Closed(flat + delivery + runtime) && NoneEmpty(flat + delivery + runtime)
  {
    assert DELIVERY[8] != RUNTIME[8];
    ClosedTogether(flat, delivery);
    ClosedTogether(flat + delivery, runtime);
  }

  /** Where an entry of the whole comes from. */
  lemma WholeAt(fs: FileSystem, flat: seq<Expected>, delivery: seq<Expected>, runtime: seq<Expected>, p: Path)
    requires Holds(fs, flat + delivery + runtime) && p != []
    requires PlainEntries(flat) && UnderName(delivery, DELIVERY) && UnderName(runtime, RUNTIME)
    ensures p in fs <==> p in Paths(flat) || p in Paths(delivery) || p in Paths(runtime)
    ensures p[0] == DELIVERY ==> (p in fs <==> p in Paths(delivery))
    ensures p[0] == RUNTIME ==> (p in fs <==> p in Paths(runtime))
    ensures p[0] != DELIVERY && p[0] != RUNTIME ==> (p in fs <==> p in Paths(flat))
  {
    assert DELIVERY[8] != RUNTIME[8];
    PathsTogether(flat, delivery);
    PathsTogether(flat + delivery, runtime);
  }

  lemma PathsTogether(a: seq<Expected>, b: seq<Expected>)
    ensures Paths(a + b) == Paths(a) + Paths(b)
  {
    var all := a + b;
    forall p | p in Paths(a) ensures p in Paths(all) {
      var k :| 0 <= k < |a| && a[k].path == p;
      assert all[k] == a[k];
    }
    forall p | p in Paths(b) ensures p in Paths(all) {
      var k :| 0 <= k < |b| && b[k].path == p;
      assert all[|a| + k] == b[k];
    }
  }

  /** The entries in the middle of a list are held with the rest. */
  lemma HeldAt(fs: FileSystem, a: seq<Expected>, entries: seq<Expected>, b: seq<Expected>, k: nat)
    requires Holds(fs, a + entries + b) && k < |entries|
    ensures entries[k].path in fs && fs[entries[k].path] == NodeOf(entries[k].record)
  {
    var all := a + entries + b;
    assert all[|a| + k] == entries[k];
    assert entries[k].path in Paths(all);
  }

  /** The list of the plain files. */
  ghost predicate ListsFiles(flat: seq<Expected>, files: map<string, Bytes>) {
    && (forall k :: 0 <= k < |flat| ==>
          |flat[k].path| == 1 && flat[k].path[0] in files && flat[k].record == File(false, files[flat[k].path[0]]))
    && (forall name :: name in files ==> [name] in Paths(flat))
  }

  lemma PlainAt(fs: FileSystem, flat: seq<Expected>, delivery: seq<Expected>, runtime: seq<Expected>,
                files: map<string, Bytes>, name: string)
    requires Holds(fs, flat + delivery + runtime) && ListsFiles(flat, files) && name != DELIVERY && name != RUNTIME
    requires PlainEntries(flat) && UnderName(delivery, DELIVERY) && UnderName(runtime, RUNTIME)
    ensures NodeAt(fs, [name]) == Plain(files, name)
  {
    WholeAt(fs, flat, delivery, runtime, [name]);
    if [name] in Paths(flat) {
      var k :| 0 <= k < |flat| && flat[k].path == [name];
      assert [] + flat + (delivery + runtime) == flat + delivery + runtime;
      HeldAt(fs, [], flat, delivery + runtime, k);
    }
  }

  lemma TreeAt(fs: FileSystem, a: seq<Expected>, entries: seq<Expected>, b: seq<Expected>,
               name: string, part: Part<FileSystem>, p: Path)
    requires Holds(fs, a + entries + b) && IsInstalled(entries, name, part)
    requires [name] + p in fs <==> [name] + p in Paths(entries)
    ensures NodeAt(fs, [name] + p) == if part.Part? then NodeAt(part.value, p) else None
  {
    if part.Part? && p in part.value {
      var k :| 0 <= k < |entries| && entries[k].path == [name] + p;
      assert entries[k].path[1..] == p;
      HeldAt(fs, a, entries, b, k);
    }
  }

  lemma TreesAt(fs: FileSystem, flat: seq<Expected>, delivery: seq<Expected>, runtime: seq<Expected>, d: Disk,
      i: Inputs)
    requires Holds(fs, flat + delivery + runtime) && PlainEntries(flat)
    requires IsInstalled(delivery, DELIVERY, TreePart(d, i.delivery))
            && IsInstalled(runtime, RUNTIME, TreePart(d, i.runtime))
    ensures HoldsTree(fs, DELIVERY, TreePart(d, i.delivery)) && HoldsTree(fs, RUNTIME, TreePart(d, i.runtime))
  {
    InstalledIsBelow(delivery, DELIVERY, TreePart(d, i.delivery));
    InstalledIsBelow(runtime, RUNTIME, TreePart(d, i.runtime));
    forall p ensures NodeAt(fs, [DELIVERY] + p) ==
                     if TreePart(d, i.delivery).Part? then NodeAt(TreePart(d, i.delivery).value, p) else None
    {
      WholeAt(fs, flat, delivery, runtime, [DELIVERY] + p);
      TreeAt(fs, flat, delivery, runtime, DELIVERY, TreePart(d, i.delivery), p);
    }
    forall p ensures NodeAt(fs, [RUNTIME] + p) ==
                     if TreePart(d, i.runtime).Part? then NodeAt(TreePart(d, i.runtime).value, p) else None
    {
      WholeAt(fs, flat, delivery, runtime, [RUNTIME] + p);
      assert flat + delivery + runtime + [] == flat + delivery + runtime;
      TreeAt(fs, flat + delivery, runtime, [], RUNTIME, TreePart(d, i.runtime), p);
    }
  }

  lemma PlainHeld(fs: FileSystem, flat: seq<Expected>, delivery: seq<Expected>, runtime: seq<Expected>,
                  files: map<string, Bytes>, d: Disk, i: Inputs, s: Settings)
    requires Holds(fs, flat + delivery + runtime) && ListsFiles(flat, files) && IsFlat(files, d, i, s)
    requires PlainEntries(flat) && UnderName(delivery, DELIVERY) && UnderName(runtime, RUNTIME)
    ensures HoldsConnectors(fs, ConnectorPart(d, i, s)) && HoldsReaders(fs, ReaderPart(d, i, s))
    ensures HoldsFile(fs, VCS_CATALOG, VcsPart(d, i, s)) && HoldsFile(fs, PROFILES, ProfilePart(d, i, s))
    ensures HoldsFixed(fs, d, i, s)
  {
    forall name | IsSignal(name) || IsReaderFile(name) || IsFixed(name)
      ensures NodeAt(fs, [name]) == Plain(files, name)
    {
      FixedApart(DELIVERY);
      FixedApart(RUNTIME);
      if IsFixed(name) {
        FixedApart(name);
      }
      PlainAt(fs, flat, delivery, runtime, files, name);
    }
  }

  /** The generator: it accepts exactly the valid inputs, and publishes what each of them contributes. */
  method GenerateServer(d: Disk, i: Inputs, s: Settings) returns (bundle: Option<FileSystem>)
    requires IsDisk(d) && IsSettings(s)
    ensures bundle.Some? <==> Accepts(d, i, s)
    ensures bundle.Some? ==> IsServerBundle(bundle.value, d, i, s)
  {
    if (i.connectors.Some? || i.delivery.Some? || i.runtime.Some? || i.readers.Some?) && i.profiles.None? {
      return None;
    }
    var files := PlainFiles(d, i, s);
    var delivery := ReadTree(d, i.delivery, DELIVERY);
    var runtime := ReadTree(d, i.runtime, RUNTIME);
    if files.None? || delivery.None? || runtime.None? {
      return None;
    }
    var flat := ListFiles(files.value);
    var fs := PublishWhole(flat, delivery.value, runtime.value, files.value, d, i, s);
    return Some(fs);
  }

  method PublishWhole(flat: seq<Expected>, delivery: seq<Expected>, runtime: seq<Expected>,
                      ghost files: map<string, Bytes>, ghost d: Disk, ghost i: Inputs, ghost s: Settings)
    returns (fs: FileSystem)
    requires Closed(flat) && ListsFiles(flat, files) && IsFlat(files, d, i, s)
    requires IsInstalled(delivery, DELIVERY, TreePart(d, i.delivery))
            && IsInstalled(runtime, RUNTIME, TreePart(d, i.runtime))
    ensures IsTree(fs) && HoldsConnectors(fs, ConnectorPart(d, i, s)) && HoldsReaders(fs, ReaderPart(d, i, s))
    ensures HoldsFile(fs, VCS_CATALOG, VcsPart(d, i, s)) && HoldsFile(fs, PROFILES, ProfilePart(d, i, s))
    ensures HoldsTree(fs, DELIVERY, TreePart(d, i.delivery)) && HoldsTree(fs, RUNTIME, TreePart(d, i.runtime))
    ensures HoldsFixed(fs, d, i, s) && HoldsNothingElse(fs)
  {
    InstalledIsBelow(delivery, DELIVERY, TreePart(d, i.delivery));
    InstalledIsBelow(runtime, RUNTIME, TreePart(d, i.runtime));
    FlatIsPlain(flat, files, d, i, s);
    WholeIsClosed(flat, delivery, runtime);
    var ok, placed := PublishBundle(None, flat + delivery + runtime, None);
    fs := placed.value;
    HeldIsTree(fs, flat + delivery + runtime);
    PlainHeld(fs, flat, delivery, runtime, files, d, i, s);
    TreesAt(fs, flat, delivery, runtime, d, i);
    WholeIsKnown(fs, flat, delivery, runtime, files, d, i, s);
  }

  lemma WholeIsKnown(fs: FileSystem, flat: seq<Expected>, delivery: seq<Expected>, runtime: seq<Expected>,
                     files: map<string, Bytes>, d: Disk, i: Inputs, s: Settings)
    requires Holds(fs, flat + delivery + runtime) && ListsFiles(flat, files) && IsFlat(files, d, i, s)
    requires PlainEntries(flat) && UnderName(delivery, DELIVERY) && UnderName(runtime, RUNTIME)
    ensures HoldsNothingElse(fs)
  {
    forall p | p in fs && p != [] ensures IsKnown(p[0]) {
      WholeAt(fs, flat, delivery, runtime, p);
      if p in Paths(flat) {
        var k :| 0 <= k < |flat| && flat[k].path == p;
        assert p[0] in files;
      }
    }
  }

  lemma FlatIsPlain(flat: seq<Expected>, files: map<string, Bytes>, d: Disk, i: Inputs, s: Settings)
    requires ListsFiles(flat, files) && IsFlat(files, d, i, s)
    ensures PlainEntries(flat) && NoneEmpty(flat)
  {
    forall k | 0 <= k < |flat|
      ensures flat[k].path != [] && flat[k].path[0] != DELIVERY && flat[k].path[0] != RUNTIME
      ensures flat[k].record.File? ==> flat[k].record.value != ""
    {
      var name := flat[k].path[0];
      assert name in files;
      FixedApart(DELIVERY);
      FixedApart(RUNTIME);
    }
  }

  // ---------------------------------------------------------------- one bundle for the same inputs

  lemma {:induction false} FirstIsFolder(fs: FileSystem, p: Path)
    requires IsTree(fs) && p in fs && |p| > 1
    ensures [p[0]] in fs && fs[[p[0]]].Folder?
    decreases |p|
  {
    var d := Parent(p);
    assert InFolder(fs, p);
    if |p| == 2 {
      assert d == [p[0]];
    } else {
      FirstIsFolder(fs, d);
      assert d[0] == p[0];
    }
  }

  lemma TreeIsDetermined(a: FileSystem, b: FileSystem, name: string, part: Part<FileSystem>, p: Path)
    requires HoldsTree(a, name, part) && HoldsTree(b, name, part) && p != [] && p[0] == name
    ensures NodeAt(a, p) == NodeAt(b, p)
  {
    assert p == [name] + p[1..];
    assert NodeAt(a, [name] + p[1..]) == NodeAt(b, [name] + p[1..]);
  }

  lemma PlainIsShallow(fs: FileSystem, p: Path)
    requires IsTree(fs) && p in fs && p != []
    requires NodeAt(fs, [p[0]]).Some? ==> NodeAt(fs, [p[0]]).value.Regular?
    ensures p == [p[0]]
  {
    if |p| > 1 {
      FirstIsFolder(fs, p);
    }
  }

  /** What a bundle holds at a path is told by its inputs. */
  lemma HeldIsDetermined(a: FileSystem, b: FileSystem, d: Disk, i: Inputs, s: Settings, p: Path)
    requires IsServerBundle(a, d, i, s) && IsServerBundle(b, d, i, s) && p in a && p != []
    ensures NodeAt(a, p) == NodeAt(b, p)
  {
    assert IsKnown(p[0]);
    if p[0] == DELIVERY {
      TreeIsDetermined(a, b, DELIVERY, TreePart(d, i.delivery), p);
    } else if p[0] == RUNTIME {
      TreeIsDetermined(a, b, RUNTIME, TreePart(d, i.runtime), p);
    } else {
      PlainIsDetermined(a, b, d, i, s, p[0]);
      PlainIsShallow(a, p);
    }
  }

  lemma PlainIsDetermined(a: FileSystem, b: FileSystem, d: Disk, i: Inputs, s: Settings, name: string)
    requires IsServerBundle(a, d, i, s) && IsServerBundle(b, d, i, s)
    requires IsSignal(name) || IsReaderFile(name) || IsFixed(name)
    ensures NodeAt(a, [name]) == NodeAt(b, [name]) && (NodeAt(a, [name]).Some? ==> NodeAt(a, [name]).value.Regular?)
  {
  }

  /** The same inputs generate the same bundle, entry for entry, so that generating them again verifies it. */
  lemma OneBundle(a: FileSystem, b: FileSystem, d: Disk, i: Inputs, s: Settings)
    requires IsServerBundle(a, d, i, s) && IsServerBundle(b, d, i, s)
    ensures a == b
  {
    forall p | p in a || p in b ensures p in a && p in b && a[p] == b[p] {
      if p == [] {
        assert a[p] == b[p];
      } else if p in a {
        HeldIsDetermined(a, b, d, i, s, p);
      } else {
        HeldIsDetermined(b, a, d, i, s, p);
      }
    }
  }
}
