/**
 The configurator's two directions for signal connectors: an installation copies the files a catalog
 names into the private server bundle, and an export turns the installed catalog back into host references.
 */
module Connectors {
  import opened Values
  import opened HostFiles

  const MAX_CONNECTORS: nat := 64

  const CONNECTOR_CATALOG: string := "factory-signal-connectors.json"

  function ConfigurationName(i: nat): string {
    Numbered("factory-signal-", i, "-configuration")
  }

  function CredentialName(i: nat): string {
    Numbered("factory-signal-", i, "-credential")
  }

  lemma ConnectorNamesApart(i: nat, j: nat)
    ensures ConfigurationName(i) == ConfigurationName(j) ==> i == j
    ensures CredentialName(i) == CredentialName(j) ==> i == j
    ensures ConfigurationName(i) != CredentialName(j)
    ensures ConfigurationName(i) != CONNECTOR_CATALOG && CredentialName(i) != CONNECTOR_CATALOG
  {
    NumberedApart("factory-signal-", i, j, "-configuration");
    NumberedApart("factory-signal-", i, j, "-credential");
    PaddedValue(i);
    var c, d := ConfigurationName(i), CredentialName(j);
    assert c[|c| - 1] == 'n' && d[|d| - 1] == 'l';
    assert CredentialName(i)[15] == Padded(i)[0] && c[15] == Padded(i)[0] && CONNECTOR_CATALOG[15] == 'c';
  }

  // ---------------------------------------------------------------- signal connectors

  datatype Connector = Connector(kind: string, profile: string, configuration: string, credential: string)

  predicate IsUsable(host: Host, c: Connector) {
    && c.kind != "" && c.profile != "" && IsAbsolute(c.configuration) && IsAbsolute(c.credential)
    && ReadFile(host, c.configuration, MAX_CATALOG_BYTES).Some?
    && ReadFile(host, c.credential, MAX_CREDENTIAL_BYTES).Some?
  }

  function WithReferences(c: Connector, i: nat, place: string -> string): Connector {
    c.(configuration := place(ConfigurationName(i)), credential := place(CredentialName(i)))
  }

  /** The catalog with its references pointing to the numbered files in some place. */
  function Pointing(cs: seq<Connector>, place: string -> string): (r: seq<Connector>)
    ensures |r| == |cs| && forall i :: 0 <= i < |cs| ==> r[i] == WithReferences(cs[i], i, place)
  {
    seq(|cs|, i requires 0 <= i < |cs| => WithReferences(cs[i], i, place))
  }

  predicate AllUsable(host: Host, cs: seq<Connector>) {
    forall i :: 0 <= i < |cs| ==> IsUsable(host, cs[i])
  }

  /** The files copied for the first connectors. */
  function Copied(host: Host, cs: seq<Connector>, n: nat): map<string, Bytes>
    requires n <= |cs| && AllUsable(host, cs)
  {
    if n == 0 then map[]
    else
      var c := cs[n - 1];
      assert IsUsable(host, c);
      Copied(host, cs, n - 1)
      [ConfigurationName(n - 1) := host[c.configuration]][CredentialName(n - 1) := host[c.credential]]
  }

  /** JSON, as a pair of functions of which parsing undoes rendering. */
  datatype Codec = Codec(render: seq<Connector> -> Bytes, parse: Bytes -> Option<seq<Connector>>)

  /** The bundle files for a catalog. */
  function ConnectorFiles(host: Host, cs: seq<Connector>, codec: Codec): map<string, Bytes>
    requires AllUsable(host, cs)
  {
    Copied(host, cs, |cs|)[CONNECTOR_CATALOG := codec.render(Pointing(cs, Runtime)) + "\n"]
  }

  /** What installing the catalog at a path gives; nothing where it is refused. */
  function InstallConnectors(host: Host, path: string, codec: Codec): Option<map<string, Bytes>> {
    match ReadFile(host, path, MAX_CATALOG_BYTES)
    case None => None
    case Some(contents) =>
      match codec.parse(contents)
      case None => None
      case Some(cs) =>
        if |cs| <= MAX_CONNECTORS && AllUsable(host, cs) then Some(ConnectorFiles(host, cs, codec)) else None
  }

  method CopyConnectors(host: Host, cs: seq<Connector>)
    returns (ok: bool, copied: map<string, Bytes>, installed: seq<Connector>)
    ensures ok <==> AllUsable(host, cs)
    ensures ok ==> copied == Copied(host, cs, |cs|) && installed == Pointing(cs, Runtime)
  {
    copied, installed := map[], [];
    for i := 0 to |cs|
      invariant AllUsable(host, cs[..i])
      invariant installed == Pointing(cs[..i], Runtime) && copied == Copied(host, cs[..i], i)
    {
      var c := cs[i];
      if !IsUsable(host, c) {
        return false, copied, installed;
      }
      UsableFront(host, cs, i);
      PointingFront(cs, i);
      CopiedFront(host, cs, i);
      copied := copied[ConfigurationName(i) := host[c.configuration]][CredentialName(i) := host[c.credential]];
      installed := installed + [WithReferences(c, i, Runtime)];
    }
    assert cs[..|cs|] == cs;
    return true, copied, installed;
  }

  method ConnectorBundle(host: Host, path: string, codec: Codec) returns (files: Option<map<string, Bytes>>)
    ensures files == InstallConnectors(host, path, codec)
  {
    var contents := ReadFile(host, path, MAX_CATALOG_BYTES);
    if contents.None? {
      return None;
    }
    var document := codec.parse(contents.value);
    if document.None? || |document.value| > MAX_CONNECTORS {
      return None;
    }
    var ok, copied, installed := CopyConnectors(host, document.value);
    if !ok {
      return None;
    }
    return Some(copied[CONNECTOR_CATALOG := codec.render(installed) + "\n"]);
  }

  lemma UsableFront(host: Host, cs: seq<Connector>, i: nat)
    requires i < |cs| && AllUsable(host, cs[..i]) && IsUsable(host, cs[i])
    ensures AllUsable(host, cs[..i + 1])
  {
    var front, more := cs[..i], cs[..i + 1];
    forall k | 0 <= k < |more| ensures IsUsable(host, more[k]) {
      assert k < i ==> more[k] == front[k];
    }
  }

  lemma PointingFront(cs: seq<Connector>, i: nat)
    requires i < |cs|
    ensures Pointing(cs[..i + 1], Runtime) == Pointing(cs[..i], Runtime) + [WithReferences(cs[i], i, Runtime)]
  {
  }

  lemma CopiedFront(host: Host, cs: seq<Connector>, i: nat)
    requires i < |cs| && AllUsable(host, cs[..i]) && AllUsable(host, cs[..i + 1]) && IsUsable(host, cs[i])
    ensures Copied(host, cs[..i + 1], i + 1) ==
            Copied(host, cs[..i], i)
            [ConfigurationName(i) := host[cs[i].configuration]][CredentialName(i) := host[cs[i].credential]]
  {
    var front, more := cs[..i], cs[..i + 1];
    assert more[i] == cs[i] && more[..i] == front[..i];
    CopiedPrefix(host, more, front, i);
  }

  lemma {:induction false} CopiedPrefix(host: Host, a: seq<Connector>, b: seq<Connector>, n: nat)
    requires n <= |a| && n <= |b| && a[..n] == b[..n] && AllUsable(host, a) && AllUsable(host, b)
    ensures Copied(host, a, n) == Copied(host, b, n)
  {
    if n > 0 {
      assert a[n - 1] == a[..n][n - 1] && b[n - 1] == b[..n][n - 1];
      assert a[..n - 1] == a[..n][..n - 1] && b[..n - 1] == b[..n][..n - 1];
      CopiedPrefix(host, a, b, n - 1);
    }
  }

  /** Each reference is the one that installation writes at its place. */
  predicate Recognized(cs: seq<Connector>) {
    forall i :: 0 <= i < |cs| ==> cs[i] == WithReferences(cs[i], i, Runtime)
  }

  /** What exporting the catalog of a bundle comes to. */
  function ExportedConnectors(host: Host, bundle: string, codec: Codec): Export {
    var path := Inside(bundle, CONNECTOR_CATALOG);
    if path !in host then Absent
    else
      match ReadFile(host, path, MAX_CATALOG_BYTES)
      case None => Invalid
      case Some(contents) =>
        match codec.parse(contents)
        case None => Invalid
        case Some(cs) => if Recognized(cs) then Written(codec.render(Pointing(cs, In(bundle)))) else Invalid
  }

  method ExportConnectors(host: Host, bundle: string, codec: Codec) returns (r: Export)
    ensures r == ExportedConnectors(host, bundle, codec)
  {
    var path := Inside(bundle, CONNECTOR_CATALOG);
    if path !in host {
      return Absent;
    }
    var contents := ReadFile(host, path, MAX_CATALOG_BYTES);
    if contents.None? || codec.parse(contents.value).None? {
      return Invalid;
    }
    var cs := codec.parse(contents.value).value;
    var place := In(bundle);
    var document := cs;
    for i := 0 to |cs|
      invariant |document| == |cs|
      invariant forall k :: 0 <= k < i ==> cs[k] == WithReferences(cs[k], k, Runtime)
      invariant forall k :: 0 <= k < |cs| ==> document[k] == if k < i then WithReferences(cs[k], k, place) else cs[k]
    {
      if cs[i].configuration != Runtime(ConfigurationName(i)) || cs[i].credential != Runtime(CredentialName(i)) {
        return Invalid;
      }
      document := document[i := WithReferences(cs[i], i, place)];
    }
    assert document == Pointing(cs, place);
    return Written(codec.render(document));
  }

  // ---------------------------------------------------------------- export undoes installation

  lemma {:induction false} CopiedAt(host: Host, cs: seq<Connector>, n: nat, i: nat)
    requires i < n <= |cs| && AllUsable(host, cs)
    ensures var files := Copied(host, cs, n);
            && ConfigurationName(i) in files && files[ConfigurationName(i)] == host[cs[i].configuration]
            && CredentialName(i) in files && files[CredentialName(i)] == host[cs[i].credential]
  {
    if i < n - 1 {
      CopiedAt(host, cs, n - 1, i);
      NamesOfOthers(i, n - 1);
    } else {
      ConnectorNamesApart(i, i);
    }
  }

  lemma NamesOfOthers(i: nat, j: nat)
    requires i != j
    ensures ConfigurationName(i) != ConfigurationName(j) && CredentialName(i) != CredentialName(j)
    ensures ConfigurationName(i) != CredentialName(j) && CredentialName(i) != ConfigurationName(j)
  {
    ConnectorNamesApart(i, j);
    ConnectorNamesApart(j, i);
  }

  lemma FilesAt(host: Host, cs: seq<Connector>, codec: Codec, i: nat)
    requires i < |cs| && AllUsable(host, cs)
    ensures var files := ConnectorFiles(host, cs, codec);
            && ConfigurationName(i) in files && files[ConfigurationName(i)] == host[cs[i].configuration]
            && CredentialName(i) in files && files[CredentialName(i)] == host[cs[i].credential]
  {
    ConnectorNamesApart(i, i);
    CopiedAt(host, cs, |cs|, i);
  }

  /** The references of an export lead to the same contents, */
  lemma ExportLeadsBack(host: Host, later: Host, bundle: string, cs: seq<Connector>, codec: Codec)
    requires AllUsable(host, cs) && IsAbsolute(bundle) && Holding(later, bundle, ConnectorFiles(host, cs, codec))
    ensures var es := Pointing(cs, In(bundle));
            AllUsable(later, es) && Copied(later, es, |cs|) == Copied(host, cs, |cs|)
  {
    var es := Pointing(cs, In(bundle));
    forall i | 0 <= i < |es| ensures IsUsable(later, es[i]) && SameContents(later, es[i], host, cs[i]) {
      FilesAt(host, cs, codec, i);
      assert IsUsable(host, cs[i]);
    }
    CopiedSame(later, es, host, cs, |cs|);
  }

  predicate SameContents(a: Host, c: Connector, b: Host, d: Connector) {
    && c.configuration in a && d.configuration in b && a[c.configuration] == b[d.configuration]
    && c.credential in a && d.credential in b && a[c.credential] == b[d.credential]
  }

  lemma {:induction false} CopiedSame(a: Host, cs: seq<Connector>, b: Host, ds: seq<Connector>, n: nat)
    requires |cs| == |ds| && n <= |cs| && AllUsable(a, cs) && AllUsable(b, ds)
    requires forall i :: 0 <= i < |cs| ==> SameContents(a, cs[i], b, ds[i])
    ensures Copied(a, cs, n) == Copied(b, ds, n)
  {
    if n > 0 {
      CopiedSame(a, cs, b, ds, n - 1);
      assert SameContents(a, cs[n - 1], b, ds[n - 1]);
    }
  }

  /** so that the text of the export installs the same bundle, if it fits the catalog's size limit, */
  lemma ExportReinstalls(host: Host, path: string, later: Host, bundle: string, destination: string, codec: Codec)
    requires IsCodec(codec.render, codec.parse) && IsAbsolute(bundle)
    requires InstallConnectors(host, path, codec).Some?
    requires Holding(later, bundle, InstallConnectors(host, path, codec).value)
    requires var cs := codec.parse(host[path]).value;
             destination in later && later[destination] == codec.render(Pointing(cs, In(bundle)))
    ensures InstallConnectors(later, destination, codec) ==
            if |later[destination]| <= MAX_CATALOG_BYTES then InstallConnectors(host, path, codec) else None
  {
    var cs := codec.parse(host[path]).value;
    var es := Pointing(cs, In(bundle));
    PointingTwice(cs, In(bundle), Runtime);
    assert codec.parse(later[destination]) == Some(es);
    ExportLeadsBack(host, later, bundle, cs, codec);
    InstallIs(host, path, codec, cs);
    InstallIs(later, destination, codec, es);
  }

  lemma InstallIs(host: Host, path: string, codec: Codec, cs: seq<Connector>)
    requires path in host && host[path] != "" && codec.parse(host[path]) == Some(cs)
    requires |cs| <= MAX_CONNECTORS && AllUsable(host, cs)
    ensures InstallConnectors(host, path, codec) ==
            if |host[path]| <= MAX_CATALOG_BYTES then Some(ConnectorFiles(host, cs, codec)) else None
  {
  }

  lemma PointingTwice(cs: seq<Connector>, first: string -> string, second: string -> string)
    ensures Pointing(Pointing(cs, first), second) == Pointing(cs, second)
  {
  }

  /** The exporter recognizes what installation wrote, and reads it exactly when it fits the limit. */
  lemma InstalledIsExported(host: Host, path: string, later: Host, bundle: string, codec: Codec)
    requires IsCodec(codec.render, codec.parse) && InstallConnectors(host, path, codec).Some?
    requires Holding(later, bundle, InstallConnectors(host, path, codec).value)
    ensures var cs := codec.parse(host[path]).value;
            ExportedConnectors(later, bundle, codec) ==
            if |codec.render(Pointing(cs, Runtime))| < MAX_CATALOG_BYTES
            then Written(codec.render(Pointing(cs, In(bundle)))) else Invalid
  {
    var cs := codec.parse(host[path]).value;
    assert CONNECTOR_CATALOG in ConnectorFiles(host, cs, codec);
    var at := Inside(bundle, CONNECTOR_CATALOG);
    assert at in later && later[at] == codec.render(Pointing(cs, Runtime)) + "\n";
    assert Recognized(Pointing(cs, Runtime));
    PointingTwice(cs, Runtime, In(bundle));
  }

  /** Export to a new file, and installation from there. */
  function Reinstalled(host: Host, bundle: string, destination: string, codec: Codec): Option<map<string, Bytes>> {
    match ExportedConnectors(host, bundle, codec)
    case Written(contents) => InstallConnectors(host[destination := contents], destination, codec)
    case _ => None
  }

  /** Exporting an installed bundle and installing the export gives the same files, byte for byte, exactly when the
      installed catalog and the export each fit the limit; otherwise it is refused. */
  lemma ConnectorsAreRetained(host: Host, path: string, later: Host, bundle: string, destination: string, codec: Codec)
    requires IsCodec(codec.render, codec.parse) && IsAbsolute(bundle) && destination !in later
    requires InstallConnectors(host, path, codec).Some?
    requires Holding(later, bundle, InstallConnectors(host, path, codec).value)
    ensures var cs := codec.parse(host[path]).value;
            Reinstalled(later, bundle, destination, codec) ==
            if |codec.render(Pointing(cs, Runtime))| < MAX_CATALOG_BYTES
               && |codec.render(Pointing(cs, In(bundle)))| <= MAX_CATALOG_BYTES
            then InstallConnectors(host, path, codec) else None
  {
    InstalledIsExported(host, path, later, bundle, codec);
    var cs := codec.parse(host[path]).value;
    var after := later[destination := codec.render(Pointing(cs, In(bundle)))];
    assert Holding(after, bundle, InstallConnectors(host, path, codec).value);
    ExportReinstalls(host, path, after, bundle, destination, codec);
  }

  /** The names of connector files. */
  predicate IsSignal(name: string) {
    HasPrefix(name, "factory-signal-") && IsTop(name)
  }

  lemma {:induction false} CopiedAreSignals(host: Host, cs: seq<Connector>, n: nat)
    requires n <= |cs| && AllUsable(host, cs)
    ensures forall name :: name in Copied(host, cs, n) ==> IsSignal(name) && Copied(host, cs, n)[name] != ""
  {
    if n > 0 {
      CopiedAreSignals(host, cs, n - 1);
      NumberedPrefix("factory-signal-", n - 1, "-configuration");
      NumberedPrefix("factory-signal-", n - 1, "-credential");
      assert IsUsable(host, cs[n - 1]);
    }
  }

  lemma CatalogIsSignal()
    ensures IsSignal(CONNECTOR_CATALOG)
  {
    assert CONNECTOR_CATALOG[..15] == "factory-signal-";
  }

  /** An installation writes nothing but connector files, none of them empty. */
  lemma FilesAreSignals(host: Host, cs: seq<Connector>, codec: Codec)
    requires AllUsable(host, cs)
    ensures CONNECTOR_CATALOG in ConnectorFiles(host, cs, codec)
    ensures forall name :: name in ConnectorFiles(host, cs, codec) ==>
      IsSignal(name) && ConnectorFiles(host, cs, codec)[name] != ""
  {
    var copied := Copied(host, cs, |cs|);
    CopiedAreSignals(host, cs, |cs|);
    CatalogIsSignal();
    forall name | name in ConnectorFiles(host, cs, codec)
      ensures IsSignal(name) && ConnectorFiles(host, cs, codec)[name] != ""
    {
      if name != CONNECTOR_CATALOG {
        assert name in copied;
      }
    }
  }
}
