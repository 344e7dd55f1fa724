/**
 The configurator's two directions for Issue MCP readers: an installation checks a catalog of
 readers, puts identities and scopes into normal form, and copies each credential into the private
 server bundle; an export turns an installed catalog back into host references.
 */
module IssueReaders {
  import opened Values
  import opened HostFiles
  import Text

  const MAX_READERS: nat := 128
  const MAX_ISSUES: nat := 256
  const MAX_EXPIRY: int := 9223372036854775807

  const READER_CATALOG: string := "factory-issue-mcp-readers.json"

  function ReaderCredentialName(i: nat): string {
    Numbered("factory-issue-mcp-", i, "-credential")
  }

  lemma ReaderNamesApart(i: nat, j: nat)
    ensures ReaderCredentialName(i) == ReaderCredentialName(j) ==> i == j
    ensures ReaderCredentialName(i) != READER_CATALOG
  {
    NumberedApart("factory-issue-mcp-", i, j, "-credential");
    var name := ReaderCredentialName(i);
    assert name[|name| - 1] == 'l' && READER_CATALOG[|READER_CATALOG| - 1] == 'n';
  }

  datatype Reader = Reader(id: string, project: string, credential: string, expiry: int, issues: Option<seq<string>>)

  /** What the reader catalogs rest on: JSON, the normal form of a UUID, and sorting. */
  datatype Forms = Forms(render: seq<Reader> -> Bytes, parse: Bytes -> Option<seq<Reader>>,
                         uuid: string -> Option<string>, sorted: set<string> -> seq<string>)

  /** The normal form of a normal form is itself; sorting lists each element once. */
  ghost predicate AreForms(f: Forms) {
    && IsCodec(f.render, f.parse)
    && (forall s :: f.uuid(s).Some? ==> f.uuid(f.uuid(s).value) == f.uuid(s))
    && (forall s :: |f.sorted(s)| == |s| && forall x :: x in f.sorted(s) <==> x in s)
  }

  /** `[a-z0-9_-]{1,64}` */
  predicate IsReaderId(s: string) {
    1 <= |s| <= 64 && forall i :: 0 <= i < |s| ==>
          'a' <= s[i] <= 'z' || '0' <= s[i] <= '9' || s[i] == '_' || s[i] == '-'
  }

  function StripLineEnds(s: string): string {
    if s != "" && (s[|s| - 1] == '\r' || s[|s| - 1] == '\n') then StripLineEnds(s[..|s| - 1]) else s
  }

  predicate IsToken(id: string, contents: Bytes) {
    var token, head := StripLineEnds(contents), "ocmcp." + id + ".";
    |token| >= |head| && token[..|head|] == head && Text.IsDigest(token[|head|..])
  }

  predicate IsReadable(host: Host, r: Reader, f: Forms) {
    && IsReaderId(r.id) && f.uuid(r.project).Some? && 0 < r.expiry <= MAX_EXPIRY && IsAbsolute(r.credential)
    && ReadFile(host, r.credential, MAX_CREDENTIAL_BYTES).Some? && IsToken(r.id, host[r.credential])
    && (r.issues.Some? ==> |r.issues.value| <= MAX_ISSUES
                           && forall i :: 0 <= i < |r.issues.value| ==> f.uuid(r.issues.value[i]).Some?)
  }

  predicate AllReadable(host: Host, rs: seq<Reader>, f: Forms) {
    && (forall i :: 0 <= i < |rs| ==> IsReadable(host, rs[i], f))
    && (forall i, j :: 0 <= i < j < |rs| ==> rs[i].id != rs[j].id)
  }

  function Scope(issues: seq<string>, f: Forms): set<string>
    requires forall i :: 0 <= i < |issues| ==> f.uuid(issues[i]).Some?
  {
    set i | 0 <= i < |issues| :: f.uuid(issues[i]).value
  }

  /** A reader as it is installed: identities in normal form, the scope sorted, the credential in the bundle. */
  function InstalledReader(host: Host, r: Reader, i: nat, f: Forms): Reader
    requires IsReadable(host, r, f)
  {
    r.(project := f.uuid(r.project).value, credential := Runtime(ReaderCredentialName(i)),
       issues := if r.issues.None? then None else Some(f.sorted(Scope(r.issues.value, f))))
  }

  function InstalledReaders(host: Host, rs: seq<Reader>, f: Forms): (installed: seq<Reader>)
    requires AllReadable(host, rs, f)
    ensures |installed| == |rs| && forall i :: 0 <= i < |rs| ==> installed[i] == InstalledReader(host, rs[i], i, f)
  {
    seq(|rs|, i requires 0 <= i < |rs| => InstalledReader(host, rs[i], i, f))
  }

  predicate AllPresent(host: Host, rs: seq<Reader>) {
    forall i :: 0 <= i < |rs| ==> rs[i].credential in host
  }

  function Credentials(host: Host, rs: seq<Reader>, n: nat): map<string, Bytes>
    requires n <= |rs| && AllPresent(host, rs)
  {
    if n == 0 then map[] else Credentials(host, rs, n - 1)[ReaderCredentialName(n - 1) := host[rs[n - 1].credential]]
  }

  /** The installed readers, from which the server's configuration is rendered, and the bundle's files. */
  datatype ReaderBundle = ReaderBundle(installed: seq<Reader>, files: map<string, Bytes>)

  function BundleOf(host: Host, rs: seq<Reader>, f: Forms): ReaderBundle
    requires AllReadable(host, rs, f)
  {
    var installed := InstalledReaders(host, rs, f);
    ReaderBundle(installed, Credentials(host, rs, |rs|)[READER_CATALOG := f.render(installed) + "\n"])
  }

  function InstallReaders(host: Host, path: string, f: Forms): Option<ReaderBundle> {
    match ReadFile(host, path, MAX_CATALOG_BYTES)
    case None => None
    case Some(contents) =>
      match f.parse(contents)
      case None => None
      case Some(rs) => if |rs| <= MAX_READERS && AllReadable(host, rs, f) then Some(BundleOf(host, rs, f)) else None
  }

  function Ids(rs: seq<Reader>): set<string> {
    set k | 0 <= k < |rs| :: rs[k].id
  }

  method CopyReaders(host: Host, rs: seq<Reader>, f: Forms)
      returns (ok: bool, installed: seq<Reader>, files: map<string, Bytes>)
    ensures ok <==> AllReadable(host, rs, f)
    ensures ok ==> installed == InstalledReaders(host, rs, f) && files == Credentials(host, rs, |rs|)
  {
    installed, files := [], map[];
    var names: set<string> := {};
    for i := 0 to |rs|
      invariant AllReadable(host, rs[..i], f) && names == Ids(rs[..i])
      invariant installed == InstalledReaders(host, rs[..i], f) && files == Credentials(host, rs[..i], i)
    {
      var reader := rs[i];
      if !IsReadable(host, reader, f) || reader.id in names {
        ReaderRefused(host, rs, f, i);
        return false, installed, files;
      }
      ReadersFront(host, rs, f, i);
      InstalledFront(host, rs, f, i);
      IdsFront(rs, i);
      CredentialsFront(host, rs, i);
      names := names + {reader.id};
      installed := installed + [InstalledReader(host, reader, i, f)];
      files := files[ReaderCredentialName(i) := host[reader.credential]];
    }
    assert rs[..|rs|] == rs;
    return true, installed, files;
  }

  lemma ReaderRefused(host: Host, rs: seq<Reader>, f: Forms, i: nat)
    requires i < |rs| && (!IsReadable(host, rs[i], f) || rs[i].id in Ids(rs[..i]))
    ensures !AllReadable(host, rs, f)
  {
    if IsReadable(host, rs[i], f) {
      var k :| 0 <= k < |rs[..i]| && rs[..i][k].id == rs[i].id;
      assert rs[k].id == rs[i].id;
    }
  }

  lemma IdsFront(rs: seq<Reader>, i: nat)
    requires i < |rs|
    ensures Ids(rs[..i + 1]) == Ids(rs[..i]) + {rs[i].id}
    ensures forall k :: 0 <= k < i ==> rs[k].id in Ids(rs[..i])
  {
    var front, more := rs[..i], rs[..i + 1];
    assert more == front + [rs[i]];
    forall k | 0 <= k < i ensures rs[k].id in Ids(front) && rs[k].id in Ids(more) {
      assert front[k] == rs[k] == more[k];
    }
    assert more[i].id in Ids(more);
  }

  lemma ReadersFront(host: Host, rs: seq<Reader>, f: Forms, i: nat)
    requires i < |rs| && AllReadable(host, rs[..i], f) && IsReadable(host, rs[i], f) && rs[i].id !in Ids(rs[..i])
    ensures AllReadable(host, rs[..i + 1], f)
  {
    var front, more := rs[..i], rs[..i + 1];
    IdsFront(rs, i);
    assert forall k :: 0 <= k < i ==> more[k] == front[k] == rs[k];
  }

  lemma InstalledFront(host: Host, rs: seq<Reader>, f: Forms, i: nat)
    requires i < |rs| && AllReadable(host, rs[..i], f) && AllReadable(host, rs[..i + 1], f)
            && IsReadable(host, rs[i], f)
    ensures InstalledReaders(host, rs[..i + 1], f) ==
            InstalledReaders(host, rs[..i], f) + [InstalledReader(host, rs[i], i, f)]
  {
    var front, more := rs[..i], rs[..i + 1];
    assert forall k :: 0 <= k < i ==> more[k] == front[k];
  }

  lemma CredentialsFront(host: Host, rs: seq<Reader>, i: nat)
    requires i < |rs| && rs[i].credential in host && AllPresent(host, rs[..i])
    ensures AllPresent(host, rs[..i + 1])
    ensures Credentials(host, rs[..i + 1], i + 1) ==
            Credentials(host, rs[..i], i)[ReaderCredentialName(i) := host[rs[i].credential]]
  {
    var more, front := rs[..i + 1], rs[..i];
    assert forall k :: 0 <= k < i ==> more[k] == front[k];
    CredentialsSame(host, more, host, front, i);
  }

  lemma {:induction false} CredentialsSame(a: Host, rs: seq<Reader>, b: Host, qs: seq<Reader>, n: nat)
    requires n <= |rs| && n <= |qs|
    requires AllPresent(a, rs) && AllPresent(b, qs)
    requires forall i :: 0 <= i < n ==> a[rs[i].credential] == b[qs[i].credential]
    ensures Credentials(a, rs, n) == Credentials(b, qs, n)
  {
    if n > 0 {
      CredentialsSame(a, rs, b, qs, n - 1);
    }
  }

  method IssueMcpBundle(host: Host, path: string, f: Forms) returns (bundle: Option<ReaderBundle>)
    ensures bundle == InstallReaders(host, path, f)
  {
    var contents := ReadFile(host, path, MAX_CATALOG_BYTES);
    if contents.None? {
      return None;
    }
    var document := f.parse(contents.value);
    if document.None? || |document.value| > MAX_READERS {
      return None;
    }
    var ok, installed, files := CopyReaders(host, document.value, f);
    if !ok {
      return None;
    }
    return Some(ReaderBundle(installed, files[READER_CATALOG := f.render(installed) + "\n"]));
  }

  /** The catalog with its credential references pointing to the numbered files in some place. */
  function ReadersPointing(rs: seq<Reader>, place: string -> string): (r: seq<Reader>)
    ensures |r| == |rs| && forall i :: 0 <= i < |rs| ==> r[i] == rs[i].(credential := place(ReaderCredentialName(i)))
  {
    seq(|rs|, i requires 0 <= i < |rs| => rs[i].(credential := place(ReaderCredentialName(i))))
  }

  /** What exporting the catalog of a bundle comes to. */
  function ExportedReaders(host: Host, bundle: string, f: Forms): Export {
    var path := Inside(bundle, READER_CATALOG);
    if path !in host then Absent
    else
      match ReadFile(host, path, MAX_CATALOG_BYTES)
      case None => Invalid
      case Some(contents) =>
        match f.parse(contents)
        case None => Invalid
        case Some(rs) =>
          if ReadersPointing(rs, Runtime) == rs then Written(f.render(ReadersPointing(rs, In(bundle))) + "\n")
          else Invalid
  }

  method ExportReaders(host: Host, bundle: string, f: Forms) returns (r: Export)
    ensures r == ExportedReaders(host, bundle, f)
  {
    var path := Inside(bundle, READER_CATALOG);
    if path !in host {
      return Absent;
    }
    var contents := ReadFile(host, path, MAX_CATALOG_BYTES);
    if contents.None? || f.parse(contents.value).None? {
      return Invalid;
    }
    var rs := f.parse(contents.value).value;
    var document := rs;
    for i := 0 to |rs|
      invariant |document| == |rs|
      invariant forall k :: 0 <= k < i ==> rs[k].credential == Runtime(ReaderCredentialName(k))
      invariant forall k :: 0 <= k < |rs| ==>
        document[k] == if k < i then rs[k].(credential := In(bundle)(ReaderCredentialName(k))) else rs[k]
    {
      if rs[i].credential != Runtime(ReaderCredentialName(i)) {
        assert ReadersPointing(rs, Runtime)[i] != rs[i];
        return Invalid;
      }
      document := document[i := rs[i].(credential := Inside(bundle, ReaderCredentialName(i)))];
    }
    assert document == ReadersPointing(rs, In(bundle));
    return Written(f.render(document) + "\n");
  }

  // ---------------------------------------------------------------- export undoes installation

  lemma {:induction false} CredentialAt(host: Host, rs: seq<Reader>, n: nat, i: nat)
    requires i < n <= |rs| && AllPresent(host, rs)
    ensures var files := Credentials(host, rs, n);
            ReaderCredentialName(i) in files && files[ReaderCredentialName(i)] == host[rs[i].credential]
  {
    ReaderNamesApart(i, n - 1);
    if i < n - 1 {
      CredentialAt(host, rs, n - 1, i);
    }
  }

  lemma {:induction false} ScopeIsSmall(issues: seq<string>, f: Forms)
    requires forall i :: 0 <= i < |issues| ==> f.uuid(issues[i]).Some?
    ensures |Scope(issues, f)| <= |issues|
  {
    if issues != [] {
      var n := |issues| - 1;
      ScopeIsSmall(issues[..n], f);
      var x := f.uuid(issues[n]).value;
      assert issues == issues[..n] + [issues[n]];
      assert Scope(issues, f) == Scope(issues[..n], f) + {x};
    }
  }

  /** A scope in normal form is kept as it is. */
  lemma ScopeIsStable(issues: seq<string>, f: Forms)
    requires AreForms(f) && |issues| <= MAX_ISSUES && forall i :: 0 <= i < |issues| ==> f.uuid(issues[i]).Some?
    ensures var sorted := f.sorted(Scope(issues, f));
            && |sorted| <= MAX_ISSUES
            && (forall i :: 0 <= i < |sorted| ==> f.uuid(sorted[i]) == Some(sorted[i]))
            && Scope(sorted, f) == Scope(issues, f)
  {
    ScopeIsSmall(issues, f);
    var scope := Scope(issues, f);
    var sorted := f.sorted(scope);
    forall i | 0 <= i < |sorted| ensures f.uuid(sorted[i]) == Some(sorted[i]) {
      assert sorted[i] in scope;
    }
    forall x ensures x in Scope(sorted, f) <==> x in scope {
      if x in scope {
        assert x in sorted;
        var i :| 0 <= i < |sorted| && sorted[i] == x;
        assert f.uuid(sorted[i]).value == x;
      }
    }
  }

  /** A reader that points at its installed credential is read as it was installed. */
  lemma ReaderIsStable(host: Host, r: Reader, later: Host, path: string, i: nat, f: Forms)
    requires AreForms(f) && IsReadable(host, r, f)
    requires IsAbsolute(path) && path in later && later[path] == host[r.credential]
    ensures var e := InstalledReader(host, r, i, f).(credential := path);
            IsReadable(later, e, f) && InstalledReader(later, e, i, f) == InstalledReader(host, r, i, f)
  {
    if r.issues.Some? {
      ScopeIsStable(r.issues.value, f);
    }
  }

  /** One reader of the export, read where its credential now is. */
  lemma ReaderLeadsBack(host: Host, later: Host, bundle: string, rs: seq<Reader>, f: Forms, i: nat)
    requires AreForms(f) && AllReadable(host, rs, f) && IsAbsolute(bundle) && i < |rs|
    requires Holding(later, bundle, BundleOf(host, rs, f).files)
    ensures var e := ReadersPointing(InstalledReaders(host, rs, f), In(bundle))[i];
            && IsReadable(later, e, f) && InstalledReader(later, e, i, f) == InstalledReaders(host, rs, f)[i]
            && later[e.credential] == host[rs[i].credential] && e.id == rs[i].id
  {
    var name := ReaderCredentialName(i);
    ReaderNamesApart(i, i);
    CredentialAt(host, rs, |rs|, i);
    assert name in BundleOf(host, rs, f).files;
    ReaderIsStable(host, rs[i], later, Inside(bundle, name), i, f);
  }

  lemma ReadersLeadBack(host: Host, later: Host, bundle: string, rs: seq<Reader>, f: Forms)
    requires AreForms(f) && AllReadable(host, rs, f) && IsAbsolute(bundle)
    requires Holding(later, bundle, BundleOf(host, rs, f).files)
    ensures var es := ReadersPointing(InstalledReaders(host, rs, f), In(bundle));
            AllReadable(later, es, f) && InstalledReaders(later, es, f) == InstalledReaders(host, rs, f)
            && Credentials(later, es, |rs|) == Credentials(host, rs, |rs|)
  {
    var installed := InstalledReaders(host, rs, f);
    var es := ReadersPointing(installed, In(bundle));
    forall i | 0 <= i < |es|
      ensures IsReadable(later, es[i], f) && InstalledReader(later, es[i], i, f) == installed[i]
      ensures later[es[i].credential] == host[rs[i].credential] && es[i].id == rs[i].id
    {
      ReaderLeadsBack(host, later, bundle, rs, f, i);
    }
    AllAreReadable(later, es, rs, f);
    CredentialsSame(later, es, host, rs, |rs|);
  }

  lemma AllAreReadable(later: Host, es: seq<Reader>, rs: seq<Reader>, f: Forms)
    requires |es| == |rs| && forall i :: 0 <= i < |es| ==> IsReadable(later, es[i], f) && es[i].id == rs[i].id
    requires forall i, j :: 0 <= i < j < |rs| ==> rs[i].id != rs[j].id
    ensures AllReadable(later, es, f)
  {
  }

  lemma InstallIs(host: Host, path: string, f: Forms, rs: seq<Reader>)
    requires path in host && host[path] != "" && f.parse(host[path]) == Some(rs)
    requires |rs| <= MAX_READERS && AllReadable(host, rs, f)
    ensures InstallReaders(host, path, f) ==
            if |host[path]| <= MAX_CATALOG_BYTES then Some(BundleOf(host, rs, f)) else None
  {
  }

  /** The text of the export installs the same bundle, if it fits the catalog's size limit, */
  lemma ExportReinstalls(host: Host, path: string, later: Host, bundle: string, destination: string, f: Forms)
    requires AreForms(f) && IsAbsolute(bundle) && InstallReaders(host, path, f).Some?
    requires Holding(later, bundle, InstallReaders(host, path, f).value.files) && destination in later
    requires var installed := InstallReaders(host, path, f).value.installed;
             later[destination] == f.render(ReadersPointing(installed, In(bundle))) + "\n"
    ensures InstallReaders(later, destination, f) ==
            if |later[destination]| <= MAX_CATALOG_BYTES then InstallReaders(host, path, f) else None
  {
    var rs := f.parse(host[path]).value;
    var es := ReadersPointing(InstalledReaders(host, rs, f), In(bundle));
    ReadersLeadBack(host, later, bundle, rs, f);
    InstallIs(host, path, f, rs);
    InstallIs(later, destination, f, es);
  }

  /** the exporter recognizes what installation wrote, and reads it exactly when it fits the limit; */
  lemma InstalledIsExported(host: Host, path: string, later: Host, bundle: string, f: Forms)
    requires AreForms(f) && InstallReaders(host, path, f).Some?
    requires Holding(later, bundle, InstallReaders(host, path, f).value.files)
    ensures var installed := InstallReaders(host, path, f).value.installed;
            ExportedReaders(later, bundle, f) ==
            if |f.render(installed)| < MAX_CATALOG_BYTES
            then Written(f.render(ReadersPointing(installed, In(bundle))) + "\n") else Invalid
  {
    var installed := InstallReaders(host, path, f).value.installed;
    assert READER_CATALOG in InstallReaders(host, path, f).value.files;
    assert ReadersPointing(installed, Runtime) == installed;
  }

  /** Export to a new file, and installation from there. */
  function Reinstalled(host: Host, bundle: string, destination: string, f: Forms): Option<ReaderBundle> {
    match ExportedReaders(host, bundle, f)
    case Written(contents) => InstallReaders(host[destination := contents], destination, f)
    case _ => None
  }

  /** so exporting an installed bundle and installing the export gives the same readers and files, byte for byte,
      exactly when the installed catalog and the export each fit the limit; otherwise it is refused. */
  lemma ReadersAreRetained(host: Host, path: string, later: Host, bundle: string, destination: string, f: Forms)
    requires AreForms(f) && IsAbsolute(bundle) && InstallReaders(host, path, f).Some? && destination !in later
    requires Holding(later, bundle, InstallReaders(host, path, f).value.files)
    ensures var installed := InstallReaders(host, path, f).value.installed;
            Reinstalled(later, bundle, destination, f) ==
            if |f.render(installed)| < MAX_CATALOG_BYTES
               && |f.render(ReadersPointing(installed, In(bundle)))| < MAX_CATALOG_BYTES
            then InstallReaders(host, path, f) else None
  {
    InstalledIsExported(host, path, later, bundle, f);
    var installed := InstallReaders(host, path, f).value.installed;
    var after := later[destination := f.render(ReadersPointing(installed, In(bundle))) + "\n"];
    assert Holding(after, bundle, InstallReaders(host, path, f).value.files);
    ExportReinstalls(host, path, after, bundle, destination, f);
  }

  /** The names of reader files. */
  predicate IsReaderFile(name: string) {
    HasPrefix(name, "factory-issue-mcp-") && IsTop(name)
  }

  lemma {:induction false} CredentialsAreReaderFiles(host: Host, rs: seq<Reader>, n: nat)
    requires n <= |rs| && AllPresent(host, rs) && forall i :: 0 <= i < |rs| ==> host[rs[i].credential] != ""
    ensures forall name :: name in Credentials(host, rs, n) ==>
            IsReaderFile(name) && Credentials(host, rs, n)[name] != ""
  {
    if n > 0 {
      CredentialsAreReaderFiles(host, rs, n - 1);
      NumberedPrefix("factory-issue-mcp-", n - 1, "-credential");
    }
  }

  lemma CatalogIsReaderFile()
    ensures IsReaderFile(READER_CATALOG)
  {
    assert READER_CATALOG[..18] == "factory-issue-mcp-";
  }

  /** An installation writes nothing but reader files, none of them empty. */
  lemma FilesAreReaderFiles(host: Host, rs: seq<Reader>, f: Forms)
    requires AllReadable(host, rs, f)
    ensures READER_CATALOG in BundleOf(host, rs, f).files
    ensures forall name :: name in BundleOf(host, rs, f).files ==>
      IsReaderFile(name) && BundleOf(host, rs, f).files[name] != ""
  {
    var files := Credentials(host, rs, |rs|);
    CredentialsAreReaderFiles(host, rs, |rs|);
    CatalogIsReaderFile();
    forall name | name in BundleOf(host, rs, f).files
      ensures IsReaderFile(name) && BundleOf(host, rs, f).files[name] != ""
    {
      if name != READER_CATALOG {
        assert name in files;
      }
    }
  }
}
