/**
 Which catalogs outgrow the size limit that is checked when they are read and not when they are written.
 A connector's texts are unbounded, and one connector is enough; readers are bounded, and outgrow it exactly
 below a path whose JSON form is longer than any that a host gives without control characters in it.
 */
module CatalogLimits {
  import opened Values
  import opened HostFiles
  import opened Connectors
  import opened IssueReaders
  import opened CatalogText
  import Text

  // ---------------------------------------------------------------- reading what was written

  ghost predicate IsTextOf<D(!new)>(render: D -> Bytes, d: D, text: Bytes) {
    render(d) == text || render(d) + "\n" == text
  }

  ghost function Parsed<D(!new)>(render: D -> Bytes, text: Bytes): Option<D> {
    if exists d :: IsTextOf(render, d, text) then
      var d :| IsTextOf(render, d, text);
      Some(d)
    else None
  }

  /** A rendering that tells documents apart and ends with a brace. */
  ghost predicate TellsApart<D(!new)>(render: D -> Bytes) {
    && (forall d, e :: render(d) == render(e) ==> d == e)
    && (forall d :: render(d) != "" && Last(render(d)) == '}')
  }

  lemma ParsedIs<D(!new)>(render: D -> Bytes, d: D, text: Bytes)
    requires TellsApart(render) && IsTextOf(render, d, text)
    ensures Parsed(render, text) == Some(d)
  {
    var found := Parsed(render, text).value;
    assert IsTextOf(render, found, text);
    OneReading(render(d), render(found), text);
  }

  /** A text that ends with a brace, or is followed by a newline, is read in one way. */
  lemma OneReading(a: string, b: string, text: string)
    requires a != "" && Last(a) == '}' && b != "" && Last(b) == '}'
    requires (a == text || a + "\n" == text) && (b == text || b + "\n" == text)
    ensures a == b
  {
    assert a + "\n" == text ==> text[|text| - 1] == '\n' && text[..|text| - 1] == a;
    assert b + "\n" == text ==> text[|text| - 1] == '\n' && text[..|text| - 1] == b;
  }

  lemma ParsedIsCodec<D(!new)>(render: D -> Bytes, parse: Bytes -> Option<D>)
    requires TellsApart(render) && forall text :: parse(text) == Parsed(render, text)
    ensures IsCodec(render, parse)
  {
    forall d ensures parse(render(d)) == Some(d) && parse(render(d) + "\n") == Some(d) {
      ParsedIs(render, d, render(d));
      ParsedIs(render, d, render(d) + "\n");
    }
  }

  lemma JsonTellsApart()
    ensures TellsApart(ConnectorsJson) && TellsApart(ReadersJson)
  {
    forall a, b | ConnectorsJson(a) == ConnectorsJson(b) ensures a == b {
      ConnectorsJsonOnce(a, b);
    }
    forall a, b | ReadersJson(a) == ReadersJson(b) ensures a == b {
      ReadersJsonOnce(a, b);
    }
    forall cs: seq<Connector> ensures ConnectorsJson(cs) != "" && Last(ConnectorsJson(cs)) == '}' {
      ConnectorsJsonLast(cs);
    }
    forall rs: seq<Reader> ensures ReadersJson(rs) != "" && Last(ReadersJson(rs)) == '}' {
      ReadersJsonLast(rs);
    }
  }

  // ---------------------------------------------------------------- connectors

  ghost function TheCodec(): Codec {
    Codec(ConnectorsJson, text => Parsed(ConnectorsJson, text))
  }

  lemma TheCodecIsOne()
    ensures IsCodec(TheCodec().render, TheCodec().parse)
  {
    JsonTellsApart();
    ParsedIsCodec(ConnectorsJson, TheCodec().parse);
  }

  /** A connector of a kind with a name of that length. */
  function Wordy(n: nat): Connector {
    Connector(seq(n, _ => 'k'), "p", "/a", "/b")
  }

  lemma OneLength(c: Connector)
    requires AllPlain(c.kind) && AllPlain(c.profile) && AllPlain(c.configuration) && AllPlain(c.credential)
    ensures |ConnectorsJson([c])| == 119 + |c.kind| + |c.profile| + |c.configuration| + |c.credential|
  {
    ConnectorsJsonLength([c]);
    PlainStays(c.kind);
    PlainStays(c.profile);
    PlainStays(c.configuration);
    PlainStays(c.credential);
  }

  lemma FirstNames()
    ensures |ConfigurationName(0)| == 33 && |CredentialName(0)| == 30
    ensures AllPlain(ConfigurationName(0)) && AllPlain(CredentialName(0))
  {
    assert Text.Decimal(0) == "0" && Padded(0) == "0000";
    assert AllPlain("factory-signal-") && AllPlain("-configuration") && AllPlain("-credential");
  }

  /** A host on which the catalog of one such connector is to be installed. */
  function WordyHost(n: nat): Host {
    map["/a" := "x", "/b" := "y", "/c" := ConnectorsJson([Wordy(n)])]
  }

  lemma WordyInstalls(n: nat)
    requires 0 < n && n + 124 <= MAX_CATALOG_BYTES
    ensures InstallConnectors(WordyHost(n), "/c", TheCodec()).Some?
    ensures TheCodec().parse(WordyHost(n)["/c"]) == Some([Wordy(n)])
  {
    TheCodecIsOne();
    OneLength(Wordy(n));
    var host, cs := WordyHost(n), [Wordy(n)];
    WordyIsUsable(n);
    assert TheCodec().render(cs) == host["/c"];
    Connectors.InstallIs(host, "/c", TheCodec(), cs);
  }

  lemma WordyIsUsable(n: nat)
    requires 0 < n
    ensures AllUsable(WordyHost(n), [Wordy(n)]) && WordyHost(n)["/c"] == ConnectorsJson([Wordy(n)])
  {
    assert "/a"[1] == 'a' && "/b"[1] == 'b' && "/c"[1] == 'c';
    assert WordyHost(n)["/a"] == "x" && WordyHost(n)["/b"] == "y";
  }

  /** What an installation writes for it. */
  ghost function InstallWordy(n: nat): map<string, Bytes>
    requires 0 < n && n + 124 <= MAX_CATALOG_BYTES
  {
    WordyInstalls(n);
    InstallConnectors(WordyHost(n), "/c", TheCodec()).value
  }

  lemma PlacedLength(n: nat, directory: string, place: string -> string)
    requires AllPlain(directory) && (forall name :: place(name) == directory + name)
    ensures |ConnectorsJson(Pointing([Wordy(n)], place))| == 183 + n + 2 * |directory|
  {
    var es := Pointing([Wordy(n)], place);
    FirstNames();
    assert es == [WithReferences(Wordy(n), 0, place)];
    OneLength(es[0]);
  }

  /** A host on which a directory holds exactly these files. */
  function Placed(directory: string, files: map<string, Bytes>): Host {
    var paths := set name | name in files :: Inside(directory, name);
    assert forall name :: name in files ==> Inside(directory, name)[|directory| + 1..] == name;
    map path | path in paths :: files[path[|directory| + 1..]]
  }

  lemma PlacedHolds(directory: string, files: map<string, Bytes>)
    ensures Holding(Placed(directory, files), directory, files)
    ensures directory + ".json" !in Placed(directory, files)
  {
    forall name | name in files
      ensures Inside(directory, name) in Placed(directory, files)
      ensures Placed(directory, files)[Inside(directory, name)] == files[name]
    {
      assert Inside(directory, name)[|directory| + 1..] == name;
    }
    assert forall name :: Inside(directory, name)[|directory|] == '/';
    assert (directory + ".json")[|directory|] == '.';
  }

  const BUNDLE: string := "/var/lib/octacity-local-stand/config/server"
  const RUNTIME_PLACE: string := "/run/octacity-secrets/"

  lemma BundleIsPlain()
    ensures AllPlain(BUNDLE + "/") && |BUNDLE| == 43 && AllPlain(RUNTIME_PLACE) && |RUNTIME_PLACE| == 22
  {
  }

  /** A catalog that fills the limit installs, but what is installed is longer and cannot be exported. */
  lemma InstalledCanOutgrow()
    ensures InstallConnectors(WordyHost(4194180), "/c", TheCodec()) == Some(InstallWordy(4194180))
    ensures ExportedConnectors(Placed(BUNDLE, InstallWordy(4194180)), BUNDLE, TheCodec()) == Invalid
  {
    TheCodecIsOne();
    WordyInstalls(4194180);
    BundleIsPlain();
    PlacedLength(4194180, RUNTIME_PLACE, Runtime);
    PlacedHolds(BUNDLE, InstallWordy(4194180));
    Connectors.InstalledIsExported(WordyHost(4194180), "/c", Placed(BUNDLE, InstallWordy(4194180)), BUNDLE, TheCodec());
  }

  /** A slightly shorter one installs and is exported, but the export, with the host's longer references, does not
      install again. */
  lemma ExportCanOutgrow()
    ensures InstallConnectors(WordyHost(4194050), "/c", TheCodec()) == Some(InstallWordy(4194050))
    ensures ExportedConnectors(Placed(BUNDLE, InstallWordy(4194050)), BUNDLE, TheCodec()).Written?
    ensures Connectors.Reinstalled(Placed(BUNDLE, InstallWordy(4194050)), BUNDLE, BUNDLE + ".json", TheCodec()) == None
  {
    var n := 4194050;
    TheCodecIsOne();
    WordyInstalls(n);
    BundleIsPlain();
    PlacedLength(n, RUNTIME_PLACE, Runtime);
    PlacedLength(n, BUNDLE + "/", In(BUNDLE));
    var later := Placed(BUNDLE, InstallWordy(n));
    PlacedHolds(BUNDLE, InstallWordy(n));
    Connectors.InstalledIsExported(WordyHost(n), "/c", later, BUNDLE, TheCodec());
    ConnectorsAreRetained(WordyHost(n), "/c", later, BUNDLE, BUNDLE + ".json", TheCodec());
  }

  // ---------------------------------------------------------------- readers are bounded

  /** The normal form of a UUID: eight, four, four, four and twelve hexadecimal digits. */
  predicate IsUuid(s: string) {
    |s| == 36 && forall i :: 0 <= i < 36 ==>
      if i == 8 || i == 13 || i == 18 || i == 23 then s[i] == '-' else '0' <= s[i] <= '9' || 'a' <= s[i] <= 'f'
  }

  /** Reader catalogs are written as JSON, and identities as UUIDs. */
  ghost predicate AreJsonForms(f: Forms) {
    && AreForms(f) && f.render == ReadersJson
    && (forall s :: f.uuid(s).Some? ==> IsUuid(f.uuid(s).value))
    && (forall s :: IsUuid(s) ==> f.uuid(s) == Some(s))
  }

  ghost function Listed(s: set<string>): (r: seq<string>)
    ensures |r| == |s| && forall x :: x in r <==> x in s
  {
    if s == {} then []
    else
      var x :| x in s;
      [x] + Listed(s - {x})
  }

  /** There are such forms. */
  lemma JsonFormsExist() returns (f: Forms)
    ensures AreJsonForms(f)
  {
    f := Forms(ReadersJson, text => Parsed(ReadersJson, text),
               s => if IsUuid(s) then Some(s) else None, s => Listed(s));
    JsonTellsApart();
    ParsedIsCodec(ReadersJson, f.parse);
  }

  function Pow10(k: nat): nat {
    if k == 0 then 1 else 10 * Pow10(k - 1)
  }

  lemma {:induction false} DecimalAtMost(n: nat, k: nat)
    requires 0 < k && n < Pow10(k)
    ensures |Text.Decimal(n)| <= k
  {
    if n >= 10 {
      assert Pow10(1) == 10;
      DecimalAtMost(n / 10, k - 1);
    }
  }

  lemma {:induction false} DecimalAtLeast(n: nat, k: nat)
    requires n >= Pow10(k)
    ensures |Text.Decimal(n)| > k
  {
    if k > 0 {
      DecimalAtLeast(n / 10, k - 1);
    }
  }

  lemma PaddedIsFour(i: nat)
    requires i < 10000
    ensures |Padded(i)| == 4 && AllPlain(Padded(i)) && Text.Digits(Padded(i))
  {
    PaddedValue(i);
    assert Pow10(0) == 1 && Pow10(1) == 10 && Pow10(2) == 100 && Pow10(3) == 1000 && Pow10(4) == 10000;
    var k := if i < 10 then 1 else if i < 100 then 2 else if i < 1000 then 3 else 4;
    DecimalAtMost(i, k);
    if k > 1 {
      DecimalAtLeast(i, k - 1);
    }
    assert forall j :: 0 <= j < |Padded(i)| ==> Text.IsDigit(Padded(i)[j]);
  }

  lemma CredentialNameIs(i: nat)
    requires i < MAX_READERS
    ensures |ReaderCredentialName(i)| == 33 && AllPlain(ReaderCredentialName(i))
  {
    PaddedIsFour(i);
    assert AllPlain("factory-issue-mcp-") && AllPlain("-credential");
  }

  lemma UuidSize(s: string)
    requires IsUuid(s)
    ensures |Escape(s)| == 36
  {
    PlainStays(s);
  }

  lemma ExpirySize(n: int)
    requires 0 < n <= MAX_EXPIRY
    ensures |Signed(n)| <= 19 && (n == MAX_EXPIRY ==> |Signed(n)| == 19)
  {
    TensAre();
    DecimalAtMost(n, 19);
    if n == MAX_EXPIRY {
      DecimalAtLeast(n, 18);
    }
  }

  lemma TensAre()
    ensures Pow10(18) == 1_000_000_000_000_000_000 && Pow10(19) == 10_000_000_000_000_000_000
  {
    assert Pow10(6) == 1_000_000;
    assert Pow10(12) == 1_000_000_000_000;
  }

  /** A list of at most 256 UUIDs, all of one length. */
  lemma IssuesAtMost(issues: seq<string>)
    requires |issues| <= MAX_ISSUES && forall i :: 0 <= i < |issues| ==> IsUuid(issues[i])
    ensures IssuesSize(Some(issues)) <= 10255 && (|issues| == MAX_ISSUES ==> IssuesSize(Some(issues)) == 10255)
  {
    forall i | 0 <= i < |issues| ensures IssueSize(issues[i]) == 38 {
      UuidSize(issues[i]);
    }
    if issues != [] {
      LengthBetween(issues, IssueSize, 38, 38);
    }
  }

  /** Apart from the path of its credential, a reader takes at most 10449 characters. */
  lemma ReaderAtMost(host: Host, r: Reader, i: nat, f: Forms, path: string)
    requires AreJsonForms(f) && IsReadable(host, r, f)
    ensures ReaderSize(InstalledReader(host, r, i, f).(credential := path)) <= 10449 + |Escape(path)|
  {
    PlainStays(r.id);
    UuidSize(f.uuid(r.project).value);
    ExpirySize(r.expiry);
    if r.issues.Some? {
      var sorted := f.sorted(Scope(r.issues.value, f));
      ScopeIsSmall(r.issues.value, f);
      forall k | 0 <= k < |sorted| ensures IsUuid(sorted[k]) {
        assert sorted[k] in Scope(r.issues.value, f);
      }
      IssuesAtMost(sorted);
    }
  }

  lemma PathSize(directory: string, i: nat)
    requires i < MAX_READERS
    ensures |Escape(Inside(directory, ReaderCredentialName(i)))| == |Escape(directory)| + 34
  {
    var name := ReaderCredentialName(i);
    CredentialNameIs(i);
    Reassociate(directory, "/", name);
    EscapeTogether(directory, "/" + name);
    PlainStays("/" + name);
  }

  /** The installed catalog, with its references anywhere of a bounded length. */
  lemma CatalogAtMost(host: Host, rs: seq<Reader>, f: Forms, place: string -> string, room: nat)
    requires AreJsonForms(f) && AllReadable(host, rs, f) && |rs| <= MAX_READERS
    requires forall i :: 0 <= i < |rs| ==> |Escape(place(ReaderCredentialName(i)))| <= room
    ensures |ReadersJson(ReadersPointing(InstalledReaders(host, rs, f), place))| <= 1337755 + 128 * room
  {
    var es := ReadersPointing(InstalledReaders(host, rs, f), place);
    forall i | 0 <= i < |es| ensures ReaderSize(es[i]) <= 10449 + room {
      ReaderAtMost(host, rs[i], i, f, place(ReaderCredentialName(i)));
    }
    ReadersTogether(es, 0, 10449 + room);
  }

  lemma ReadersTogether(rs: seq<Reader>, low: nat, high: nat)
    requires |rs| <= MAX_READERS && forall i :: 0 <= i < |rs| ==> low <= ReaderSize(rs[i]) <= high
    ensures |ReadersJson(rs)| <= 283 + 128 * high
    ensures |rs| == MAX_READERS ==> 283 + 128 * low <= |ReadersJson(rs)|
  {
    ReadersJsonLength(rs);
    if rs != [] {
      LengthOfMany(rs, ReaderSize, low, high, MAX_READERS);
    }
  }

  // ---------------------------------------------------------------- the largest catalog

  function IssueId(k: nat): string {
    "00000000-0000-0000-0000-00000000" + Padded(k)
  }

  lemma IssueIdIs(k: nat)
    requires k < 10000
    ensures IsUuid(IssueId(k))
  {
    PaddedIsFour(k);
    var s := IssueId(k);
    assert forall i :: 32 <= i < 36 ==> s[i] == Padded(k)[i - 32] && Text.IsDigit(Padded(k)[i - 32]);
  }

  lemma IssueIdsApart(i: nat, j: nat)
    requires IssueId(i) == IssueId(j)
    ensures i == j
  {
    assert IssueId(i)[32..] == Padded(i) && IssueId(j)[32..] == Padded(j);
    PaddedValue(i);
    PaddedValue(j);
  }

  ghost function IssueIds(n: nat): set<string> {
    set k | 0 <= k < n :: IssueId(k)
  }

  lemma {:induction false} IssueIdsCount(n: nat)
    ensures |IssueIds(n)| == n
  {
    if n > 0 {
      IssueIdsCount(n - 1);
      IssueIdIsNew(n - 1);
      IssueIdsGrow(n - 1);
    }
  }

  lemma IssueIdIsNew(n: nat)
    ensures IssueId(n) !in IssueIds(n)
  {
    forall k | 0 <= k < n ensures IssueId(k) != IssueId(n) {
      if IssueId(k) == IssueId(n) { IssueIdsApart(k, n); }
    }
  }

  lemma IssueIdsGrow(n: nat)
    ensures IssueIds(n + 1) == IssueIds(n) + {IssueId(n)}
  {
    forall x ensures x in IssueIds(n + 1) <==> x in IssueIds(n) || x == IssueId(n) {
      if x in IssueIds(n) {
        var k :| 0 <= k < n && IssueId(k) == x;
        assert k < n + 1;
      }
    }
  }

  function FullId(i: nat): string {
    seq(60, _ => 'a') + Padded(i)
  }

  function FullIssues(): seq<string> {
    seq(MAX_ISSUES, k requires 0 <= k < MAX_ISSUES => IssueId(k))
  }

  /** A reader with everything as long as it may be. */
  function FullReader(i: nat): Reader {
    Reader(FullId(i), IssueId(0), "/t" + Padded(i), MAX_EXPIRY, Some(FullIssues()))
  }

  function FullCatalog(): (rs: seq<Reader>)
    ensures |rs| == MAX_READERS && forall i :: 0 <= i < MAX_READERS ==> rs[i] == FullReader(i)
  {
    seq(MAX_READERS, i requires 0 <= i < MAX_READERS => FullReader(i))
  }

  function TokenOf(i: nat): string {
    "ocmcp." + FullId(i) + "." + seq(64, _ => 'a')
  }

  lemma TokenIs(i: nat)
    requires i < 10000
    ensures IsToken(FullId(i), TokenOf(i)) && 0 < |TokenOf(i)| <= MAX_CREDENTIAL_BYTES
  {
    PaddedIsFour(i);
    var token, head := TokenOf(i), "ocmcp." + FullId(i) + ".";
    assert token[|token| - 1] == 'a';
    assert token[..|head|] == head && token[|head|..] == seq(64, _ => 'a');
  }

  function Tokens(n: nat): Host {
    if n == 0 then map[] else Tokens(n - 1)["/t" + Padded(n - 1) := TokenOf(n - 1)]
  }

  lemma {:induction false} TokensAt(n: nat, i: nat)
    requires i < n
    ensures "/t" + Padded(i) in Tokens(n) && Tokens(n)["/t" + Padded(i)] == TokenOf(i)
  {
    if i < n - 1 {
      TokensAt(n - 1, i);
      assert ("/t" + Padded(i))[2..] == Padded(i) && ("/t" + Padded(n - 1))[2..] == Padded(n - 1);
      PaddedValue(i);
      PaddedValue(n - 1);
    }
  }

  /** A host with that many credentials, on which a catalog is to be installed. */
  function FullHost(n: nat, text: Bytes): Host {
    Tokens(n)["/c" := text]
  }

  lemma FullIssuesAre(f: Forms)
    requires AreJsonForms(f)
    ensures forall k :: 0 <= k < MAX_ISSUES ==> f.uuid(FullIssues()[k]).Some?
    ensures Scope(FullIssues(), f) == IssueIds(MAX_ISSUES) && |f.sorted(IssueIds(MAX_ISSUES))| == MAX_ISSUES
  {
    forall k | 0 <= k < MAX_ISSUES
      ensures FullIssues()[k] == IssueId(k) && f.uuid(FullIssues()[k]) == Some(IssueId(k))
    {
      IssueIdIs(k);
    }
    IssueIdsCount(MAX_ISSUES);
  }

  lemma FullCredentialIs(n: nat, text: Bytes, i: nat)
    requires i < n <= MAX_READERS
    ensures ReadFile(FullHost(n, text), "/t" + Padded(i), MAX_CREDENTIAL_BYTES) == Some(TokenOf(i))
  {
    TokensAt(n, i);
    TokenIs(i);
    assert ("/t" + Padded(i))[1] == 't' && "/c"[1] == 'c';
  }

  lemma FullIsReadable(host: Host, i: nat, f: Forms)
    requires AreJsonForms(f) && i < MAX_READERS
    requires ReadFile(host, "/t" + Padded(i), MAX_CREDENTIAL_BYTES) == Some(TokenOf(i))
    ensures IsReadable(host, FullReader(i), f)
  {
    TokenIs(i);
    FullIssuesAre(f);
    IssueIdIs(0);
    FullIdIs(i);
  }

  lemma FullIdIs(i: nat)
    requires i < 10000
    ensures IsReaderId(FullId(i)) && |FullId(i)| == 64
  {
    PaddedIsFour(i);
    assert forall j :: 0 <= j < 4 ==> Text.IsDigit(Padded(i)[j]);
  }

  lemma FullIdsApart(i: nat, j: nat)
    requires FullId(i) == FullId(j)
    ensures i == j
  {
    assert FullId(i)[60..] == Padded(i) && FullId(j)[60..] == Padded(j);
    PaddedValue(i);
    PaddedValue(j);
  }

  lemma SortedFull(f: Forms)
    requires AreJsonForms(f)
    ensures var sorted := f.sorted(IssueIds(MAX_ISSUES));
            |sorted| == MAX_ISSUES && forall k :: 0 <= k < |sorted| ==> IsUuid(sorted[k])
  {
    FullIssuesAre(f);
    var sorted := f.sorted(IssueIds(MAX_ISSUES));
    forall k | 0 <= k < |sorted| ensures IsUuid(sorted[k]) {
      assert sorted[k] in IssueIds(MAX_ISSUES);
      var j :| 0 <= j < MAX_ISSUES && IssueId(j) == sorted[k];
      IssueIdIs(j);
    }
  }

  /** Each reader of the largest catalog takes all the room it may. */
  lemma FullSize(host: Host, i: nat, f: Forms, path: string)
    requires AreJsonForms(f) && i < MAX_READERS && IsReadable(host, FullReader(i), f)
    ensures ReaderSize(InstalledReader(host, FullReader(i), i, f).(credential := path)) == 10449 + |Escape(path)|
  {
    FullIssuesAre(f);
    SortedFull(f);
    FullIdIs(i);
    IssueIdIs(0);
    var e := InstalledReader(host, FullReader(i), i, f).(credential := path);
    assert e == Reader(FullId(i), IssueId(0), path, MAX_EXPIRY, Some(f.sorted(IssueIds(MAX_ISSUES))));
    ReaderExactly(e);
  }

  lemma ReaderExactly(e: Reader)
    requires IsReaderId(e.id) && |e.id| == 64 && IsUuid(e.project) && e.expiry == MAX_EXPIRY
    requires e.issues.Some? && |e.issues.value| == MAX_ISSUES
    requires forall k :: 0 <= k < |e.issues.value| ==> IsUuid(e.issues.value[k])
    ensures ReaderSize(e) == 10449 + |Escape(e.credential)|
  {
    PlainStays(e.id);
    UuidSize(e.project);
    ExpirySize(e.expiry);
    IssuesAtMost(e.issues.value);
  }

  lemma FullIsAllReadable(host: Host, n: nat, f: Forms)
    requires AreJsonForms(f) && n == MAX_READERS && host == FullHost(n, ReadersJson(FullCatalog()))
    ensures AllReadable(host, FullCatalog(), f)
  {
    var rs := FullCatalog();
    forall i | 0 <= i < |rs| ensures IsReadable(host, rs[i], f) {
      FullCredentialIs(n, ReadersJson(rs), i);
      FullIsReadable(host, i, f);
    }
    forall i, j | 0 <= i < j < |rs| ensures rs[i].id != rs[j].id {
      if rs[i].id == rs[j].id { FullIdsApart(i, j); }
    }
  }

  /** The largest catalog installs, */
  lemma FullInstalls(host: Host, n: nat, f: Forms)
    requires AreJsonForms(f) && n == MAX_READERS && host == FullHost(n, ReadersJson(FullCatalog()))
    ensures AllReadable(host, FullCatalog(), f)
    ensures InstallReaders(host, "/c", f) == Some(BundleOf(host, FullCatalog(), f))
  {
    var rs := FullCatalog();
    FullIsAllReadable(host, n, f);
    forall i | 0 <= i < |rs| ensures ReaderSize(rs[i]) <= 10455 {
      FullReaderSize(i);
    }
    ReadersTogether(rs, 0, 10455);
    IssueReaders.InstallIs(host, "/c", f, rs);
  }

  lemma FullReaderSize(i: nat)
    requires i < MAX_READERS
    ensures ReaderSize(FullReader(i)) == 10455
  {
    FullIdIs(i);
    IssueIdIs(0);
    forall k | 0 <= k < MAX_ISSUES ensures IsUuid(FullIssues()[k]) {
      IssueIdIs(k);
    }
    ReaderExactly(FullReader(i));
    FullPathSize(i);
  }

  lemma FullPathSize(i: nat)
    requires i < 10000
    ensures |Escape("/t" + Padded(i))| == 6
  {
    PaddedIsFour(i);
    PlainStays("/t" + Padded(i));
  }

  /** and its export takes as much room as the bundle's path leaves it. */
  lemma FullExportSize(host: Host, f: Forms, bundle: string)
    requires AreJsonForms(f) && AllReadable(host, FullCatalog(), f)
    ensures |ReadersJson(ReadersPointing(InstalledReaders(host, FullCatalog(), f), In(bundle)))|
            == 1342107 + 128 * |Escape(bundle)|
  {
    var rs := FullCatalog();
    var es := ReadersPointing(InstalledReaders(host, rs, f), In(bundle));
    forall i | 0 <= i < |es| ensures ReaderSize(es[i]) == 10483 + |Escape(bundle)| {
      var path := Inside(bundle, ReaderCredentialName(i));
      assert es[i] == InstalledReader(host, FullReader(i), i, f).(credential := path);
      FullSize(host, i, f, path);
      PathSize(bundle, i);
    }
    ReadersTogether(es, 10483 + |Escape(bundle)|, 10483 + |Escape(bundle)|);
  }

  // ---------------------------------------------------------------- the exact bound

  /** The longest JSON form of a bundle's path that leaves room for every catalog of readers. */
  const PATH_ROOM: nat := 22282

  /** Whatever readers were installed in the bundle, exporting them and installing the export reproduces them. */
  ghost predicate AlwaysRetained(bundle: string, f: Forms) {
    forall host: Host, path: string, later: Host, destination: string ::
      InstallReaders(host, path, f).Some? && Holding(later, bundle, InstallReaders(host, path, f).value.files)
      && destination !in later ==>
        IssueReaders.Reinstalled(later, bundle, destination, f) == InstallReaders(host, path, f)
  }

  /** Installed readers always fit the limit; an export fits it below every path that leaves room. */
  lemma ReadersFit(host: Host, path: string, f: Forms, bundle: string)
    requires AreJsonForms(f) && InstallReaders(host, path, f).Some?
    ensures var installed := InstallReaders(host, path, f).value.installed;
            && |f.render(installed)| < MAX_CATALOG_BYTES
            && (|Escape(bundle)| <= PATH_ROOM ==>
                  |f.render(ReadersPointing(installed, In(bundle)))| < MAX_CATALOG_BYTES)
  {
    var rs := f.parse(host[path]).value;
    forall i | 0 <= i < |rs| ensures |Escape(Runtime(ReaderCredentialName(i)))| <= 55 {
      RuntimeSize(i);
    }
    forall i | 0 <= i < |rs| ensures |Escape(In(bundle)(ReaderCredentialName(i)))| <= |Escape(bundle)| + 34 {
      PathSize(bundle, i);
    }
    CatalogAtMost(host, rs, f, Runtime, 55);
    CatalogAtMost(host, rs, f, In(bundle), |Escape(bundle)| + 34);
    InstalledPointsThere(host, rs, f);
  }

  lemma InstalledPointsThere(host: Host, rs: seq<Reader>, f: Forms)
    requires AllReadable(host, rs, f)
    ensures ReadersPointing(InstalledReaders(host, rs, f), Runtime) == InstalledReaders(host, rs, f)
  {
  }

  lemma RuntimeSize(i: nat)
    requires i < MAX_READERS
    ensures |Escape(Runtime(ReaderCredentialName(i)))| == 55
  {
    CredentialNameIs(i);
    BundleIsPlain();
    PlainStays(Runtime(ReaderCredentialName(i)));
  }

  /** An installation whose export does not fit is lost. */
  lemma LostExport(host: Host, path: string, bundle: string, f: Forms)
    requires AreForms(f) && IsAbsolute(bundle) && InstallReaders(host, path, f).Some?
    requires var installed := InstallReaders(host, path, f).value.installed;
             |f.render(ReadersPointing(installed, In(bundle)))| >= MAX_CATALOG_BYTES
    ensures !AlwaysRetained(bundle, f)
  {
    var files := InstallReaders(host, path, f).value.files;
    PlacedHolds(bundle, files);
    NotReinstalled(host, path, Placed(bundle, files), bundle, bundle + ".json", f);
  }

  lemma NotReinstalled(host: Host, path: string, later: Host, bundle: string, destination: string, f: Forms)
    requires AreForms(f) && IsAbsolute(bundle) && InstallReaders(host, path, f).Some?
    requires Holding(later, bundle, InstallReaders(host, path, f).value.files) && destination !in later
    requires var installed := InstallReaders(host, path, f).value.installed;
             |f.render(ReadersPointing(installed, In(bundle)))| >= MAX_CATALOG_BYTES
    ensures !AlwaysRetained(bundle, f)
  {
    IssueReaders.ReadersAreRetained(host, path, later, bundle, destination, f);
    assert IssueReaders.Reinstalled(later, bundle, destination, f) != InstallReaders(host, path, f);
  }

  /** The largest catalog is lost below a path that leaves no room. */
  lemma FullIsLost(bundle: string, f: Forms, host: Host, n: nat)
    requires AreJsonForms(f) && IsAbsolute(bundle) && |Escape(bundle)| > PATH_ROOM
    requires n == MAX_READERS && host == FullHost(n, ReadersJson(FullCatalog()))
    ensures !AlwaysRetained(bundle, f)
  {
    FullInstalls(host, n, f);
    FullExportSize(host, f, bundle);
    LostExport(host, "/c", bundle, f);
  }

  /** Readers are always retained exactly below the paths whose JSON form leaves them room. */
  lemma RetainedExactly(bundle: string, f: Forms)
    requires AreJsonForms(f) && IsAbsolute(bundle)
    ensures AlwaysRetained(bundle, f) <==> |Escape(bundle)| <= PATH_ROOM
  {
    if |Escape(bundle)| > PATH_ROOM {
      FullIsLost(bundle, f, FullHost(MAX_READERS, ReadersJson(FullCatalog())), MAX_READERS);
    } else {
      forall host: Host, path: string, later: Host, destination: string |
        InstallReaders(host, path, f).Some? && Holding(later, bundle, InstallReaders(host, path, f).value.files)
        && destination !in later
        ensures IssueReaders.Reinstalled(later, bundle, destination, f) == InstallReaders(host, path, f)
      {
        ReadersFit(host, path, f, bundle);
        IssueReaders.ReadersAreRetained(host, path, later, bundle, destination, f);
      }
    }
  }

  // ---------------------------------------------------------------- paths of a host

  /** The bytes of a character in UTF-8. */
  function Utf8Length(c: char): nat {
    if c as int < 0x80 then 1 else if c as int < 0x800 then 2 else if c as int < 0x10000 then 3 else 4
  }

  function PathLength(s: string): nat {
    if s == "" then 0 else Utf8Length(s[0]) + PathLength(s[1..])
  }

  predicate IsControl(c: char) {
    c < ' ' || c as int == 127
  }

  const MAX_PATH: nat := 4096

  lemma {:induction false} EscapeIsShort(s: string)
    requires forall i :: 0 <= i < |s| ==> !IsControl(s[i])
    ensures |Escape(s)| <= 3 * PathLength(s)
  {
    if s != "" {
      EscapeIsShort(s[1..]);
    }
  }

  /** So they are retained below every path that a host can have, without control characters in it. */
  lemma HostPathsRetain(bundle: string, f: Forms)
    requires AreJsonForms(f) && IsAbsolute(bundle) && PathLength(bundle) <= MAX_PATH
    requires forall i :: 0 <= i < |bundle| ==> !IsControl(bundle[i])
    ensures AlwaysRetained(bundle, f)
  {
    EscapeIsShort(bundle);
    RetainedExactly(bundle, f);
  }

  /** Names of 250 control characters each, one below the other. */
  function Deep(k: nat): string {
    if k == 0 then "" else "/" + seq(250, _ => 1 as char) + Deep(k - 1)
  }

  lemma {:induction false} ControlLength(n: nat)
    ensures |Escape(seq(n, _ => 1 as char))| == 6 * n && PathLength(seq(n, _ => 1 as char)) == n
  {
    if n > 0 {
      var s := seq(n, _ => 1 as char);
      assert s[1..] == seq(n - 1, _ => 1 as char);
      ControlLength(n - 1);
    }
  }

  lemma {:induction false} PathsTogether(s: string, t: string)
    ensures PathLength(s + t) == PathLength(s) + PathLength(t)
  {
    if s == "" {
      assert s + t == t;
    } else {
      assert (s + t)[1..] == s[1..] + t;
      PathsTogether(s[1..], t);
    }
  }

  lemma {:induction false} DeepLength(k: nat)
    ensures |Escape(Deep(k))| == 1501 * k && PathLength(Deep(k)) == 251 * k
  {
    if k > 0 {
      var name := seq(250, _ => 1 as char);
      DeepLength(k - 1);
      ControlLength(250);
      EscapeTogether("/" + name, Deep(k - 1));
      EscapeTogether("/", name);
      PathsTogether("/" + name, Deep(k - 1));
      PathsTogether("/", name);
      assert Escape("/") == "/" && PathLength("/") == 1;
    }
  }

  /** Below a path within the host's limit that is made of control characters, they are not. */
  lemma ControlPathLoses(f: Forms)
    requires AreJsonForms(f)
    ensures IsAbsolute(Deep(15)) && PathLength(Deep(15)) + 31 <= MAX_PATH && !AlwaysRetained(Deep(15), f)
  {
    var bundle := Deep(15);
    DeepLength(15);
    RetainedExactly(bundle, f);
  }
}
