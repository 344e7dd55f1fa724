/**
 The host's private files, the names that an installation gives to its copies, and what an export
 can come to.
 */
module HostFiles {
  import opened Values
  import Text

  /** The private regular files of the host, by absolute path. */
  type Host = map<string, Bytes>

  const MAX_CATALOG_BYTES: nat := 4 * 1024 * 1024
  const MAX_CREDENTIAL_BYTES: nat := 64 * 1024

  function ReadFile(host: Host, path: string, limit: nat): Option<Bytes> {
    if path in host && 0 < |host[path]| <= limit then Some(host[path]) else None
  }

  predicate IsAbsolute(path: string) {
    path != "" && path[0] == '/'
  }

  function Runtime(name: string): string {
    "/run/octacity-secrets/" + name
  }

  function Inside(directory: string, name: string): string {
    directory + "/" + name
  }

  function In(directory: string): string -> string {
    name => Inside(directory, name)
  }

  /** Parsing undoes rendering, with or without a final newline. */
  ghost predicate IsCodec<D(!new)>(render: D -> Bytes, parse: Bytes -> Option<D>) {
    forall d :: render(d) != "" && parse(render(d)) == Some(d) && parse(render(d) + "\n") == Some(d)
  }

  // ---------------------------------------------------------------- names in the bundle

  /** `{:04d}` */
  function Padded(i: nat): string {
    if i < 10 then "000" + Text.Decimal(i)
    else if i < 100 then "00" + Text.Decimal(i)
    else if i < 1000 then "0" + Text.Decimal(i)
    else Text.Decimal(i)
  }

  lemma {:induction false} LeadingZero(s: string)
    requires Text.Digits(s)
    ensures Text.Digits("0" + s) && Text.Value("0" + s) == Text.Value(s)
  {
    var z := "0" + s;
    if s == "" {
      assert z[..0] == "";
    } else {
      LeadingZero(s[..|s| - 1]);
      assert z[..|z| - 1] == "0" + s[..|s| - 1];
    }
  }

  lemma PaddedValue(i: nat)
    ensures Text.Digits(Padded(i)) && Text.Value(Padded(i)) == i && Padded(i) != ""
  {
    Text.DecimalValue(i);
    ThreeZeros(Text.Decimal(i));
  }

  lemma ThreeZeros(d: string)
    requires Text.Digits(d)
    ensures Text.Digits("0" + d) && Text.Digits("00" + d) && Text.Digits("000" + d)
    ensures Text.Value("0" + d) == Text.Value("00" + d) == Text.Value("000" + d) == Text.Value(d)
  {
    LeadingZero(d);
    LeadingZero("0" + d);
    assert "0" + ("0" + d) == "00" + d;
    LeadingZero("00" + d);
    assert "0" + ("00" + d) == "000" + d;
  }

  function Numbered(prefix: string, i: nat, suffix: string): string {
    prefix + Padded(i) + suffix
  }

  lemma NumberedApart(prefix: string, i: nat, j: nat, suffix: string)
    ensures Numbered(prefix, i, suffix) == Numbered(prefix, j, suffix) ==> i == j
  {
    var a, b := Numbered(prefix, i, suffix), Numbered(prefix, j, suffix);
    PaddedValue(i);
    PaddedValue(j);
    if a == b {
      assert a[|prefix|..|a| - |suffix|] == Padded(i);
      assert b[|prefix|..|b| - |suffix|] == Padded(j);
    }
  }

  predicate HasPrefix(s: string, prefix: string) {
    |prefix| <= |s| && s[..|prefix|] == prefix
  }

  /** A name within one directory. */
  predicate IsTop(name: string) {
    '/' !in name
  }

  lemma NumberedPrefix(prefix: string, i: nat, suffix: string)
    requires IsTop(prefix) && IsTop(suffix)
    ensures HasPrefix(Numbered(prefix, i, suffix), prefix) && IsTop(Numbered(prefix, i, suffix))
  {
    PaddedValue(i);
    assert Numbered(prefix, i, suffix) == prefix + (Padded(i) + suffix);
    assert forall k :: 0 <= k < |Padded(i)| ==> Text.IsDigit(Padded(i)[k]);
  }

  /** What exporting an installed catalog comes to. */
  datatype Export = Absent | Invalid | Written(contents: Bytes)

  /** The directory holds these files. */
  predicate Holding(host: Host, directory: string, files: map<string, Bytes>) {
    forall name :: name in files ==> Inside(directory, name) in host && host[Inside(directory, name)] == files[name]
  }
}
