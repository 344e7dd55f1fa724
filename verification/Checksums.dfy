/**
 The checksum inventory of a release: the printer that lists a digest and a name per line, and
 the two verifiers that read it back, one in the console packager and one in the native stager.
 */
module Checksums {
  import opened Values
  import Text

  const INVENTORY_NAME: string := "SHA256SUMS"
  const MAX_INVENTORY_BYTES: nat := 4 * 1024 * 1024
  const MAX_RELEASE_FILES: nat := 4096

  // ---------------------------------------------------------------- the printer

  function Line(digest: string, name: string): string {
    digest + "  " + name
  }

  /** One line per file; `order` is the sorted list of names. */
  function Print(order: seq<string>, digests: map<string, string>): string
    requires forall i :: 0 <= i < |order| ==> order[i] in digests
  {
    if order == [] then "" else Line(digests[order[0]], order[0]) + "\n" + Print(order[1..], digests)
  }

  // ---------------------------------------------------------------- the readers

  /** The index of the first pair of spaces, or the length without one. */
  function FirstGap(s: string): (k: nat)
    ensures k <= |s| && (k < |s| ==> k + 1 < |s| && s[k] == ' ' && s[k + 1] == ' ')
  {
    if |s| < 2 then |s| else if s[0] == ' ' && s[1] == ' ' then 0 else FirstGap(s[1..]) + 1
  }

  type PathRule = string -> Option<string>

  /** One more line of the inventory. */
  function ReadLine(sofar: map<string, string>, line: string, safe: PathRule): Option<map<string, string>> {
    var k := FirstGap(line);
    if k == |line| then None
    else
      match safe(line[k + 2..])
      case None => None
      case Some(name) =>
        if !Text.IsDigest(line[..k]) || name == INVENTORY_NAME || name in sofar then None
        else Some(sofar[name := line[..k]])
  }

  function ReadAll(sofar: map<string, string>, lines: seq<string>, safe: PathRule): Option<map<string, string>>
    decreases |lines|
  {
    if lines == [] then Some(sofar)
    else
      match ReadLine(sofar, lines[0], safe)
      case None => None
      case Some(more) => ReadAll(more, lines[1..], safe)
  }

  method ReadInventory(text: string, safe: PathRule) returns (inventory: Option<map<string, string>>)
    ensures inventory == ReadAll(map[], Text.SplitLines(text), safe)
  {
    var lines := Text.SplitLines(text);
    var checked: map<string, string> := map[];
    for i := 0 to |lines|
      invariant ReadAll(map[], lines, safe) == ReadAll(checked, lines[i..], safe)
    {
      assert lines[i..][1..] == lines[i + 1..];
      var line := lines[i];
      var k := FirstGap(line);
      if k == |line| {
        return None;
      }
      var digest := line[..k];
      var relative := safe(line[k + 2..]);
      if relative.None? || !Text.IsDigest(digest) || relative.value == INVENTORY_NAME || relative.value in checked {
        return None;
      }
      checked := checked[relative.value := digest];
    }
    return Some(checked);
  }

  /** How Python spells a path with these components; without any it is ".". */
  function AsPosix(parts: seq<string>): string {
    if parts == [] then "." else Text.Join(parts, '/')
  }

  /** The console packager's rule: relative, normalized, no backslash; one trailing slash is dropped. */
  function ConsolePath(value: string): Option<string> {
    var candidate := if value != "" && value[|value| - 1] == '/' then value[..|value| - 1] else value;
    var parts := Text.PathComponents(candidate);
    if candidate == "" || value[0] == '/' || '\\' in value || ".." in parts || AsPosix(parts) != candidate
    then None
    else Some(candidate)
  }

  /** The native stager's rule: relative and inside the release; other spellings are normalized. */
  function NativePath(value: string): Option<string> {
    var parts := Text.PathComponents(value);
    if (value != "" && value[0] == '/') || parts == [] || ".." in parts then None else Some(AsPosix(parts))
  }

  /** The digests of a file set, its inventory aside. */
  function Digests<C>(files: map<string, C>, sha256: C -> string): map<string, string> {
    map name | name in files :: sha256(files[name])
  }

  method SameDigests<C>(inventory: map<string, string>, files: map<string, C>, sha256: C -> string) returns (ok: bool)
    ensures ok <==> inventory == Digests(files, sha256)
  {
    if inventory.Keys != files.Keys {
      return false;
    }
    var pending := inventory.Keys;
    while pending != {}
      invariant pending <= inventory.Keys
      invariant forall name :: name in inventory && name !in pending ==> inventory[name] == sha256(files[name])
      decreases |pending|
    {
      var name :| name in pending;
      if sha256(files[name]) != inventory[name] {
        assert Digests(files, sha256)[name] != inventory[name];
        return false;
      }
      pending := pending - {name};
    }
    return true;
  }

  method VerifyConsole<C>(text: string, files: map<string, C>, sha256: C -> string) returns (ok: bool)
    ensures ok <==> ReadAll(map[], Text.SplitLines(text), ConsolePath) == Some(Digests(files, sha256))
  {
    var inventory := ReadInventory(text, ConsolePath);
    if inventory.None? {
      return false;
    }
    ok := SameDigests(inventory.value, files, sha256);
  }

  /** `size` is the length of the inventory file in bytes. */
  method VerifyNative<C>(text: string, size: nat, files: map<string, C>, sha256: C -> string) returns (ok: bool)
    ensures ok <==>
      size <= MAX_INVENTORY_BYTES && 0 < |files| <= MAX_RELEASE_FILES
      && ReadAll(map[], Text.SplitLines(text), NativePath) == Some(Digests(files, sha256))
  {
    if size > MAX_INVENTORY_BYTES {
      return false;
    }
    var inventory := ReadInventory(text, NativePath);
    assert Digests(files, sha256).Keys == files.Keys;
    if inventory.None? || |inventory.value| > MAX_RELEASE_FILES || |inventory.value| == 0 {
      return false;
    }
    ok := SameDigests(inventory.value, files, sha256);
  }

  // ---------------------------------------------------------------- reading what was printed

  /** A name that a rule keeps as it is and that fits on a line of the inventory. */
  predicate Listable(name: string, safe: PathRule) {
    safe(name) == Some(name) && Text.IsLine(name) && name != INVENTORY_NAME
  }

  lemma {:induction false} FirstGapAt(digest: string, name: string)
    requires forall i :: 0 <= i < |digest| ==> digest[i] != ' '
    ensures FirstGap(Line(digest, name)) == |digest|
  {
    var line := Line(digest, name);
    if digest != "" {
      FirstGapAt(digest[1..], name);
      assert line[1..] == Line(digest[1..], name);
    }
  }

  lemma ReadPrintedLine(sofar: map<string, string>, digest: string, name: string, safe: PathRule)
    requires Text.IsDigest(digest) && Listable(name, safe) && name !in sofar
    ensures Text.IsLine(Line(digest, name)) && ReadLine(sofar, Line(digest, name), safe) == Some(sofar[name := digest])
  {
    FirstGapAt(digest, name);
    var line := Line(digest, name);
    assert line[..64] == digest && line[64 + 2..] == name;
    forall c | c in line ensures !Text.IsBreak(c) {
      assert c in digest || c == ' ' || c in name;
    }
  }

  function Keep(order: seq<string>, digests: map<string, string>): map<string, string> {
    map name | name in order && name in digests :: digests[name]
  }

  lemma KeepFirst(sofar: map<string, string>, order: seq<string>, digests: map<string, string>)
    requires order != [] && order[0] in digests && order[0] !in sofar
    ensures sofar[order[0] := digests[order[0]]] + Keep(order[1..], digests) == sofar + Keep(order, digests)
  {
    var name, rest := order[0], order[1..];
    assert order == [name] + rest;
    var l, r := sofar[name := digests[name]] + Keep(rest, digests), sofar + Keep(order, digests);
    assert l.Keys == r.Keys;
    forall k | k in l ensures l[k] == r[k] {
    }
  }

  lemma ReadStep(sofar: map<string, string>, line: string, rest: seq<string>, safe: PathRule)
    requires ReadLine(sofar, line, safe).Some?
    ensures ReadAll(sofar, [line] + rest, safe) == ReadAll(ReadLine(sofar, line, safe).value, rest, safe)
  {
    assert ([line] + rest)[1..] == rest;
  }

  predicate AllListable(order: seq<string>, digests: map<string, string>, safe: PathRule) {
    && (forall i, j :: 0 <= i < j < |order| ==> order[i] != order[j])
    && (forall i :: 0 <= i < |order| ==>
          order[i] in digests && Text.IsDigest(digests[order[i]]) && Listable(order[i], safe))
  }

  lemma {:induction false} ReadPrinted(sofar: map<string, string>, order: seq<string>, digests: map<string, string>,
      safe: PathRule)
    requires AllListable(order, digests, safe)
    requires forall i :: 0 <= i < |order| ==> order[i] !in sofar
    ensures ReadAll(sofar, Text.SplitLines(Print(order, digests)), safe) == Some(sofar + Keep(order, digests))
    decreases |order|
  {
    if order == [] {
      assert sofar + Keep(order, digests) == sofar;
    } else {
      var name, digest, rest := order[0], digests[order[0]], order[1..];
      ReadPrintedFirst(sofar, digest, name, Print(rest, digests), safe);
      ReadPrinted(sofar[name := digest], rest, digests, safe);
      KeepFirst(sofar, order, digests);
    }
  }

  /** The first line of a printed inventory is read, and then the others. */
  lemma ReadPrintedFirst(sofar: map<string, string>, digest: string, name: string, rest: string, safe: PathRule)
    requires Text.IsDigest(digest) && Listable(name, safe) && name !in sofar
    ensures ReadAll(sofar, Text.SplitLines(Line(digest, name) + "\n" + rest), safe)
         == ReadAll(sofar[name := digest], Text.SplitLines(rest), safe)
  {
    ReadPrintedLine(sofar, digest, name, safe);
    Text.SplitLine(Line(digest, name), rest);
    ReadStep(sofar, Line(digest, name), Text.SplitLines(rest), safe);
  }

  /** `order` lists every file once, each with a name the rule keeps. */
  ghost predicate Lists<C>(order: seq<string>, files: map<string, C>, safe: PathRule) {
    && (forall i, j :: 0 <= i < j < |order| ==> order[i] != order[j])
    && (forall name :: name in order <==> name in files)
    && (forall i :: 0 <= i < |order| ==> Listable(order[i], safe))
  }

  lemma KeepAll(order: seq<string>, digests: map<string, string>)
    requires forall name :: name in order <==> name in digests
    ensures map[] + Keep(order, digests) == digests
  {
  }

  /** Parsing the printed inventory gives back exactly the name-to-digest map. */
  lemma InventoryRoundTrip<C>(order: seq<string>, files: map<string, C>, sha256: C -> string, safe: PathRule)
    requires Lists(order, files, safe)
    requires forall name :: name in files ==> Text.IsDigest(sha256(files[name]))
    ensures ReadAll(map[], Text.SplitLines(Print(order, Digests(files, sha256))), safe) == Some(Digests(files, sha256))
  {
    var digests := Digests(files, sha256);
    KeepAll(order, digests);
    ReadPrinted(map[], order, digests, safe);
  }

  lemma SameDigestsMean<C>(a: map<string, C>, b: map<string, C>, sha256: C -> string)
    ensures Digests(a, sha256) == Digests(b, sha256) <==>
            a.Keys == b.Keys && forall name :: name in a ==> sha256(a[name]) == sha256(b[name])
  {
    var p, q := Digests(a, sha256), Digests(b, sha256);
    assert p.Keys == a.Keys && q.Keys == b.Keys;
    assert p == q ==> forall name :: name in a ==> p[name] == q[name];
  }

  /** So a verifier accepts a file set against the inventory printed for another exactly when both have
      the same names and digests. */
  lemma VerifiedExactlyWhenEqual<C>(
    order: seq<string>, printed: map<string, C>, found: map<string, C>, sha256: C -> string, safe: PathRule)
    requires Lists(order, printed, safe)
    requires forall name :: name in printed ==> Text.IsDigest(sha256(printed[name]))
    ensures ReadAll(map[], Text.SplitLines(Print(order, Digests(printed, sha256))), safe) ==
            Some(Digests(found, sha256)) <==>
            printed.Keys == found.Keys && forall name :: name in printed ==>
                  sha256(printed[name]) == sha256(found[name])
  {
    InventoryRoundTrip(order, printed, sha256, safe);
    SameDigestsMean(printed, found, sha256);
  }

  // ---------------------------------------------------------------- which names the rules keep

  /** The name of a file below a directory: no empty, "." or ".." component. */
  predicate IsFileName(name: string) {
    var parts := Text.Split(name, '/');
    forall i :: 0 <= i < |parts| ==> parts[i] != "" && parts[i] != "." && parts[i] != ".."
  }

  lemma {:induction false} NamedKeeps(parts: seq<string>)
    ensures (forall i :: 0 <= i < |parts| ==> parts[i] != "" && parts[i] != ".") ==> Text.Named(parts) == parts
    ensures forall p :: p in Text.Named(parts) ==> p in parts && p != "" && p != "."
  {
    if parts != [] {
      NamedKeeps(parts[1..]);
      assert parts == [parts[0]] + parts[1..];
    }
  }

  lemma NormalizedExactly(name: string)
    ensures IsFileName(name) <==>
            var parts := Text.PathComponents(name); parts != [] && ".." !in parts && Text.Join(parts, '/') == name
  {
    var all, parts := Text.Split(name, '/'), Text.PathComponents(name);
    NamedKeeps(all);
    Text.JoinSplit(name, '/');
    Text.SplitFree(name, '/');
    if parts != [] && ".." !in parts && Text.Join(parts, '/') == name {
      forall i | 0 <= i < |parts| ensures Text.Free(parts[i], '/') {
        assert parts[i] in all;
      }
      Text.SplitJoin(parts, '/');
      assert forall i :: 0 <= i < |all| ==> all[i] in parts;
    }
  }

  /** The stager keeps the name of every file there can be; the packager all but those with a backslash,
      and "." besides, which is the name of no file. */
  lemma KeptNames(name: string)
    ensures NativePath(name) == Some(name) <==> IsFileName(name)
    ensures ConsolePath(name) == Some(name) <==> name == "." || (IsFileName(name) && '\\' !in name)
  {
    NormalizedExactly(name);
    Text.SplitWhole(".", '/');
    assert Text.PathComponents(".") == [];
    if name != "" && name[0] == '/' {
      FirstPart(name);
    }
    if name != "" && name[|name| - 1] == '/' {
      LastPart(name);
    }
  }

  lemma FirstPart(name: string)
    requires name != "" && name[0] == '/'
    ensures !IsFileName(name)
  {
    assert Text.Split(name, '/')[0] == "";
  }

  lemma {:induction false} LastPart(name: string)
    requires name != "" && name[|name| - 1] == '/'
    ensures var parts := Text.Split(name, '/'); parts[|parts| - 1] == "" && |parts| > 1
  {
    if |name| > 1 {
      LastPart(name[1..]);
    }
  }
}
