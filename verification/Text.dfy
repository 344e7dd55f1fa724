/** Splitting, joining and decimal numerals, as the Python string functions do them. */
module Text {

  predicate Free(s: string, sep: char) {
    sep !in s
  }

  function Split(s: string, sep: char): (parts: seq<string>)
    ensures parts != []
  {
    if s == [] then [[]]
    else
      var rest := Split(s[1..], sep);
      if s[0] == sep then [[]] + rest else [[s[0]] + rest[0]] + rest[1..]
  }

  function Join(parts: seq<string>, sep: char): string {
    if parts == [] then "" else if |parts| == 1 then parts[0] else parts[0] + [sep] + Join(parts[1..], sep)
  }

  /** Splitting loses nothing, */
  lemma {:induction false} JoinSplit(s: string, sep: char)
    ensures Join(Split(s, sep), sep) == s
  {
    if s != [] {
      JoinSplit(s[1..], sep);
      var rest := Split(s[1..], sep);
      if s[0] == sep {
        assert ([[]] + rest)[1..] == rest;
      } else {
        var parts := [[s[0]] + rest[0]] + rest[1..];
        assert parts[1..] == rest[1..];
        if |rest| > 1 {
          assert Join(parts, sep) == [s[0]] + (rest[0] + [sep] + Join(rest[1..], sep));
        }
      }
    }
  }

  /** leaves no separator in a part, */
  lemma {:induction false} SplitFree(s: string, sep: char)
    ensures forall i :: 0 <= i < |Split(s, sep)| ==> Free(Split(s, sep)[i], sep)
  {
    if s != [] {
      SplitFree(s[1..], sep);
    }
  }

  lemma {:induction false} SplitChars(s: string, sep: char, i: nat, c: char)
    requires i < |Split(s, sep)| && c in Split(s, sep)[i]
    ensures c in s
  {
    if s != [] {
      var rest := Split(s[1..], sep);
      if s[0] == sep {
        SplitChars(s[1..], sep, i - 1, c);
      } else if i > 0 {
        SplitChars(s[1..], sep, i, c);
      } else if c != s[0] {
        SplitChars(s[1..], sep, 0, c);
      }
    }
  }

  lemma {:induction false} JoinChars(parts: seq<string>, sep: char, c: char)
    requires c in Join(parts, sep)
    ensures c == sep || exists i :: 0 <= i < |parts| && c in parts[i]
  {
    if |parts| == 1 {
      assert c in parts[0];
    } else if |parts| > 1 {
      if c in Join(parts[1..], sep) && c != sep {
        JoinChars(parts[1..], sep, c);
        var i :| 0 <= i < |parts[1..]| && c in parts[1..][i];
        assert c in parts[i + 1];
      } else {
        assert c in parts[0] || c == sep;
      }
    }
  }

  lemma {:induction false} SplitPrefix(part: string, s: string, sep: char)
    requires Free(part, sep)
    ensures Split(part + [sep] + s, sep) == [part] + Split(s, sep)
  {
    var all := part + [sep] + s;
    if part == [] {
      assert all[1..] == s;
    } else {
      SplitPrefix(part[1..], s, sep);
      assert all[1..] == part[1..] + [sep] + s && all[0] == part[0];
      assert [part[0]] + part[1..] == part;
    }
  }

  lemma {:induction false} SplitWhole(part: string, sep: char)
    requires Free(part, sep)
    ensures Split(part, sep) == [part]
  {
    if part != [] {
      SplitWhole(part[1..], sep);
      assert [part[0]] + part[1..] == part;
    }
  }

  /** and undoes joining. */
  lemma {:induction false} SplitJoin(parts: seq<string>, sep: char)
    requires parts != [] && forall i :: 0 <= i < |parts| ==> Free(parts[i], sep)
    ensures Split(Join(parts, sep), sep) == parts
  {
    if |parts| == 1 {
      SplitWhole(parts[0], sep);
    } else {
      SplitJoin(parts[1..], sep);
      SplitPrefix(parts[0], Join(parts[1..], sep), sep);
    }
  }

  lemma {:induction false} JoinAppend(parts: seq<string>, last: string, sep: char)
    ensures Join(parts + [last], sep) == if parts == [] then last else Join(parts, sep) + [sep] + last
  {
    if |parts| == 0 {
    } else if |parts| == 1 {
      assert (parts + [last])[1..] == [last];
    } else {
      JoinAppend(parts[1..], last, sep);
      assert (parts + [last])[1..] == parts[1..] + [last];
    }
  }

  // ---------------------------------------------------------------- lines

  /** The characters at which Python's `splitlines` breaks. */
  predicate IsBreak(c: char) {
    '\n' <= c <= '\r' || 0x1c as char <= c <= 0x1e as char || c == 0x85 as char || c == 0x2028 as char
          || c == 0x2029 as char
  }

  predicate IsLine(s: string) {
    forall c :: c in s ==> !IsBreak(c)
  }

  function FirstBreak(s: string): (k: nat)
    ensures k <= |s| && IsLine(s[..k]) && (k < |s| ==> IsBreak(s[k]))
  {
    if s == "" || IsBreak(s[0]) then 0
    else
      var k := FirstBreak(s[1..]);
      assert s[..k + 1] == [s[0]] + s[1..][..k];
      k + 1
  }

  function SplitLines(s: string): seq<string> {
    if s == "" then []
    else
      var k := FirstBreak(s);
      if k == |s| then [s]
      else if s[k] == '\r' && k + 1 < |s| && s[k + 1] == '\n' then [s[..k]] + SplitLines(s[k + 2..])
      else [s[..k]] + SplitLines(s[k + 1..])
  }

  lemma {:induction false} FirstBreakAt(line: string, rest: string)
    requires IsLine(line)
    ensures FirstBreak(line + "\n" + rest) == |line|
  {
    if line != "" {
      assert (line + "\n" + rest)[1..] == line[1..] + "\n" + rest;
      assert line[0] in line && forall c :: c in line[1..] ==> c in line;
      FirstBreakAt(line[1..], rest);
    }
  }

  lemma SplitLine(line: string, rest: string)
    requires IsLine(line)
    ensures SplitLines(line + "\n" + rest) == [line] + SplitLines(rest)
  {
    var s := line + "\n" + rest;
    FirstBreakAt(line, rest);
    assert s[|line|] == '\n' && s[..|line|] == line && s[|line| + 1..] == rest;
  }

  lemma {:induction false} SplitLinesAreLines(s: string)
    ensures forall i :: 0 <= i < |SplitLines(s)| ==> IsLine(SplitLines(s)[i])
    decreases |s|
  {
    if s != "" {
      var k := FirstBreak(s);
      if k < |s| {
        SplitLinesAreLines(s[k + 1..]);
        if k + 1 < |s| {
          SplitLinesAreLines(s[k + 2..]);
        }
      } else {
        assert s[..k] == s;
      }
    }
  }

  /** Python's white space. */
  predicate IsSpace(c: char) {
    || '\t' <= c <= '\r' || 0x1c as char <= c <= ' ' || c == 0x85 as char || c == 0xa0 as char || c == 0x1680 as char
    || 0x2000 as char <= c <= 0x200a as char || c == 0x2028 as char || c == 0x2029 as char || c == 0x202f as char
    || c == 0x205f as char || c == 0x3000 as char
  }

  function StripLeft(s: string): string {
    if s != "" && IsSpace(s[0]) then StripLeft(s[1..]) else s
  }

  function StripRight(s: string): string {
    if s != "" && IsSpace(s[|s| - 1]) then StripRight(s[..|s| - 1]) else s
  }

  function Strip(s: string): string {
    StripRight(StripLeft(s))
  }

  lemma {:induction false} StripLeftKeeps(s: string)
    ensures StripLeft(s) != "" ==> !IsSpace(StripLeft(s)[0])
    ensures forall c :: c in StripLeft(s) ==> c in s
  {
    if s != "" && IsSpace(s[0]) {
      StripLeftKeeps(s[1..]);
    }
  }

  lemma {:induction false} StripRightKeeps(s: string)
    ensures StripRight(s) != "" ==> !IsSpace(StripRight(s)[|StripRight(s)| - 1]) && StripRight(s)[0] == s[0]
    ensures forall c :: c in StripRight(s) ==> c in s
  {
    if s != "" && IsSpace(s[|s| - 1]) {
      StripRightKeeps(s[..|s| - 1]);
    }
  }

  /** Stripping leaves neither end blank and adds nothing. */
  lemma StripIsBare(s: string)
    ensures Strip(s) != "" ==> !IsSpace(Strip(s)[0]) && !IsSpace(Strip(s)[|Strip(s)| - 1])
    ensures forall c :: c in Strip(s) ==> c in s
  {
    StripLeftKeeps(s);
    StripRightKeeps(StripLeft(s));
  }

  /** A SHA-256 digest in lower-case hexadecimal. */
  predicate IsDigest(s: string) {
    |s| == 64 && forall i :: 0 <= i < 64 ==> '0' <= s[i] <= '9' || 'a' <= s[i] <= 'f'
  }

  // ---------------------------------------------------------------- POSIX paths

  function Named(parts: seq<string>): seq<string> {
    if parts == [] then []
    else if parts[0] == "" || parts[0] == "." then Named(parts[1..])
    else [parts[0]] + Named(parts[1..])
  }

  /** The components of a path: empty and "." ones are dropped. */
  function PathComponents(path: string): seq<string> {
    Named(Split(path, '/'))
  }

  // ---------------------------------------------------------------- decimal numerals

  predicate IsDigit(c: char) { '0' <= c <= '9' }

  function DigitOf(n: nat): char
    requires n < 10
  {
    '0' + n as char
  }

  function DigitValue(c: char): nat
    requires IsDigit(c)
  {
    c as int - '0' as int
  }

  predicate Digits(s: string) {
    forall i :: 0 <= i < |s| ==> IsDigit(s[i])
  }

  /** `0|[1-9][0-9]*` */
  predicate IsDecimal(s: string) {
    s != [] && Digits(s) && (s[0] == '0' ==> |s| == 1)
  }

  function Decimal(n: nat): string {
    if n < 10 then [DigitOf(n)] else Decimal(n / 10) + [DigitOf(n % 10)]
  }

  function Value(s: string): nat
    requires Digits(s)
  {
    if s == [] then 0 else 10 * Value(s[..|s| - 1]) + DigitValue(s[|s| - 1])
  }

  lemma {:induction false} DecimalValue(n: nat)
    ensures IsDecimal(Decimal(n)) && Value(Decimal(n)) == n
    ensures n > 0 ==> Decimal(n)[0] != '0'
  {
    if n >= 10 {
      DecimalValue(n / 10);
      var front := Decimal(n / 10);
      assert Decimal(n)[..|Decimal(n)| - 1] == front;
    } else {
      assert Decimal(n)[..0] == [];
    }
  }

  lemma {:induction false} ValuePositive(s: string)
    requires Digits(s) && s != [] && s[0] != '0'
    ensures Value(s) > 0
  {
    if |s| > 1 {
      ValuePositive(s[..|s| - 1]);
    }
  }

  lemma {:induction false} ValueDecimal(s: string)
    requires IsDecimal(s)
    ensures Decimal(Value(s)) == s
  {
    var n := |s| - 1;
    if n == 0 {
      assert s[..0] == [];
    } else {
      ValueDecimal(s[..n]);
      ValuePositive(s[..n]);
      assert s == s[..n] + [s[n]];
    }
  }
}
