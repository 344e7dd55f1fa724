/**
 The build-context policy of the local stand: a compiler from ignore patterns to regular
 expressions, the last-match-wins evaluation of a rule list over a path and its ancestors, and
 the validator whose point is that no allow rule can ever re-admit a mandatory exclusion.
 */
module DockerContext {
  import opened Values
  import Text

  // ---------------------------------------------------------------- regular expressions

  /** The fragment of Python regular expressions that the compiler emits. */
  datatype Regex =
    | Literal(c: char)
    | Dot                          // any character except a line break
    | NotSlash                     // [^/]
    | Star(body: Regex)
    | Optional(body: Regex)
    | Concat(left: Regex, right: Regex)
    | Empty

  /** `text` is in the language of `r`. */
  predicate Accepts(r: Regex, text: string)
    decreases r, |text|
  {
    match r
    case Literal(c) => text == [c]
    case Dot => |text| == 1 && text[0] != '\n'
    case NotSlash => |text| == 1 && text[0] != '/'
    case Empty => text == []
    case Optional(body) => text == [] || Accepts(body, text)
    case Concat(left, right) =>
      exists k :: 0 <= k <= |text| && Accepts(left, text[..k]) && Accepts(right, text[k..])
    case Star(body) =>
      text == [] || exists k :: 0 < k <= |text| && Accepts(body, text[..k]) && Accepts(r, text[k..])
  }

  predicate AcceptsAll(pieces: seq<Regex>, text: string)
    decreases |pieces|
  {
    if pieces == [] then text == []
    else exists k :: 0 <= k <= |text| && Accepts(pieces[0], text[..k]) && AcceptsAll(pieces[1..], text[k..])
  }

  // ---------------------------------------------------------------- the compiler

  const ANY_SEGMENT: Regex := Star(NotSlash)
  const ANYTHING: Regex := Star(Dot)
  const ANY_PARENT: Regex := Optional(Concat(Star(Dot), Literal('/')))

  predicate DoubleStar(pattern: string) {
    |pattern| >= 2 && pattern[0] == '*' && pattern[1] == '*'
  }

  predicate DoubleStarSlash(pattern: string) {
    DoubleStar(pattern) && |pattern| >= 3 && pattern[2] == '/'
  }

  /** The pieces of the expression, by cases on the front of the pattern. */
  function Pieces(pattern: string): seq<Regex> {
    if pattern == [] then []
    else if DoubleStarSlash(pattern) then [ANY_PARENT] + Pieces(pattern[3..])
    else if DoubleStar(pattern) then [ANYTHING] + Pieces(pattern[2..])
    else if pattern[0] == '*' then [ANY_SEGMENT] + Pieces(pattern[1..])
    else if pattern[0] == '?' then [NotSlash] + Pieces(pattern[1..])
    else [Literal(pattern[0])] + Pieces(pattern[1..])
  }

  /** The compiler as it runs: an index that jumps over what it consumed and a growing list. */
  method GlobRegex(pattern: string) returns (pieces: seq<Regex>)
    ensures pieces == Pieces(pattern)
  {
    pieces := [];
    var index := 0;
    while index < |pattern|
      invariant 0 <= index <= |pattern|
      invariant pieces + Pieces(pattern[index..]) == Pieces(pattern)
    {
      var character := pattern[index];
      ghost var from := index;
      var piece: Regex;
      if character == '*' {
        if index + 1 < |pattern| && pattern[index + 1] == '*' {
          index := index + 2;
          if index < |pattern| && pattern[index] == '/' {
            piece := ANY_PARENT;
            index := index + 1;
          } else {
            piece := ANYTHING;
          }
        } else {
          piece := ANY_SEGMENT;
          index := index + 1;
        }
      } else {
        piece := if character == '?' then NotSlash else Literal(character);
        index := index + 1;
      }
      NextPiece(pattern, from, index, piece);
      Regroup(pieces, piece, Pieces(pattern[index..]));
      pieces := pieces + [piece];
    }
  }

  lemma Regroup(done: seq<Regex>, piece: Regex, rest: seq<Regex>)
    ensures done + ([piece] + rest) == (done + [piece]) + rest
  {
  }

  /** One turn of the loop consumes what the front of the pattern stands for. */
  lemma NextPiece(pattern: string, from: nat, to: nat, piece: Regex)
    requires from < to <= |pattern|
    requires
      var rest := pattern[from..];
      if DoubleStarSlash(rest) then to == from + 3 && piece == ANY_PARENT
      else if DoubleStar(rest) then to == from + 2 && piece == ANYTHING
      else to == from + 1 && piece ==
            (if rest[0] == '*' then ANY_SEGMENT else if rest[0] == '?' then NotSlash else Literal(rest[0]))
    ensures Pieces(pattern[from..]) == [piece] + Pieces(pattern[to..])
  {
    assert pattern[from..][to - from..] == pattern[to..];
  }

  // ---------------------------------------------------------------- what a pattern means

  /** The meaning of an ignore pattern, told on the path itself one character at a time. */
  predicate Means(pattern: string, path: string)
    decreases |pattern|, |path|
  {
    if pattern == [] then path == []
    else if DoubleStarSlash(pattern) then
      Means(pattern[3..], path)
      || exists k :: 0 <= k < |path| && path[k] == '/' && Means(pattern[3..], path[k + 1..])
    else if DoubleStar(pattern) then
      Means(pattern[2..], path) || (path != [] && Means(pattern, path[1..]))
    else if pattern[0] == '*' then
      Means(pattern[1..], path) || (path != [] && path[0] != '/' && Means(pattern, path[1..]))
    else if pattern[0] == '?' then
      path != [] && path[0] != '/' && Means(pattern[1..], path[1..])
    else
      path != [] && path[0] == pattern[0] && Means(pattern[1..], path[1..])
  }

  predicate OneLine(path: string) {
    '\n' !in path
  }

  /** What the matcher makes of a pattern on any path: as it means, but a `**` crosses no line break. */
  predicate Matches(pattern: string, path: string)
    decreases |pattern|, |path|
  {
    if pattern == [] then path == []
    else if DoubleStarSlash(pattern) then
      Matches(pattern[3..], path)
      || exists k :: 0 <= k < |path| && path[k] == '/' && OneLine(path[..k]) && Matches(pattern[3..], path[k + 1..])
    else if DoubleStar(pattern) then
      Matches(pattern[2..], path) || (path != [] && path[0] != '\n' && Matches(pattern, path[1..]))
    else if pattern[0] == '*' then
      Matches(pattern[1..], path) || (path != [] && path[0] != '/' && Matches(pattern, path[1..]))
    else if pattern[0] == '?' then
      path != [] && path[0] != '/' && Matches(pattern[1..], path[1..])
    else
      path != [] && path[0] == pattern[0] && Matches(pattern[1..], path[1..])
  }

  /** The two are the same on a path of one line. */
  lemma {:induction false} OneLineAgrees(pattern: string, path: string)
    requires OneLine(path)
    ensures Matches(pattern, path) <==> Means(pattern, path)
    decreases |pattern|, |path|
  {
    if pattern == [] {
    } else if DoubleStarSlash(pattern) {
      OneLineAgrees(pattern[3..], path);
      forall k | 0 <= k < |path| && path[k] == '/'
        ensures Matches(pattern[3..], path[k + 1..]) <==> Means(pattern[3..], path[k + 1..])
      {
        OneLineAgrees(pattern[3..], path[k + 1..]);
      }
    } else if DoubleStar(pattern) || pattern[0] == '*' {
      OneLineAgrees(pattern[if DoubleStar(pattern) then 2 else 1..], path);
      if path != [] { OneLineAgrees(pattern, path[1..]); }
    } else if path != [] {
      OneLineAgrees(pattern[1..], path[1..]);
    }
  }

  predicate SingleChar(r: Regex, c: char) {
    match r
    case Dot => c != '\n'
    case NotSlash => c != '/'
    case _ => false
  }

  /** A starred character class accepts exactly the strings over that class. */
  lemma {:induction false} StarOfClass(r: Regex, text: string)
    requires r == Dot || r == NotSlash
    ensures Accepts(Star(r), text) <==> forall i :: 0 <= i < |text| ==> SingleChar(r, text[i])
    decreases |text|
  {
    if text != [] {
      StarOfClass(r, text[1..]);
      if Accepts(Star(r), text) {
        var k :| 0 < k <= |text| && Accepts(r, text[..k]) && Accepts(Star(r), text[k..]);
        assert k == 1;
        assert text == [text[0]] + text[1..];
      }
      if forall i :: 0 <= i < |text| ==> SingleChar(r, text[i]) {
        assert Accepts(r, text[..1]) && Accepts(Star(r), text[1..]);
      }
    }
  }

  lemma BodyEndsInSlash(text: string)
    requires Accepts(Concat(Star(Dot), Literal('/')), text)
    ensures text != [] && text[|text| - 1] == '/' && OneLine(text)
  {
    var k :| 0 <= k <= |text| && Accepts(Star(Dot), text[..k]) && Accepts(Literal('/'), text[k..]);
    var front, last := text[..k], text[k..];
    StarOfClass(Dot, front);
    assert last == ['/'];
    assert text == front + ['/'];
    SlashKeepsLine(front);
  }

  lemma SlashKeepsLine(front: string)
    requires forall i :: 0 <= i < |front| ==> SingleChar(Dot, front[i])
    ensures OneLine(front + ['/']) && (front + ['/'])[|front|] == '/'
  {
  }

  lemma BodyTakesParent(text: string)
    requires OneLine(text) && Accepts(Star(Dot), text)
    ensures Accepts(Concat(Star(Dot), Literal('/')), text + ['/'])
  {
    var whole, k := text + ['/'], |text|;
    assert whole[..k] == text && whole[k..] == ['/'];
    assert Accepts(Literal('/'), ['/']);
  }

  lemma ParentPrefix(text: string)
    ensures Accepts(ANY_PARENT, text) <==> text == [] || (text[|text| - 1] == '/' && OneLine(text))
  {
    if text != [] {
      if Accepts(Concat(Star(Dot), Literal('/')), text) {
        BodyEndsInSlash(text);
      } else if text[|text| - 1] == '/' {
        var front := text[..|text| - 1];
        StarOfClass(Dot, front);
        assert text == front + ['/'];
        if OneLine(text) {
          assert forall c :: c in front ==> c in text;
          BodyTakesParent(front);
        }
      }
    }
  }

  /** One piece in front of others: the text splits after what the piece takes. */
  lemma SplitFirst(piece: Regex, rest: seq<Regex>, text: string)
    ensures AcceptsAll([piece] + rest, text)
            <==> exists k :: 0 <= k <= |text| && Accepts(piece, text[..k]) && AcceptsAll(rest, text[k..])
  {
    assert ([piece] + rest)[1..] == rest;
  }

  lemma StarTakesOne(r: Regex, rest: seq<Regex>, text: string)
    requires (r == Dot || r == NotSlash) && AcceptsAll([Star(r)] + rest, text) && !AcceptsAll(rest, text)
    ensures text != [] && SingleChar(r, text[0]) && AcceptsAll([Star(r)] + rest, text[1..])
  {
    SplitFirst(Star(r), rest, text);
    var k :| 0 <= k <= |text| && Accepts(Star(r), text[..k]) && AcceptsAll(rest, text[k..]);
    assert text[0..] == text;
    StarOfClass(r, text[..k]);
    assert text[..k][0] == text[0];
    var tail := text[1..];
    StarOfClass(r, tail[..k - 1]);
    assert tail[..k - 1] == text[..k][1..];
    assert tail[k - 1..] == text[k..];
    SplitFirst(Star(r), rest, tail);
  }

  lemma StarCons(r: Regex, c: char, text: string)
    requires (r == Dot || r == NotSlash) && SingleChar(r, c) && Accepts(Star(r), text)
    ensures Accepts(Star(r), [c] + text)
  {
    var longer := [c] + text;
    assert longer[..1] == [c] && longer[1..] == text;
  }

  lemma Follow(piece: Regex, rest: seq<Regex>, a: string, b: string)
    requires Accepts(piece, a) && AcceptsAll(rest, b)
    ensures AcceptsAll([piece] + rest, a + b)
  {
    SplitFirst(piece, rest, a + b);
    assert (a + b)[..|a|] == a && (a + b)[|a|..] == b;
  }

  lemma StarGrows(r: Regex, rest: seq<Regex>, c: char, a: string, b: string)
    requires (r == Dot || r == NotSlash) && SingleChar(r, c) && Accepts(Star(r), a) && AcceptsAll(rest, b)
    ensures AcceptsAll([Star(r)] + rest, ([c] + a) + b)
  {
    StarCons(r, c, a);
    Follow(Star(r), rest, [c] + a, b);
  }

  lemma Recut(c: char, tail: string, k: nat)
    requires k <= |tail|
    ensures ([c] + tail[..k]) + tail[k..] == [c] + tail
  {
  }

  lemma StarGivesOne(r: Regex, rest: seq<Regex>, c: char, tail: string)
    requires (r == Dot || r == NotSlash) && SingleChar(r, c) && AcceptsAll([Star(r)] + rest, tail)
    ensures AcceptsAll([Star(r)] + rest, [c] + tail)
  {
    SplitFirst(Star(r), rest, tail);
    var k :| 0 <= k <= |tail| && Accepts(Star(r), tail[..k]) && AcceptsAll(rest, tail[k..]);
    StarGrows(r, rest, c, tail[..k], tail[k..]);
    Recut(c, tail, k);
  }

  /** A starred class in front: take nothing, or one more character of the class. */
  lemma StarFirst(r: Regex, rest: seq<Regex>, text: string)
    requires r == Dot || r == NotSlash
    ensures AcceptsAll([Star(r)] + rest, text) <==>
            AcceptsAll(rest, text)
            || (text != [] && SingleChar(r, text[0]) && AcceptsAll([Star(r)] + rest, text[1..]))
  {
    if AcceptsAll(rest, text) {
      SplitFirst(Star(r), rest, text);
      assert text[..0] == [] && text[0..] == text;
    } else if text != [] && SingleChar(r, text[0]) && AcceptsAll([Star(r)] + rest, text[1..]) {
      assert [text[0]] + text[1..] == text;
      StarGivesOne(r, rest, text[0], text[1..]);
    } else if AcceptsAll([Star(r)] + rest, text) {
      StarTakesOne(r, rest, text);
    }
  }

  lemma CharFirst(r: Regex, rest: seq<Regex>, text: string)
    requires r.Literal? || r == NotSlash
    ensures AcceptsAll([r] + rest, text) <==>
            text != [] && (if r.Literal? then text[0] == r.c else text[0] != '/') && AcceptsAll(rest, text[1..])
  {
    SplitFirst(r, rest, text);
    if text != [] {
      assert text[..1] == [text[0]];
    }
    assert forall k :: 0 <= k <= |text| && Accepts(r, text[..k]) ==> k == 1;
  }

  lemma ParentTakes(rest: seq<Regex>, text: string, k: nat)
    requires k < |text| && text[k] == '/' && OneLine(text[..k]) && AcceptsAll(rest, text[k + 1..])
    ensures AcceptsAll([ANY_PARENT] + rest, text)
  {
    var front := text[..k] + ['/'];
    assert text == front + text[k + 1..];
    ParentPrefix(front);
    Follow(ANY_PARENT, rest, front, text[k + 1..]);
  }

  lemma ParentGives(rest: seq<Regex>, text: string) returns (k: nat)
    requires AcceptsAll([ANY_PARENT] + rest, text) && !AcceptsAll(rest, text)
    ensures k < |text| && text[k] == '/' && OneLine(text[..k]) && AcceptsAll(rest, text[k + 1..])
  {
    SplitFirst(ANY_PARENT, rest, text);
    var n :| 0 <= n <= |text| && Accepts(ANY_PARENT, text[..n]) && AcceptsAll(rest, text[n..]);
    ParentPrefix(text[..n]);
    assert n > 0 by {
      assert text[0..] == text;
    }
    k := n - 1;
    FrontIsOneLine(text, n);
  }

  lemma FrontIsOneLine(text: string, n: nat)
    requires 0 < n <= |text| && OneLine(text[..n])
    ensures OneLine(text[..n - 1]) && text[..n][|text[..n]| - 1] == text[n - 1]
  {
    assert forall c :: c in text[..n - 1] ==> c in text[..n];
  }

  lemma ParentFirst(rest: seq<Regex>, text: string)
    ensures AcceptsAll([ANY_PARENT] + rest, text) <==>
            AcceptsAll(rest, text)
            || exists k :: 0 <= k < |text| && text[k] == '/' && OneLine(text[..k]) && AcceptsAll(rest, text[k + 1..])
  {
    if AcceptsAll(rest, text) {
      ParentPrefix([]);
      assert [] + text == text;
      Follow(ANY_PARENT, rest, [], text);
    } else if AcceptsAll([ANY_PARENT] + rest, text) {
      var k := ParentGives(rest, text);
    } else if exists k :: 0 <= k < |text| && text[k] == '/' && OneLine(text[..k]) && AcceptsAll(rest, text[k + 1..]) {
      var k :| 0 <= k < |text| && text[k] == '/' && OneLine(text[..k]) && AcceptsAll(rest, text[k + 1..]);
      ParentTakes(rest, text, k);
    }
  }

  /** The compiled expression accepts exactly the matches, on every path, */
  lemma {:induction false} CompiledMatches(pattern: string, path: string)
    ensures AcceptsAll(Pieces(pattern), path) <==> Matches(pattern, path)
    decreases |pattern|, |path|
  {
    if pattern == [] {
    } else if DoubleStarSlash(pattern) {
      var rest := Pieces(pattern[3..]);
      ParentFirst(rest, path);
      CompiledMatches(pattern[3..], path);
      forall k | 0 <= k < |path| && path[k] == '/'
        ensures AcceptsAll(rest, path[k + 1..]) <==> Matches(pattern[3..], path[k + 1..])
      {
        CompiledMatches(pattern[3..], path[k + 1..]);
      }
    } else if DoubleStar(pattern) {
      StarFirst(Dot, Pieces(pattern[2..]), path);
      CompiledMatches(pattern[2..], path);
      if path != [] { CompiledMatches(pattern, path[1..]); }
    } else if pattern[0] == '*' {
      StarFirst(NotSlash, Pieces(pattern[1..]), path);
      CompiledMatches(pattern[1..], path);
      if path != [] { CompiledMatches(pattern, path[1..]); }
    } else {
      CharFirst(Pieces(pattern)[0], Pieces(pattern[1..]), path);
      if path != [] { CompiledMatches(pattern[1..], path[1..]); }
    }
  }

  /** and so exactly what the pattern means on a path of one line. */
  lemma CompiledMeansPattern(pattern: string, path: string)
    requires OneLine(path)
    ensures AcceptsAll(Pieces(pattern), path) <==> Means(pattern, path)
  {
    CompiledMatches(pattern, path);
    OneLineAgrees(pattern, path);
  }

  // ---------------------------------------------------------------- rules

  const MANDATORY_FINAL_DENIES: set<string> := {
    ".git/**",
    "**/.env.*",
    "**/*.key",
    "**/*.pem",
    "**/node_modules/**",
    "**/target/**",
    ".local-stand/**",
    "deployment/local-stand/generated/**",
    "deployment/local-stand/state/**"
  }

  predicate IsAllow(rule: string) {
    rule != [] && rule[0] == '!'
  }

  function StripLeft(s: string): string {
    if s != [] && s[0] == '/' then StripLeft(s[1..]) else s
  }

  function StripRight(s: string): string {
    if s != [] && s[|s| - 1] == '/' then StripRight(s[..|s| - 1]) else s
  }

  predicate RuleMatches(rule: string, path: string, isDirectory: bool) {
    var pattern := if IsAllow(rule) then rule[1..] else rule;
    var directoryOnly := pattern != [] && pattern[|pattern| - 1] == '/';
    (directoryOnly ==> isDirectory) && AcceptsAll(Pieces(StripRight(StripLeft(pattern))), path)
  }

  /** The last rule that matches decides; without one the path is in. */
  ghost predicate Admitted(path: string, isDirectory: bool, rules: seq<string>) {
    || (forall i :: 0 <= i < |rules| ==> !RuleMatches(rules[i], path, isDirectory))
    || (exists i :: 0 <= i < |rules| && RuleMatches(rules[i], path, isDirectory) && IsAllow(rules[i])
                    && forall j :: i < j < |rules| ==> !RuleMatches(rules[j], path, isDirectory))
  }

  method PathState(path: string, isDirectory: bool, rules: seq<string>) returns (included: bool)
    ensures included <==> Admitted(path, isDirectory, rules)
  {
    included := true;
    ghost var last := -1;
    for n := 0 to |rules|
      invariant -1 <= last < n
      invariant forall j :: last < j < n ==> !RuleMatches(rules[j], path, isDirectory)
      invariant if last < 0 then included
                else RuleMatches(rules[last], path, isDirectory) && included == IsAllow(rules[last])
    {
      if RuleMatches(rules[n], path, isDirectory) {
        included := IsAllow(rules[n]);
        last := n;
      }
    }
  }

  // ---------------------------------------------------------------- paths

  /** The components that a normalized POSIX path keeps. */
  function Components(path: string): seq<string> {
    Text.PathComponents(path)
  }

  function Join(parts: seq<string>): string {
    Text.Join(parts, '/')
  }

  predicate RelativePath(path: string) {
    (path == [] || path[0] != '/') && Components(path) != [] && ".." !in Components(path)
  }

  /** Every ancestor directory, and then the path itself, must be admitted. */
  ghost predicate Included(parts: seq<string>, rules: seq<string>) {
    forall depth :: 1 <= depth <= |parts| ==> Admitted(Join(parts[..depth]), depth < |parts|, rules)
  }

  datatype Verdict = InvalidPath | Verdict(included: bool)

  method DockerPathIncluded(path: string, rules: seq<string>) returns (verdict: Verdict)
    ensures verdict.InvalidPath? <==> !RelativePath(path)
    ensures verdict.Verdict? ==> (verdict.included <==> Included(Components(path), rules))
  {
    var parts := Components(path);
    if (path != [] && path[0] == '/') || parts == [] || ".." in parts {
      return InvalidPath;
    }
    for depth := 1 to |parts|
      invariant forall d :: 1 <= d < depth ==> Admitted(Join(parts[..d]), d < |parts|, rules)
    {
      var parentIncluded := PathState(Join(parts[..depth]), true, rules);
      if !parentIncluded {
        return Verdict(false);
      }
    }
    assert parts[..|parts|] == parts;
    var included := PathState(Join(parts), false, rules);
    return Verdict(included);
  }

  // ---------------------------------------------------------------- the validator

  /** Default deny first, and every mandatory exclusion present and first met after the last allow. */
  ghost predicate Validated(rules: seq<string>) {
    && rules != [] && rules[0] == "**"
    && (forall m :: m in MANDATORY_FINAL_DENIES ==> m in rules)
    && (forall i, k ::
          0 <= i < |rules| && 0 <= k < |rules| && IsAllow(rules[i]) && rules[k] in MANDATORY_FINAL_DENIES ==> i < k)
  }

  method FirstIndex(rules: seq<string>, rule: string) returns (k: nat)
    requires rule in rules
    ensures k < |rules| && rules[k] == rule && forall j :: 0 <= j < k ==> rules[j] != rule
  {
    k := 0;
    while rules[k] != rule
      invariant k < |rules| && forall j :: 0 <= j < k ==> rules[j] != rule
      invariant exists j :: k <= j < |rules| && rules[j] == rule
      decreases |rules| - k
    {
      k := k + 1;
    }
  }

  /** The largest index of an allow rule, 0 without one. */
  method LastAllow(rules: seq<string>) returns (last: nat)
    ensures last == 0 || (last < |rules| && IsAllow(rules[last]))
    ensures forall i :: 0 <= i < |rules| && IsAllow(rules[i]) ==> i <= last
  {
    last := 0;
    for index := 0 to |rules|
      invariant last == 0 || (last < index && IsAllow(rules[last]))
      invariant forall i :: 0 <= i < index && IsAllow(rules[i]) ==> i <= last
    {
      if IsAllow(rules[index]) {
        last := index;
      }
    }
  }

  method AllFollow(rules: seq<string>, denies: set<string>, last: nat) returns (ok: bool)
    requires forall m :: m in denies ==> m in rules
    ensures ok <==> forall k :: 0 <= k < |rules| && rules[k] in denies ==> last < k
  {
    var pending := denies;
    while pending != {}
      invariant pending <= denies
      invariant forall k :: 0 <= k < |rules| && rules[k] in denies && rules[k] !in pending ==> last < k
      decreases |pending|
    {
      var m :| m in pending;
      var k := FirstIndex(rules, m);
      if k <= last {
        return false;
      }
      pending := pending - {m};
    }
    return true;
  }

  method ValidateDockerignore(rules: seq<string>) returns (ok: bool)
    ensures ok <==> Validated(rules)
  {
    if rules == [] || rules[0] != "**" {
      return false;
    }
    if !forall m :: m in MANDATORY_FINAL_DENIES ==> m in rules {
      return false;
    }
    var last := LastAllow(rules);
    ok := AllFollow(rules, MANDATORY_FINAL_DENIES, last);
    assert rules[0] !in MANDATORY_FINAL_DENIES;
  }

  // ---------------------------------------------------------------- the rules of a file

  /** A line that is neither blank nor a comment. */
  predicate IsActive(line: string) {
    Text.Strip(line) != "" && Text.Strip(line)[0] != '#'
  }

  function Active(lines: seq<string>): seq<string> {
    if lines == [] then []
    else if IsActive(lines[|lines| - 1]) then Active(lines[..|lines| - 1]) + [Text.Strip(lines[|lines| - 1])]
    else Active(lines[..|lines| - 1])
  }

  method ActiveDockerRules(text: string) returns (rules: seq<string>)
    ensures rules == Active(Text.SplitLines(text))
  {
    var lines := Text.SplitLines(text);
    rules := [];
    for i := 0 to |lines|
      invariant rules == Active(lines[..i])
    {
      assert lines[..i + 1][..i] == lines[..i];
      if IsActive(lines[i]) {
        rules := rules + [Text.Strip(lines[i])];
      }
    }
    assert lines[..|lines|] == lines;
  }

  /** The active rules are the stripped lines that are neither blank nor comments: no rule is blank at either end,
      begins with a number sign or breaks a line. */
  lemma {:induction false} ActiveAreLines(lines: seq<string>, rule: string)
    requires forall i :: 0 <= i < |lines| ==> Text.IsLine(lines[i])
    ensures rule in Active(lines) <==>
            exists i :: 0 <= i < |lines| && IsActive(lines[i]) && Text.Strip(lines[i]) == rule
    ensures rule in Active(lines) ==>
      rule != "" && rule[0] != '#' && !Text.IsSpace(rule[0]) && !Text.IsSpace(rule[|rule| - 1]) && Text.IsLine(rule)
  {
    if lines != [] {
      var n := |lines| - 1;
      ActiveAreLines(lines[..n], rule);
      Text.StripIsBare(lines[n]);
      assert forall i :: 0 <= i < n ==> lines[..n][i] == lines[i];
    }
  }

  /** The rules of the file, if they pass. */
  method ValidateFile(text: string) returns (rules: Option<seq<string>>)
    ensures rules == if Validated(Active(Text.SplitLines(text))) then Some(Active(Text.SplitLines(text))) else None
  {
    var active := ActiveDockerRules(text);
    var ok := ValidateDockerignore(active);
    return if ok then Some(active) else None;
  }

  /** So no rule of a file breaks a line. */
  lemma RulesOfAFile(text: string, rule: string)
    requires rule in Active(Text.SplitLines(text))
    ensures rule != "" && rule[0] != '#' && Text.IsLine(rule) && OneLine(rule)
  {
    Text.SplitLinesAreLines(text);
    ActiveAreLines(Text.SplitLines(text), rule);
    assert Text.IsBreak('\n');
  }

  // ---------------------------------------------------------------- what validation guarantees

  predicate Bare(pattern: string) {
    pattern != [] && pattern[0] != '!' && pattern[0] != '/' && pattern[|pattern| - 1] != '/'
  }

  lemma MandatoryAreBare(m: string)
    requires m in MANDATORY_FINAL_DENIES
    ensures Bare(m)
  {
  }

  lemma MandatoryMatches(m: string, path: string, isDirectory: bool)
    requires m in MANDATORY_FINAL_DENIES
    ensures RuleMatches(m, path, isDirectory) <==> Matches(m, path)
  {
    MandatoryAreBare(m);
    CompiledMatches(m, path);
  }

  /** No allow rule re-admits what a mandatory exclusion matches. */
  lemma MandatoryDenies(rules: seq<string>, m: string, path: string, isDirectory: bool)
    requires Validated(rules) && m in MANDATORY_FINAL_DENIES && Matches(m, path)
    ensures !Admitted(path, isDirectory, rules)
  {
    MandatoryMatches(m, path, isDirectory);
    var k :| 0 <= k < |rules| && rules[k] == m;
    assert forall i :: 0 <= i < |rules| && IsAllow(rules[i]) ==> i < k;
  }

  /** A mandatory exclusion matches the path, or a directory above it. */
  ghost predicate IsExcluded(parts: seq<string>) {
    exists m, depth :: m in MANDATORY_FINAL_DENIES && 1 <= depth <= |parts| && Matches(m, Join(parts[..depth]))
  }

  ghost function Listed(s: set<string>): (r: seq<string>)
    ensures forall x :: x in r <==> x in s
  {
    if s == {} then []
    else
      var x :| x in s;
      [x] + Listed(s - {x})
  }

  /** Everything is allowed that the validator lets be allowed. */
  ghost function Permissive(): seq<string> {
    ["**", "!**"] + Listed(MANDATORY_FINAL_DENIES)
  }

  lemma PermissiveAt(i: nat)
    requires 2 <= i < |Permissive()|
    ensures Permissive()[i] in MANDATORY_FINAL_DENIES
  {
    assert Permissive()[i] == Listed(MANDATORY_FINAL_DENIES)[i - 2];
    assert Permissive()[i] in Listed(MANDATORY_FINAL_DENIES);
  }

  lemma PermissiveIsValidated()
    ensures Validated(Permissive())
  {
    var rules, denies := Permissive(), Listed(MANDATORY_FINAL_DENIES);
    forall m | m in MANDATORY_FINAL_DENIES ensures m in rules && !IsAllow(m) {
      assert m in denies;
      MandatoryAreBare(m);
    }
    forall i, k | 0 <= i < |rules| && 0 <= k < |rules| && IsAllow(rules[i]) && rules[k] in MANDATORY_FINAL_DENIES
      ensures i < k
    {
      NotMandatory();
      assert rules[0] == "**" && rules[1] == "!**";
    }
  }

  lemma NotMandatory()
    ensures "**" !in MANDATORY_FINAL_DENIES && "!**" !in MANDATORY_FINAL_DENIES
  {
    if "!**" in MANDATORY_FINAL_DENIES {
      MandatoryAreBare("!**");
    }
  }

  /** An allow rule matches what the rule without its mark does. */
  lemma AllowMatches(rule: string, path: string, isDirectory: bool)
    requires !IsAllow(rule)
    ensures IsAllow("!" + rule) && (RuleMatches("!" + rule, path, isDirectory) <==>
            RuleMatches(rule, path, isDirectory))
  {
    assert ("!" + rule)[1..] == rule;
  }

  lemma AllowedOrUnmatched(rules: seq<string>, path: string, isDirectory: bool)
    requires |rules| >= 2 && IsAllow(rules[1])
    requires RuleMatches(rules[1], path, isDirectory) <==> RuleMatches(rules[0], path, isDirectory)
    requires forall i :: 2 <= i < |rules| ==> !RuleMatches(rules[i], path, isDirectory)
    ensures Admitted(path, isDirectory, rules)
  {
    if !RuleMatches(rules[1], path, isDirectory) {
      assert forall i :: 0 <= i < |rules| ==> !RuleMatches(rules[i], path, isDirectory);
    }
  }

  /** It admits whatever no mandatory exclusion matches: a line breaks the hold of the default deny as well. */
  lemma PermissiveAdmits(path: string, isDirectory: bool)
    requires forall m :: m in MANDATORY_FINAL_DENIES ==> !Matches(m, path)
    ensures Admitted(path, isDirectory, Permissive())
  {
    var rules := Permissive();
    assert rules[1] == "!" + rules[0];
    AllowMatches(rules[0], path, isDirectory);
    forall i | 2 <= i < |rules| ensures !RuleMatches(rules[i], path, isDirectory) {
      PermissiveAt(i);
      MandatoryMatches(rules[i], path, isDirectory);
    }
    AllowedOrUnmatched(rules, path, isDirectory);
  }

  /** Whatever the allow rules say, a path stays out of the build context exactly when a mandatory exclusion matches
      it or a directory above it. */
  lemma MandatoryExclusionsHold(parts: seq<string>)
    ensures (forall rules :: Validated(rules) ==> !Included(parts, rules)) <==> IsExcluded(parts)
  {
    if IsExcluded(parts) {
      var m, depth :| m in MANDATORY_FINAL_DENIES && 1 <= depth <= |parts| && Matches(m, Join(parts[..depth]));
      forall rules | Validated(rules) ensures !Included(parts, rules) {
        MandatoryDenies(rules, m, Join(parts[..depth]), depth < |parts|);
      }
    } else {
      PermissiveIsValidated();
      PermissiveIncludes(parts);
    }
  }

  lemma PermissiveIncludes(parts: seq<string>)
    requires !IsExcluded(parts)
    ensures Included(parts, Permissive())
  {
    forall depth | 1 <= depth <= |parts| ensures Admitted(Join(parts[..depth]), depth < |parts|, Permissive()) {
      PermissiveAdmits(Join(parts[..depth]), depth < |parts|);
    }
  }

  predicate Plain(text: string) {
    forall i :: 0 <= i < |text| ==> text[i] != '*' && text[i] != '?'
  }

  /** Ordinary characters in a pattern stand for themselves. */
  lemma {:induction false} LiteralPrefix(text: string, pattern: string, path: string)
    requires Plain(text)
    ensures Means(text + pattern, text + path) <==> Means(pattern, path)
  {
    if text == [] {
      assert text + pattern == pattern && text + path == path;
    } else {
      LiteralPrefix(text[1..], pattern, path);
      assert (text + pattern)[1..] == text[1..] + pattern && (text + path)[1..] == text[1..] + path;
    }
  }

  lemma {:induction false} DoubleStarMatchesAll(path: string)
    ensures Means("**", path)
  {
    if path != [] {
      DoubleStarMatchesAll(path[1..]);
    }
  }

  /** `**` + "/c/" + `**` matches every path with a component c that is not the last. */
  lemma MatchesBelow(c: string, parents: string, child: string)
    requires Plain(c)
    requires parents == "" || parents[|parents| - 1] == '/'
    ensures Means("**/" + c + "/**", parents + c + "/" + child)
  {
    var pattern := "**/" + c + "/**";
    var rest := c + "/**";
    assert pattern[3..] == rest;
    var body := c + "/";
    assert rest == body + "**";
    LiteralPrefix(body, "**", child);
    DoubleStarMatchesAll(child);
    var path := parents + c + "/" + child;
    if parents == "" {
      assert path == body + child;
    } else {
      var k := |parents| - 1;
      assert path[k] == '/' && path[k + 1..] == body + child;
    }
  }

  lemma MatchesBelowComponent(parts: seq<string>, i: nat)
    requires i + 1 < |parts| && Plain(parts[i])
    ensures Means("**/" + parts[i] + "/**", Join(parts[..i + 2]))
  {
    var c, child := parts[i], parts[i + 1];
    var before := parts[..i];
    assert parts[..i + 1] == before + [c] && parts[..i + 2] == parts[..i + 1] + [child];
    Text.JoinAppend(before, c, '/');
    Text.JoinAppend(parts[..i + 1], child, '/');
    var parents := if before == [] then "" else Join(before) + "/";
    assert Join(parts[..i + 2]) == parents + c + "/" + child;
    MatchesBelow(c, parents, child);
  }

  lemma BuildOutputIsDenied(c: string)
    requires c == "target" || c == "node_modules"
    ensures Plain(c) && "**/" + c + "/**" in MANDATORY_FINAL_DENIES
  {
    assert "**/" + "target" + "/**" == "**/target/**" && "**/" + "node_modules" + "/**" == "**/node_modules/**";
  }

  /** Nothing below a `target` or `node_modules` directory, at any depth, reaches the builder, as far as no name on
      the way to it breaks a line. */
  lemma BuildOutputNeverIncluded(rules: seq<string>, parts: seq<string>, i: nat)
    requires Validated(rules) && i + 1 < |parts| && (parts[i] == "target" || parts[i] == "node_modules")
    requires OneLine(Join(parts[..i + 2]))
    ensures !Included(parts, rules)
  {
    BuildOutputIsDenied(parts[i]);
    MatchesBelowComponent(parts, i);
    OneLineAgrees("**/" + parts[i] + "/**", Join(parts[..i + 2]));
    MandatoryDenies(rules, "**/" + parts[i] + "/**", Join(parts[..i + 2]), i + 2 < |parts|);
  }

  lemma {:induction false} LiteralMatches(text: string, pattern: string, path: string)
    requires Plain(text)
    ensures Matches(text + pattern, text + path) <==> Matches(pattern, path)
  {
    if text == [] {
      assert text + pattern == pattern && text + path == path;
    } else {
      LiteralMatches(text[1..], pattern, path);
      assert (text + pattern)[1..] == text[1..] + pattern && (text + path)[1..] == text[1..] + path;
    }
  }

  lemma {:induction false} StarsCrossNoLine(path: string)
    ensures Matches("**", path) <==> OneLine(path)
  {
    assert "**"[2..] == [];
    if path != [] {
      StarsCrossNoLine(path[1..]);
      assert path == [path[0]] + path[1..];
    }
  }

  /** A suffix with a dot needs a dot. */
  lemma {:induction false} NoDot(rest: string, path: string)
    requires '.' !in path
    ensures !Matches("*." + rest, path)
    decreases |path|
  {
    var pattern := "*." + rest;
    assert pattern[1..] == "." + rest && !DoubleStar(pattern);
    if path != [] {
      assert path[0] in path;
      NoDot(rest, path[1..]);
    }
  }

  /** Behind any parents a pattern is tried at the beginning and after each slash. */
  lemma AfterParents(rest: string, path: string, k: nat)
    requires forall i :: 0 <= i < |path| && path[i] == '/' ==> i == k
    requires !Matches(rest, path) && (k < |path| ==> !Matches(rest, path[k + 1..]))
    ensures !Matches("**/" + rest, path)
  {
    assert ("**/" + rest)[3..] == rest;
  }

  lemma Differs(pattern: string, path: string)
    requires pattern != [] && pattern[0] != '*' && pattern[0] != '?' && (path == [] || path[0] != pattern[0])
    ensures !Matches(pattern, path)
  {
  }

  /** A pattern behind any parents, tried at the two places where it could begin. */
  lemma Refused(rest: string, path: string, k: nat)
    requires rest != [] && rest[0] != '*' && rest[0] != '?' && rest[0] != 't' && rest[0] != 'a'
    requires path != [] && path[0] == 't' && forall i :: 0 <= i < |path| && path[i] == '/' ==> i == k
    requires k < |path| ==> k + 1 < |path| && path[k + 1] == 'a'
    ensures !Matches("**/" + rest, path)
  {
    Differs(rest, path);
    if k < |path| {
      Differs(rest, path[k + 1..]);
    }
    AfterParents(rest, path, k);
  }

  lemma RefusedSuffix(rest: string, path: string, k: nat)
    requires '.' !in path && forall i :: 0 <= i < |path| && path[i] == '/' ==> i == k
    ensures !Matches("**/*." + rest, path)
  {
    NoDot(rest, path);
    if k < |path| {
      NoDot(rest, path[k + 1..]);
    }
    AfterParents("*." + rest, path, k);
    assert "**/" + ("*." + rest) == "**/*." + rest;
  }

  lemma RefusedOwn(rest: string, path: string, k: nat)
    requires rest != [] && rest[0] == 't' && !Matches(rest, path)
    requires forall i :: 0 <= i < |path| && path[i] == '/' ==> i == k
    requires k < |path| ==> k + 1 < |path| && path[k + 1] == 'a'
    ensures !Matches("**/" + rest, path)
  {
    if k < |path| {
      Differs(rest, path[k + 1..]);
    }
    AfterParents(rest, path, k);
  }

  const BELOW_TARGET: string := "target/**"

  /** The mandatory exclusions by their beginnings. */
  ghost predicate BeginsAs(m: string, rest: string) {
    || (m != [] && m[0] in ['.', 'd'])
    || (m == "**/" + rest && rest != [] && rest[0] in ['.', 'n'])
    || (m == "**/*." + rest)
    || (m == "**/" + rest && rest == BELOW_TARGET)
  }

  lemma Beginnings(m: string) returns (rest: string)
    requires m in MANDATORY_FINAL_DENIES
    ensures BeginsAs(m, rest)
  {
    rest := if m == "**/.env.*" then ".env.*" else if m == "**/node_modules/**" then "node_modules/**"
            else if m == "**/*.key" then "key" else if m == "**/*.pem" then "pem" else BELOW_TARGET;
    assert "**/" + ".env.*" == "**/.env.*" && "**/" + "node_modules/**" == "**/node_modules/**";
    assert "**/*." + "key" == "**/*.key" && "**/*." + "pem" == "**/*.pem" && "**/" + BELOW_TARGET == "**/target/**";
  }

  /** No mandatory exclusion matches a path of one or two names like these. */
  lemma NoneMatches(m: string, rest: string, path: string, k: nat)
    requires BeginsAs(m, rest)
    requires path != [] && path[0] == 't' && '.' !in path && (rest == BELOW_TARGET ==> !Matches(rest, path))
    requires forall i :: 0 <= i < |path| && path[i] == '/' ==> i == k
    requires k < |path| ==> k + 1 < |path| && path[k + 1] == 'a'
    ensures !Matches(m, path)
  {
    if m != [] && m[0] in ['.', 'd'] {
      Differs(m, path);
    } else if m == "**/" + rest && rest != [] && rest[0] in ['.', 'n'] {
      Refused(rest, path, k);
    } else if m == "**/*." + rest {
      RefusedSuffix(rest, path, k);
    } else {
      RefusedOwn(rest, path, k);
    }
  }

  const ODD_NAME: string := "a\nb"

  lemma TargetItself(path: string)
    requires path == "target"
    ensures forall m :: m in MANDATORY_FINAL_DENIES ==> !Matches(m, path)
  {
    assert path + "/**" == BELOW_TARGET && path + "" == path;
    LiteralMatches(path, "/**", "");
    forall m | m in MANDATORY_FINAL_DENIES ensures !Matches(m, path) {
      var rest := Beginnings(m);
      NoneMatches(m, rest, path, 6);
    }
  }

  lemma OddFile(path: string)
    requires path == "target/" + ODD_NAME
    ensures forall m :: m in MANDATORY_FINAL_DENIES ==> !Matches(m, path)
  {
    assert "target/" + "**" == BELOW_TARGET;
    LiteralMatches("target/", "**", ODD_NAME);
    StarsCrossNoLine(ODD_NAME);
    assert ODD_NAME[1] == '\n';
    forall m | m in MANDATORY_FINAL_DENIES ensures !Matches(m, path) {
      var rest := Beginnings(m);
      NoneMatches(m, rest, path, 6);
    }
  }

  lemma OddPathIsNotExcluded(parts: seq<string>)
    requires parts == ["target", ODD_NAME]
    ensures !IsExcluded(parts)
  {
    var first, whole := Join(parts[..1]), Join(parts[..2]);
    assert parts[..1] == ["target"] && parts[..2] == parts && parts[1..] == [ODD_NAME];
    Text.JoinAppend(parts[..1], ODD_NAME, '/');
    assert parts == parts[..1] + [ODD_NAME] && "target" + ['/'] == "target/";
    assert first == "target" && whole == "target/" + ODD_NAME;
    TargetItself(first);
    OddFile(whole);
    forall m, depth | m in MANDATORY_FINAL_DENIES && 1 <= depth <= |parts| ensures !Matches(m, Join(parts[..depth])) {
      assert depth == 1 || depth == 2;
    }
  }

  /** A file below `target` whose name breaks a line is included, although the exclusion means it: a validated
      list can admit the directory, and no rule matches the file. */
  lemma LineBreakEscapes(parts: seq<string>)
    requires parts == ["target", ODD_NAME]
    ensures MeantBelow(parts, 0) && exists rules :: Validated(rules) && Included(parts, rules)
  {
    OddPathIsNotExcluded(parts);
    MandatoryExclusionsHold(parts);
    BelowIsMeant(parts, 0);
  }

  /** The exclusion of what is below the component means this path. */
  ghost predicate MeantBelow(parts: seq<string>, i: nat) {
    i + 1 < |parts| && Means("**/" + parts[i] + "/**", Join(parts[..i + 2]))
  }

  lemma BelowIsMeant(parts: seq<string>, i: nat)
    requires i + 1 < |parts| && Plain(parts[i])
    ensures MeantBelow(parts, i)
  {
    MatchesBelowComponent(parts, i);
  }

  /** The default-deny rule covers exactly the one-line paths: a line break in a name escapes it. */
  lemma DefaultDenyCoversOneLine(path: string, isDirectory: bool)
    ensures RuleMatches("**", path, isDirectory) <==> OneLine(path)
    ensures !Admitted(path, isDirectory, ["**"]) <==> OneLine(path)
  {
    assert Pieces("**"[2..]) == [];
    assert Pieces("**") == [ANYTHING];
    SplitFirst(ANYTHING, [], path);
    StarOfClass(Dot, path);
    assert path[..|path|] == path && path[|path|..] == [];
    assert [ANYTHING] + [] == [ANYTHING];
    assert ["**"][0] == "**";
  }
}
