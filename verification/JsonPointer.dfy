/**
 JSON Pointer as the verification probe reads it (sections 3 and 4 of RFC 6901): split at "/",
 unescape each component in two passes, descend.
 */
module JsonPointer {
  import opened Values
  import Text

  // ---------------------------------------------------------------- escapes

  /** `s.replace("~" + mark, plain)`: left to right, not overlapping. */
  function Replace(s: string, mark: char, plain: char): string {
    if |s| < 2 then s
    else if s[0] == '~' && s[1] == mark then [plain] + Replace(s[2..], mark, plain)
    else [s[0]] + Replace(s[1..], mark, plain)
  }

  function TwoPass(component: string): string {
    Replace(Replace(component, '1', '/'), '0', '~')
  }

  /** Every "~" is followed by 0 or 1. */
  predicate WellEscaped(component: string) {
    forall i :: 0 <= i < |component| && component[i] == '~' ==>
      i + 1 < |component| && (component[i + 1] == '0' || component[i + 1] == '1')
  }

  /** What an escaped component stands for, read once. */
  function OnePass(component: string): string {
    if component == "" then ""
    else if component[0] == '~' && |component| >= 2 then
      [if component[1] == '1' then '/' else '~'] + OnePass(component[2..])
    else [component[0]] + OnePass(component[1..])
  }

  function Escape(key: string): string {
    if key == "" then ""
    else (if key[0] == '~' then "~0" else if key[0] == '/' then "~1" else [key[0]]) + Escape(key[1..])
  }

  lemma TailWellEscaped(c: string, n: nat)
    requires WellEscaped(c) && n <= |c| && n <= 2 && (n == 2 ==> c[0] == '~') && (n == 1 ==> c[0] != '~')
    ensures WellEscaped(c[n..])
  {
  }

  /** A character that is no tilde passes through a replacement. */
  lemma ReplacePlain(c: char, rest: string, mark: char, plain: char)
    requires c != '~'
    ensures Replace([c] + rest, mark, plain) == [c] + Replace(rest, mark, plain)
  {
    if rest == "" {
      assert [c] + rest == [c];
    } else {
      assert ([c] + rest)[1..] == rest;
    }
  }

  lemma ReplaceMark(rest: string, mark: char, plain: char)
    ensures Replace(['~', mark] + rest, mark, plain) == [plain] + Replace(rest, mark, plain)
  {
    assert (['~', mark] + rest)[2..] == rest;
  }

  lemma ReplaceOther(c: char, rest: string, mark: char, plain: char)
    requires c != mark && c != '~'
    ensures Replace(['~', c] + rest, mark, plain) == ['~', c] + Replace(rest, mark, plain)
  {
    var s := ['~', c] + rest;
    assert s[0] == '~' && s[1] == c && s[1..] == [c] + rest;
    assert Replace(s, mark, plain) == ['~'] + Replace([c] + rest, mark, plain);
    ReplacePlain(c, rest, mark, plain);
    assert ['~'] + ([c] + Replace(rest, mark, plain)) == ['~', c] + Replace(rest, mark, plain);
  }

  /** Replacing `~1` first and `~0` second decodes every well-escaped component as one pass does. */
  lemma {:induction false} TwoPassesAreOne(c: string)
    requires WellEscaped(c)
    ensures TwoPass(c) == OnePass(c)
  {
    if c == "" {
    } else if c[0] != '~' {
      var rest := c[1..];
      assert c == [c[0]] + rest;
      TailWellEscaped(c, 1);
      TwoPassesAreOne(rest);
      ReplacePlain(c[0], rest, '1', '/');
      ReplacePlain(c[0], Replace(rest, '1', '/'), '0', '~');
    } else {
      var rest := c[2..];
      assert c == ['~', c[1]] + rest;
      TailWellEscaped(c, 2);
      TwoPassesAreOne(rest);
      var inner := Replace(rest, '1', '/');
      if c[1] == '1' {
        ReplaceMark(rest, '1', '/');
        ReplacePlain('/', inner, '0', '~');
      } else {
        ReplaceOther('0', rest, '1', '/');
        ReplaceMark(inner, '0', '~');
      }
    }
  }

  lemma {:induction false} EscapeIsClean(key: string)
    ensures WellEscaped(Escape(key)) && Text.Free(Escape(key), '/')
  {
    if key != "" {
      EscapeIsClean(key[1..]);
    }
  }

  lemma {:induction false} UnescapeEscape(key: string)
    ensures OnePass(Escape(key)) == key
  {
    if key != "" {
      UnescapeEscape(key[1..]);
      var rest := Escape(key[1..]);
      if key[0] == '~' || key[0] == '/' {
        assert Escape(key)[2..] == rest;
      } else {
        assert Escape(key)[1..] == rest;
      }
      assert key == [key[0]] + key[1..];
    }
  }

  lemma {:induction false} EscapeUnescape(c: string)
    requires WellEscaped(c) && Text.Free(c, '/')
    ensures Escape(OnePass(c)) == c
  {
    if c == "" {
    } else if c[0] != '~' {
      TailWellEscaped(c, 1);
      EscapeUnescape(c[1..]);
      assert OnePass(c)[1..] == OnePass(c[1..]);
    } else {
      TailWellEscaped(c, 2);
      EscapeUnescape(c[2..]);
      assert OnePass(c)[1..] == OnePass(c[2..]);
      assert c == ['~', c[1]] + c[2..];
    }
  }

  // ---------------------------------------------------------------- descent

  /** One component of the pointer, applied to a value. */
  function Descend(v: Json, component: string): Option<Json> {
    if !WellEscaped(component) then None
    else
      var key := TwoPass(component);
      if v.Arr? then
        if Text.IsDecimal(key) && Text.Value(key) < |v.items| then Some(v.items[Text.Value(key)]) else None
      else if v.Obj? && key in v.fields then Some(v.fields[key])
      else None
  }

  function Walk(v: Json, components: seq<string>): Option<Json> {
    if components == [] then Some(v)
    else
      match Descend(v, components[0])
      case None => None
      case Some(w) => Walk(w, components[1..])
  }

  /** What a pointer finds: nothing before its first slash, then one component at a time. */
  function Lookup(value: Json, pointer: string): Option<Json> {
    if pointer == "" then Some(value)
    else if pointer[0] != '/' then None
    else Walk(value, Text.Split(pointer[1..], '/'))
  }

  method Pointer(value: Json, pointer: string) returns (result: Option<Json>)
    ensures result == Lookup(value, pointer)
  {
    if pointer == "" {
      return Some(value);
    }
    if pointer[0] != '/' {
      return None;
    }
    var components := Text.Split(pointer[1..], '/');
    var current := value;
    for i := 0 to |components|
      invariant Walk(value, components) == Walk(current, components[i..])
    {
      assert components[i..][1..] == components[i + 1..];
      match Descend(current, components[i]) {
        case None => return None;
        case Some(w) => current := w;
      }
    }
    return Some(current);
  }

  function Component(step: Step): string {
    match step
    case Key(k) => Escape(k)
    case At(i) => Text.Decimal(i)
  }

  function Components(path: seq<Step>): (cs: seq<string>)
    ensures |cs| == |path|
  {
    if path == [] then [] else [Component(path[0])] + Components(path[1..])
  }

  /** The pointer that spells a path. */
  function Spell(path: seq<Step>): string {
    if path == [] then "" else "/" + Text.Join(Components(path), '/')
  }

  lemma {:induction false} PlainIsUnescaped(s: string)
    requires forall i :: 0 <= i < |s| ==> s[i] != '~'
    ensures WellEscaped(s) && OnePass(s) == s
  {
    if s != "" {
      PlainIsUnescaped(s[1..]);
      assert s == [s[0]] + s[1..];
    }
  }

  lemma DescendStep(v: Json, step: Step, w: Json)
    requires Resolve(v, [step]) == Some(w)
    ensures Descend(v, Component(step)) == Some(w)
  {
    assert [step][1..] == [];
    match step
    case Key(k) =>
      EscapeIsClean(k);
      TwoPassesAreOne(Escape(k));
      UnescapeEscape(k);
    case At(i) =>
      Text.DecimalValue(i);
      PlainIsUnescaped(Text.Decimal(i));
      TwoPassesAreOne(Text.Decimal(i));
  }

  lemma ComponentIsClean(step: Step)
    ensures Text.Free(Component(step), '/')
  {
    match step
    case Key(k) => EscapeIsClean(k);
    case At(i) => Text.DecimalValue(i);
  }

  lemma {:induction false} ComponentsAreClean(path: seq<Step>)
    ensures forall i :: 0 <= i < |path| ==> Text.Free(Components(path)[i], '/')
  {
    if path != [] {
      ComponentIsClean(path[0]);
      ComponentsAreClean(path[1..]);
    }
  }

  lemma {:induction false} WalkComponents(v: Json, path: seq<Step>)
    requires Resolve(v, path).Some?
    ensures Walk(v, Components(path)) == Resolve(v, path)
  {
    if path != [] {
      var w := match path[0] case Key(k) => v.fields[k] case At(i) => v.items[i];
      assert [path[0]][1..] == [];
      DescendStep(v, path[0], w);
      WalkComponents(w, path[1..]);
    }
  }

  /** Whatever keys and indices a path has, the pointer that spells it finds the value it names. */
  lemma SpelledPathsResolve(v: Json, path: seq<Step>)
    requires Resolve(v, path).Some?
    ensures Lookup(v, Spell(path)) == Resolve(v, path)
  {
    if path != [] {
      ComponentsAreClean(path);
      Text.SplitJoin(Components(path), '/');
      WalkComponents(v, path);
      assert Spell(path)[1..] == Text.Join(Components(path), '/');
    }
  }

  /** The step that a component of a successful descent takes. */
  lemma StepOf(v: Json, component: string) returns (step: Step)
    requires Text.Free(component, '/') && Descend(v, component).Some?
    ensures Component(step) == component && Resolve(v, [step]) == Descend(v, component)
  {
    TwoPassesAreOne(component);
    EscapeUnescape(component);
    var key := OnePass(component);
    if v.Arr? {
      Text.ValueDecimal(key);
      PlainEscape(key);
      step := At(Text.Value(key));
    } else {
      step := Key(key);
    }
    assert [step][1..] == [];
  }

  lemma {:induction false} PlainEscape(s: string)
    requires forall i :: 0 <= i < |s| ==> s[i] != '~' && s[i] != '/'
    ensures Escape(s) == s
  {
    if s != "" {
      PlainEscape(s[1..]);
      assert s == [s[0]] + s[1..];
    }
  }

  lemma {:induction false} PathOf(v: Json, components: seq<string>) returns (path: seq<Step>)
    requires Walk(v, components).Some? && forall i :: 0 <= i < |components| ==> Text.Free(components[i], '/')
    ensures Components(path) == components && Resolve(v, path) == Walk(v, components)
  {
    if components == [] {
      path := [];
    } else {
      var step := StepOf(v, components[0]);
      var w := Descend(v, components[0]).value;
      var rest := PathOf(w, components[1..]);
      path := [step] + rest;
      assert path[1..] == rest && [step][1..] == [];
      assert components == [components[0]] + components[1..];
    }
  }

  /** And a pointer finds nothing but what some path it spells names. */
  lemma LookupsAreSpelledPaths(v: Json, pointer: string) returns (path: seq<Step>)
    requires Lookup(v, pointer).Some?
    ensures Spell(path) == pointer && Resolve(v, path) == Lookup(v, pointer)
  {
    if pointer == "" {
      path := [];
    } else {
      var components := Text.Split(pointer[1..], '/');
      Text.SplitFree(pointer[1..], '/');
      Text.JoinSplit(pointer[1..], '/');
      path := PathOf(v, components);
      assert pointer == "/" + pointer[1..];
    }
  }
}
