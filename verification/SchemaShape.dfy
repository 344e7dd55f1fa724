/**
 Inlining of named schema fragments: a recursion that replaces references by the fragments they
 name and gives up below a fixed depth, so that cyclic fragments end in an error.
 */
module SchemaShape {
  import opened Values

  const MAX_DEPTH: nat := 64

  type Schemas = map<string, Json>

  predicate IsReference(v: Json) {
    v.Obj? && "type" in v.fields && v.fields["type"] == Str("reference")
  }

  predicate Resolvable(v: Json, schemas: Schemas) {
    IsReference(v) && "schema" in v.fields && v.fields["schema"].Str? && v.fields["schema"].s in schemas
  }

  function Target(v: Json, schemas: Schemas): Json
    requires Resolvable(v, schemas)
  {
    schemas[v.fields["schema"].s]
  }

  /** Inlining from a given depth; `None` is the depth error or a missing alias. */
  function Shape(v: Json, schemas: Schemas, depth: nat): Option<Json>
    decreases if depth > MAX_DEPTH then 0 else MAX_DEPTH + 1 - depth
  {
    if depth > MAX_DEPTH then None
    else if IsReference(v) then
      if Resolvable(v, schemas) then Shape(Target(v, schemas), schemas, depth + 1) else None
    else if v.Obj? then
      if forall k :: k in v.fields ==> Shape(v.fields[k], schemas, depth + 1).Some?
      then Some(Obj(map k | k in v.fields :: Shape(v.fields[k], schemas, depth + 1).value))
      else None
    else if v.Arr? then
      if forall i :: 0 <= i < |v.items| ==> Shape(v.items[i], schemas, depth + 1).Some?
      then Some(Arr(seq(|v.items|, i requires 0 <= i < |v.items| => Shape(v.items[i], schemas, depth + 1).value)))
      else None
    else Some(v)
  }

  // ---------------------------------------------------------------- the full unfolding

  /** One step down the unfolding: into a value, or from a reference to what it names. */
  datatype Hop = Into(step: Step) | Follow

  function Hopped(v: Json, schemas: Schemas, hop: Hop): Option<Json> {
    match hop
    case Follow => if Resolvable(v, schemas) then Some(Target(v, schemas)) else None
    case Into(Key(k)) => if v.Obj? && !IsReference(v) && k in v.fields then Some(v.fields[k]) else None
    case Into(At(i)) => if v.Arr? && i < |v.items| then Some(v.items[i]) else None
  }

  function Trace(v: Json, schemas: Schemas, hops: seq<Hop>): Option<Json>
    decreases |hops|
  {
    if hops == [] then Some(v)
    else
      match Hopped(v, schemas, hops[0])
      case None => None
      case Some(w) => Trace(w, schemas, hops[1..])
  }

  /** The unfolding is at most `height` hops high and every alias met in it exists. */
  ghost predicate Unfolds(v: Json, schemas: Schemas, height: int) {
    forall hops: seq<Hop> {:trigger Trace(v, schemas, hops)} :: Trace(v, schemas, hops).Some? ==>
      |hops| <= height
      && (IsReference(Trace(v, schemas, hops).value) ==> Resolvable(Trace(v, schemas, hops).value, schemas))
  }

  lemma ChildShaped(v: Json, schemas: Schemas, depth: nat, hop: Hop)
    requires Shape(v, schemas, depth).Some? && Hopped(v, schemas, hop).Some?
    ensures depth < MAX_DEPTH && Shape(Hopped(v, schemas, hop).value, schemas, depth + 1).Some?
  {
  }

  lemma {:induction false} ShapedUnfolds(v: Json, schemas: Schemas, depth: nat, hops: seq<Hop>)
    requires Shape(v, schemas, depth).Some? && Trace(v, schemas, hops).Some?
    ensures |hops| + depth <= MAX_DEPTH
    ensures IsReference(Trace(v, schemas, hops).value) ==> Resolvable(Trace(v, schemas, hops).value, schemas)
    decreases |hops|
  {
    if hops != [] {
      ChildShaped(v, schemas, depth, hops[0]);
      ShapedUnfolds(Hopped(v, schemas, hops[0]).value, schemas, depth + 1, hops[1..]);
    }
  }

  lemma ChildUnfolds(v: Json, schemas: Schemas, height: int, hop: Hop)
    requires Unfolds(v, schemas, height) && Hopped(v, schemas, hop).Some?
    ensures height >= 1 && Unfolds(Hopped(v, schemas, hop).value, schemas, height - 1)
  {
    var w := Hopped(v, schemas, hop).value;
    assert [hop][1..] == [];
    assert Trace(v, schemas, [hop]) == Some(w);
    forall hops: seq<Hop> | Trace(w, schemas, hops).Some?
      ensures |hops| <= height - 1
      ensures IsReference(Trace(w, schemas, hops).value) ==> Resolvable(Trace(w, schemas, hops).value, schemas)
    {
      assert ([hop] + hops)[1..] == hops;
      assert Trace(v, schemas, [hop] + hops) == Trace(w, schemas, hops);
    }
  }

  lemma {:induction false} UnfoldingShaped(v: Json, schemas: Schemas, depth: nat)
    requires depth <= MAX_DEPTH && Unfolds(v, schemas, MAX_DEPTH - depth)
    ensures Shape(v, schemas, depth).Some?
    decreases MAX_DEPTH - depth
  {
    assert Trace(v, schemas, []) == Some(v);
    forall hop | Hopped(v, schemas, hop).Some? ensures Shape(Hopped(v, schemas, hop).value, schemas, depth + 1).Some? {
      ChildUnfolds(v, schemas, MAX_DEPTH - depth, hop);
      UnfoldingShaped(Hopped(v, schemas, hop).value, schemas, depth + 1);
    }
    if IsReference(v) {
      assert Hopped(v, schemas, Follow).Some?;
    } else if v.Obj? {
      assert forall k :: k in v.fields ==> Hopped(v, schemas, Into(Key(k))) == Some(v.fields[k]);
    } else if v.Arr? {
      assert forall i :: 0 <= i < |v.items| ==> Hopped(v, schemas, Into(At(i))) == Some(v.items[i]);
    }
  }

  /** Inlining succeeds exactly when every alias exists and the full unfolding, cycles included, is at
      most 64 hops high. */
  lemma ShapeSucceedsExactly(v: Json, schemas: Schemas)
    ensures Shape(v, schemas, 0).Some? <==> Unfolds(v, schemas, MAX_DEPTH)
  {
    if Shape(v, schemas, 0).Some? {
      forall hops: seq<Hop> | Trace(v, schemas, hops).Some?
        ensures |hops| <= MAX_DEPTH
        ensures IsReference(Trace(v, schemas, hops).value) ==> Resolvable(Trace(v, schemas, hops).value, schemas)
      {
        ShapedUnfolds(v, schemas, 0, hops);
      }
    } else if Unfolds(v, schemas, MAX_DEPTH) {
      UnfoldingShaped(v, schemas, 0);
    }
  }

  // ---------------------------------------------------------------- meaning

  /** The steps of a trace that stay visible once references are gone. */
  function Visible(hops: seq<Hop>): seq<Step> {
    if hops == [] then []
    else if hops[0].Follow? then Visible(hops[1..])
    else [hops[0].step] + Visible(hops[1..])
  }

  /** The same node: an equal scalar, an object with the same keys, or an array of the same length. */
  predicate SameNode(a: Json, b: Json) {
    if a.Obj? then b.Obj? && a.fields.Keys == b.fields.Keys
    else if a.Arr? then b.Arr? && |a.items| == |b.items|
    else a == b
  }

  lemma ShapedChild(v: Json, schemas: Schemas, depth: nat, step: Step, rest: seq<Step>)
    requires Shape(v, schemas, depth).Some? && Hopped(v, schemas, Into(step)).Some?
    requires Shape(Hopped(v, schemas, Into(step)).value, schemas, depth + 1).Some?
    ensures Resolve(Shape(v, schemas, depth).value, [step] + rest)
            == Resolve(Shape(Hopped(v, schemas, Into(step)).value, schemas, depth + 1).value, rest)
  {
    assert ([step] + rest)[1..] == rest;
  }

  /** Whatever the original leads to, following references, the result holds at the visible path; */
  lemma {:induction false} ShapeKeepsNodes(v: Json, schemas: Schemas, depth: nat, hops: seq<Hop>)
    requires Shape(v, schemas, depth).Some? && Trace(v, schemas, hops).Some?
    requires !IsReference(Trace(v, schemas, hops).value)
    ensures
      var found := Resolve(Shape(v, schemas, depth).value, Visible(hops));
      found.Some? && SameNode(found.value, Trace(v, schemas, hops).value)
    decreases |hops|
  {
    if hops != [] {
      ChildShaped(v, schemas, depth, hops[0]);
      ShapeKeepsNodes(Hopped(v, schemas, hops[0]).value, schemas, depth + 1, hops[1..]);
      if hops[0].Into? {
        ShapedChild(v, schemas, depth, hops[0].step, Visible(hops[1..]));
      }
    }
  }

  /** and whatever the result holds, the original leads to. */
  lemma {:induction false} ShapeAddsNothing(v: Json, schemas: Schemas, depth: nat, path: seq<Step>)
      returns (hops: seq<Hop>)
    requires Shape(v, schemas, depth).Some? && Resolve(Shape(v, schemas, depth).value, path).Some?
    ensures Visible(hops) == path && Trace(v, schemas, hops).Some?
    ensures !IsReference(Trace(v, schemas, hops).value)
    ensures SameNode(Resolve(Shape(v, schemas, depth).value, path).value, Trace(v, schemas, hops).value)
    decreases MAX_DEPTH + 1 - depth
  {
    if IsReference(v) {
      var rest := ShapeAddsNothing(Target(v, schemas), schemas, depth + 1, path);
      hops := [Follow] + rest;
      assert hops[1..] == rest;
    } else if path == [] {
      hops := [];
    } else {
      var hop := Into(path[0]);
      assert Hopped(v, schemas, hop).Some?;
      ChildShaped(v, schemas, depth, hop);
      var rest := ShapeAddsNothing(Hopped(v, schemas, hop).value, schemas, depth + 1, path[1..]);
      hops := [hop] + rest;
      assert hops[1..] == rest && path == [path[0]] + path[1..];
    }
  }

  // ---------------------------------------------------------------- references in the result

  ghost predicate ReferenceFree(v: Json) {
    forall path: seq<Step> {:trigger Resolve(v, path)} :: Resolve(v, path).Some? ==>
          !IsReference(Resolve(v, path).value)
  }

  /** No fragment is the bare word that marks a reference. */
  predicate NoBareMark(schemas: Schemas) {
    forall a :: a in schemas ==> schemas[a] != Str("reference")
  }

  lemma {:induction false} MarkComesFromMark(v: Json, schemas: Schemas, depth: nat)
    requires NoBareMark(schemas) && Shape(v, schemas, depth) == Some(Str("reference"))
    ensures v == Str("reference")
    decreases MAX_DEPTH + 1 - depth
  {
    if Resolvable(v, schemas) {
      MarkComesFromMark(Target(v, schemas), schemas, depth + 1);
    }
  }

  lemma {:induction false} TopIsNoReference(v: Json, schemas: Schemas, depth: nat)
    requires NoBareMark(schemas) && Shape(v, schemas, depth).Some?
    ensures !IsReference(Shape(v, schemas, depth).value)
    decreases MAX_DEPTH + 1 - depth
  {
    if IsReference(v) {
      TopIsNoReference(Target(v, schemas), schemas, depth + 1);
    } else if IsReference(Shape(v, schemas, depth).value) {
      assert Shape(v.fields["type"], schemas, depth + 1) == Some(Str("reference"));
      MarkComesFromMark(v.fields["type"], schemas, depth + 1);
      assert false;
    }
  }

  lemma {:induction false} NowhereAReference(v: Json, schemas: Schemas, depth: nat, path: seq<Step>)
    requires NoBareMark(schemas) && Shape(v, schemas, depth).Some?
            && Resolve(Shape(v, schemas, depth).value, path).Some?
    ensures !IsReference(Resolve(Shape(v, schemas, depth).value, path).value)
    decreases MAX_DEPTH + 1 - depth
  {
    if IsReference(v) {
      NowhereAReference(Target(v, schemas), schemas, depth + 1, path);
    } else if path == [] {
      TopIsNoReference(v, schemas, depth);
    } else {
      var hop := Into(path[0]);
      ChildShaped(v, schemas, depth, hop);
      NowhereAReference(Hopped(v, schemas, hop).value, schemas, depth + 1, path[1..]);
    }
  }

  ghost predicate AlwaysReferenceFree(schemas: Schemas) {
    forall v: Json :: Shape(v, schemas, 0).Some? ==> ReferenceFree(Shape(v, schemas, 0).value)
  }

  /** Inlined shapes are free of references exactly when no fragment is the bare marker word; where
      fragments are objects, as in the bundled presets, none is. */
  lemma InlinedIsReferenceFree(schemas: Schemas)
    ensures AlwaysReferenceFree(schemas) <==> NoBareMark(schemas)
  {
    if NoBareMark(schemas) {
      forall v: Json | Shape(v, schemas, 0).Some? ensures ReferenceFree(Shape(v, schemas, 0).value) {
        forall path: seq<Step> | Resolve(Shape(v, schemas, 0).value, path).Some?
          ensures !IsReference(Resolve(Shape(v, schemas, 0).value, path).value)
        {
          NowhereAReference(v, schemas, 0, path);
        }
      }
    } else {
      var a :| a in schemas && schemas[a] == Str("reference");
      BareMarkSurvives(schemas, a);
    }
  }

  lemma BareMarkSurvives(schemas: Schemas, a: string)
    requires a in schemas && schemas[a] == Str("reference")
    ensures !AlwaysReferenceFree(schemas)
  {
    var inner := Obj(map["type" := Str("reference"), "schema" := Str(a)]);
    var v := Obj(map["type" := inner]);
    assert Resolvable(inner, schemas);
    assert Shape(Target(inner, schemas), schemas, 2) == Some(Str("reference"));
    assert Shape(inner, schemas, 1) == Some(Str("reference"));
    assert !IsReference(v);
    var r := Shape(v, schemas, 0);
    assert r.Some? && IsReference(r.value);
    assert Resolve(r.value, []) == r;
  }
}
