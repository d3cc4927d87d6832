/** Redaction of journaled state (src/flow/redaction.ts): positions whose schema node is
    annotated are replaced by a placeholder. */
module Redaction {
  import opened Basics
  import opened JsonValues

  const PLACEHOLDER := Str("[redacted]")

  datatype Property = Property(name: string, shape: Ast)

  /** A schema AST on the encoded side. `pii` says that the node is annotated. A
      suspended node stands for a schema that is only built on demand. */
  datatype Ast =
    | Scalar(pii: bool)
    | TypeLiteral(pii: bool, properties: seq<Property>, indexes: seq<Ast>)
    | Union(pii: bool, members: seq<Ast>)
    | Tuple(pii: bool, elements: seq<Ast>, rest: seq<Ast>)
    | Refinement(pii: bool, from: Ast)
    | Transformation(pii: bool, encoded: Ast)
    | Suspended(pii: bool, inner: Ast)

  function Mask(v: Json): Json {
    if v.Null? then Null else PLACEHOLDER
  }

  predicate AnyAnnotated(asts: seq<Ast>) {
    exists i :: 0 <= i < |asts| && asts[i].pii
  }

  predicate Structured(ast: Ast) {
    ast.TypeLiteral? || ast.Tuple?
  }

  /** The first struct or tuple among the members of a union. */
  function FirstStructured(members: seq<Ast>): (r: Option<nat>)
    ensures r.Some? ==> r.value < |members| && Structured(members[r.value])
    ensures r.Some? ==> forall i :: 0 <= i < r.value ==> !Structured(members[i])
    ensures r.None? ==> forall i :: 0 <= i < |members| ==> !Structured(members[i])
  {
    if |members| == 0 then None
    else if Structured(members[0]) then Some(0)
    else
      var r := FirstStructured(members[1..]);
      if r.Some? then Some(r.value + 1) else None
  }

  predicate Names(properties: seq<Property>, key: string) {
    exists i :: 0 <= i < |properties| && properties[i].name == key
  }

  function Redact(ast: Ast, v: Json): Json
    decreases ast, 1, 0
  {
    if ast.pii then Mask(v)
    else
      match ast
      case TypeLiteral(_, properties, indexes) =>
        if !v.Obj? then v
        else
          var out := RedactProperties(properties, 0, v.members);
          Obj(if AnyAnnotated(indexes)
              then map k | k in out :: if Names(properties, k) then out[k] else Mask(out[k])
              else out)
      case Union(_, members) =>
        if AnyAnnotated(members) then Mask(v)
        else
          var first := FirstStructured(members);
          if first.Some? then Redact(members[first.value], v) else v
      case Tuple(_, elements, rest) =>
        if !v.Arr? then v
        else Arr(seq(|v.items|, i requires 0 <= i < |v.items| =>
               if i < |elements| then Redact(elements[i], v.items[i])
               else if |rest| > 0 then Redact(rest[0], v.items[i])
               else v.items[i]))
      case Refinement(_, from) => Redact(from, v)
      case Transformation(_, encoded) => Redact(encoded, v)
      case Scalar(_) => v
      case Suspended(_, _) => v
  }

  /** Property by property, in declaration order. */
  function RedactProperties(properties: seq<Property>, i: nat, out: map<string, Json>): map<string, Json>
    requires i <= |properties|
    decreases properties, 0, |properties| - i
  {
    if i == |properties| then out
    else
      var p := properties[i];
      RedactProperties(properties, i + 1, if p.name in out then out[p.name := Redact(p.shape, out[p.name])] else out)
  }

  // ------------------------------------------------------------------- well-formed ASTs

  /** The property names of a struct are distinct, at every depth. */
  ghost predicate WellFormed(ast: Ast)
    decreases ast
  {
    match ast
    case Scalar(_) => true
    case TypeLiteral(_, properties, indexes) =>
      && (forall i, j :: 0 <= i < j < |properties| ==> properties[i].name != properties[j].name)
      && (forall i :: 0 <= i < |properties| ==> WellFormed(properties[i].shape))
      && (forall i :: 0 <= i < |indexes| ==> WellFormed(indexes[i]))
    case Union(_, members) => forall i :: 0 <= i < |members| ==> WellFormed(members[i])
    case Tuple(_, elements, rest) =>
      (forall i :: 0 <= i < |elements| ==> WellFormed(elements[i])) && forall i :: 0 <= i < |rest| ==>
          WellFormed(rest[i])
    case Refinement(_, from) => WellFormed(from)
    case Transformation(_, encoded) => WellFormed(encoded)
    case Suspended(_, inner) => WellFormed(inner)
  }

  ghost predicate DistinctNames(properties: seq<Property>) {
    forall i, j :: 0 <= i < j < |properties| ==> properties[i].name != properties[j].name
  }

  /** The shape a struct gives to a key. */
  function ShapeOf(properties: seq<Property>, key: string): (r: Option<nat>)
    ensures r.Some? ==> r.value < |properties| && properties[r.value].name == key
    ensures r.None? <==> !Names(properties, key)
  {
    if |properties| == 0 then None
    else if properties[0].name == key then Some(0)
    else
      var r := ShapeOf(properties[1..], key);
      if r.Some? then
        assert properties[1..][r.value] == properties[r.value + 1];
        Some(r.value + 1)
      else
        assert forall i :: 0 < i < |properties| ==> properties[i] == properties[1..][i - 1];
        None
  }

  /** Each key is redacted by its own property and no other. */
  lemma {:induction false} PropertyAt(properties: seq<Property>, i: nat, out: map<string, Json>, key: string)
    requires i <= |properties| && DistinctNames(properties)
    ensures RedactProperties(properties, i, out).Keys == out.Keys
    ensures key in out ==>
              (var at := ShapeOf(properties, key);
               RedactProperties(properties, i, out)[key] ==
                 if at.Some? && at.value >= i then Redact(properties[at.value].shape, out[key]) else out[key])
    decreases |properties| - i
  {
    hide Redact;
    if i < |properties| {
      var p := properties[i];
      var next := if p.name in out then out[p.name := Redact(p.shape, out[p.name])] else out;
      PropertyAt(properties, i + 1, next, key);
    }
  }

  /** What redaction makes of one member of an object. */
  function RedactMember(literal: Ast, key: string, v: Json): Json
    requires literal.TypeLiteral?
  {
    var at := ShapeOf(literal.properties, key);
    if at.Some? then Redact(literal.properties[at.value].shape, v)
    else if AnyAnnotated(literal.indexes) then Mask(v)
    else v
  }

  /** An object is redacted member by member; its keys stay. */
  lemma {:induction false} MembersRedacted(literal: Ast, members: map<string, Json>)
    requires literal.TypeLiteral? && !literal.pii && DistinctNames(literal.properties)
    ensures Redact(literal, Obj(members)) == Obj(map k | k in members :: RedactMember(literal, k, members[k]))
  {
    var out := RedactProperties(literal.properties, 0, members);
    var r := Redact(literal, Obj(members));
    hide Redact, RedactProperties;
    PropertyAt(literal.properties, 0, members, "");
    forall k | k in members ensures k in r.members && r.members[k] == RedactMember(literal, k, members[k]) {
      PropertyAt(literal.properties, 0, members, k);
    }
    assert r.members == map k | k in members :: RedactMember(literal, k, members[k]);
  }

  // ------------------------------------------------------------------------ idempotence

  lemma {:induction false} MaskTwice(v: Json)
    ensures Mask(Mask(v)) == Mask(v)
  {}

  /** Redacting a redacted value changes nothing. */
  lemma {:induction false} Idempotent(ast: Ast, v: Json)
    requires WellFormed(ast)
    ensures Redact(ast, Redact(ast, v)) == Redact(ast, v)
    decreases ast
  {
    MaskTwice(v);
    if !ast.pii {
      match ast
      case TypeLiteral(_, properties, indexes) =>
        if v.Obj? {
          IdempotentMembers(ast, v.members);
        }
      case Union(_, members) =>
        var first := FirstStructured(members);
        if !AnyAnnotated(members) && first.Some? {
          Idempotent(members[first.value], v);
        }
      case Tuple(_, elements, rest) =>
        if v.Arr? {
          IdempotentItems(ast, v.items);
        }
      case Refinement(_, from) => Idempotent(from, v);
      case Transformation(_, encoded) => Idempotent(encoded, v);
      case Scalar(_) =>
      case Suspended(_, _) =>
    }
  }

  lemma {:induction false} IdempotentMembers(literal: Ast, members: map<string, Json>)
    requires literal.TypeLiteral? && !literal.pii && WellFormed(literal)
    ensures Redact(literal, Redact(literal, Obj(members))) == Redact(literal, Obj(members))
    decreases literal, 0
  {
    MembersRedacted(literal, members);
    var once := map k | k in members :: RedactMember(literal, k, members[k]);
    MembersRedacted(literal, once);
    hide Redact;
    forall k | k in members ensures RedactMember(literal, k, once[k]) == once[k] {
      var at := ShapeOf(literal.properties, k);
      if at.Some? {
        Idempotent(literal.properties[at.value].shape, members[k]);
      } else {
        MaskTwice(members[k]);
      }
    }
    assert (map k | k in once :: RedactMember(literal, k, once[k])) == once;
  }

  /** The shape a tuple gives to the item at `i`. */
  function ItemShape(tuple: Ast, i: nat): Option<Ast>
    requires tuple.Tuple?
  {
    if i < |tuple.elements| then Some(tuple.elements[i])
    else if |tuple.rest| > 0 then Some(tuple.rest[0])
    else None
  }

  lemma {:induction false} ItemsRedacted(tuple: Ast, items: seq<Json>)
    requires tuple.Tuple? && !tuple.pii
    ensures var r := Redact(tuple, Arr(items));
      && r.Arr? && |r.items| == |items|
      && forall i :: 0 <= i < |items| ==>
           r.items[i] == (if ItemShape(tuple, i).Some? then Redact(ItemShape(tuple, i).value, items[i]) else items[i])
  {}

  lemma {:induction false} IdempotentItems(tuple: Ast, items: seq<Json>)
    requires tuple.Tuple? && !tuple.pii && WellFormed(tuple)
    ensures Redact(tuple, Redact(tuple, Arr(items))) == Redact(tuple, Arr(items))
    decreases tuple, 0
  {
    ItemsRedacted(tuple, items);
    var once := Redact(tuple, Arr(items)).items;
    ItemsRedacted(tuple, once);
    hide Redact;
    forall i | 0 <= i < |items| ensures Redact(tuple, Arr(once)).items[i] == once[i] {
      if i < |tuple.elements| {
        Idempotent(tuple.elements[i], items[i]);
      } else if |tuple.rest| > 0 {
        Idempotent(tuple.rest[0], items[i]);
      }
    }
    assert Redact(tuple, Arr(once)).items == once;
  }

  // ----------------------------------------------------------------- position by position

  datatype Hop = Member(key: string) | Item(i: nat)

  /** The part of a value at a path. */
  function At(v: Json, path: seq<Hop>): Option<Json> {
    if |path| == 0 then Some(v)
    else
      match path[0]
      case Member(key) => if v.Obj? && key in v.members then At(v.members[key], path[1..]) else None
      case Item(i) => if v.Arr? && i < |v.items| then At(v.items[i], path[1..]) else None
  }

  /** Two values look alike from outside: the same scalar, two objects with the same
      keys, or two arrays of the same length. */
  predicate Alike(a: Json, b: Json) {
    match a
    case Obj(members) => b.Obj? && b.members.Keys == members.Keys
    case Arr(items) => b.Arr? && |b.items| == |items|
    case _ => b == a
  }

  /** No node that the schema assigns on the way along the path, or at its end, is
      annotated, under whichever members of unions. Items behind a tuple's fixed elements
      count as its first rest element. */
  ghost predicate Unmarked(ast: Ast, path: seq<Hop>)
    decreases ast
  {
    !ast.pii &&
    match ast
    case Scalar(_) => true
    case TypeLiteral(_, properties, indexes) =>
      |path| > 0 && path[0].Member? ==>
        (&& (forall i :: 0 <= i < |properties| && properties[i].name == path[0].key ==>
            Unmarked(properties[i].shape, path[1..]))
         && (!Names(properties, path[0].key) ==> forall i :: 0 <= i < |indexes| ==> Unmarked(indexes[i], path[1..])))
    case Union(_, members) => forall i :: 0 <= i < |members| ==> Unmarked(members[i], path)
    case Tuple(_, elements, rest) =>
      |path| > 0 && path[0].Item? ==>
        (&& (path[0].i < |elements| ==> Unmarked(elements[path[0].i], path[1..]))
         && (|elements| <= path[0].i && |rest| > 0 ==> Unmarked(rest[0], path[1..])))
    case Refinement(_, from) => Unmarked(from, path)
    case Transformation(_, encoded) => Unmarked(encoded, path)
    case Suspended(_, inner) => Unmarked(inner, path)
  }

  /** What redaction by a struct or tuple makes of the part behind one hop. */
  function RedactBehind(ast: Ast, hop: Hop, v: Json): Json
    requires Structured(ast)
  {
    match hop
    case Member(key) => if ast.TypeLiteral? then RedactMember(ast, key, v) else v
    case Item(i) => if ast.Tuple? && ItemShape(ast, i).Some? then Redact(ItemShape(ast, i).value, v) else v
  }

  /** Redaction by an unannotated struct or tuple keeps the outside of the value, and goes
      on behind each hop. */
  lemma {:induction false} HopRedacted(ast: Ast, v: Json, path: seq<Hop>)
    requires Structured(ast) && !ast.pii && WellFormed(ast)
    ensures Alike(v, Redact(ast, v))
    ensures |path| > 0 ==>
              (var hop := At(v, path[..1]);
               At(Redact(ast, v), path) == if hop.Some? then At(RedactBehind(ast, path[0], hop.value), path[1..])
                   else None)
    ensures |path| > 0 ==> At(v, path) == if At(v, path[..1]).Some? then At(At(v, path[..1]).value, path[1..]) else None
  {
    if ast.TypeLiteral? && v.Obj? {
      MembersRedacted(ast, v.members);
    } else if ast.Tuple? && v.Arr? {
      ItemsRedacted(ast, v.items);
    }
    hide Redact, RedactMember;
    if |path| > 0 {
      assert path[..1][0] == path[0] && path[..1][1..] == [];
    }
  }

  /** What is not annotated survives: wherever no assigned node on the way is annotated,
      a value keeps its scalar, its keys or its length, whatever is redacted beside it. */
  lemma {:induction false} Survives(ast: Ast, v: Json, path: seq<Hop>)
    requires WellFormed(ast) && Unmarked(ast, path) && At(v, path).Some?
    ensures At(Redact(ast, v), path).Some? && Alike(At(v, path).value, At(Redact(ast, v), path).value)
    decreases ast
  {
    match ast
    case Union(_, members) =>
      var first := FirstStructured(members);
      NoneAnnotated(members, path);
      if first.Some? {
        Survives(members[first.value], v, path);
      }
    case Refinement(_, from) => Survives(from, v, path);
    case Transformation(_, encoded) => Survives(encoded, v, path);
    case Scalar(_) =>
    case Suspended(_, _) =>
    case TypeLiteral(_, properties, indexes) =>
      HopRedacted(ast, v, path);
      hide Redact, Alike;
      if |path| > 0 && path[0].Member? {
        var w := At(v, path[..1]).value;
        var at := ShapeOf(properties, path[0].key);
        if at.Some? {
          Survives(properties[at.value].shape, w, path[1..]);
        } else {
          NoneAnnotated(indexes, path[1..]);
        }
      }
    case Tuple(_, elements, rest) =>
      HopRedacted(ast, v, path);
      hide Redact, Alike;
      if |path| > 0 && path[0].Item? && ItemShape(ast, path[0].i).Some? {
        Survives(ItemShape(ast, path[0].i).value, At(v, path[..1]).value, path[1..]);
      }
  }

  lemma {:induction false} NoneAnnotated(asts: seq<Ast>, path: seq<Hop>)
    requires forall i :: 0 <= i < |asts| ==> Unmarked(asts[i], path)
    ensures !AnyAnnotated(asts)
  {}

  /** Redaction only masks: every position of the result is a position of the value, and
      holds what stood there or the placeholder; it is null exactly where null stood. */
  lemma {:induction false} OnlyMasks(ast: Ast, v: Json, path: seq<Hop>)
    requires WellFormed(ast) && At(Redact(ast, v), path).Some?
    ensures At(v, path).Some?
    ensures var a, b := At(v, path).value, At(Redact(ast, v), path).value;
      (Alike(a, b) || b == Str("[redacted]")) && (a.Null? <==> b.Null?)
    decreases ast
  {
    if ast.pii {
      MaskOnlyMasks(v, path);
    } else {
      match ast
      case Union(_, members) =>
        var first := FirstStructured(members);
        if AnyAnnotated(members) {
          MaskOnlyMasks(v, path);
        } else if first.Some? {
          OnlyMasks(members[first.value], v, path);
        }
      case Refinement(_, from) => OnlyMasks(from, v, path);
      case Transformation(_, encoded) => OnlyMasks(encoded, v, path);
      case Scalar(_) =>
      case Suspended(_, _) =>
      case TypeLiteral(_, properties, indexes) =>
        HopRedacted(ast, v, path);
        NullAlike(v, Redact(ast, v));
        hide Redact, Alike;
        if |path| > 0 && path[0].Member? {
          var w := At(v, path[..1]).value;
          var at := ShapeOf(properties, path[0].key);
          if at.Some? {
            OnlyMasks(properties[at.value].shape, w, path[1..]);
          } else {
            MaskOnlyMasks(w, path[1..]);
          }
        }
      case Tuple(_, elements, rest) =>
        HopRedacted(ast, v, path);
        NullAlike(v, Redact(ast, v));
        hide Redact, Alike;
        if |path| > 0 && path[0].Item? && ItemShape(ast, path[0].i).Some? {
          OnlyMasks(ItemShape(ast, path[0].i).value, At(v, path[..1]).value, path[1..]);
        }
    }
  }

  lemma {:induction false} NullAlike(a: Json, b: Json)
    ensures Alike(a, b) ==> (a.Null? <==> b.Null?)
    ensures Alike(a, a)
  {}

  lemma {:induction false} MaskOnlyMasks(v: Json, path: seq<Hop>)
    ensures At(Mask(v), path).Some? ==> |path| == 0
    ensures Alike(v, Mask(v)) || Mask(v) == Str("[redacted]")
    ensures v.Null? <==> Mask(v).Null?
  {}

  /** Values alike at every path of one of them are equal. */
  lemma {:induction false} AlikeEverywhere(a: Json, b: Json)
    requires forall path :: At(a, path).Some? ==> At(b, path).Some? && Alike(At(a, path).value, At(b, path).value)
    ensures a == b
    decreases a
  {
    assert At(a, []).Some?;
    if a.Obj? {
      forall k | k in a.members ensures a.members[k] == b.members[k] {
        forall path | At(a.members[k], path).Some?
          ensures At(b.members[k], path).Some? && Alike(At(a.members[k], path).value, At(b.members[k], path).value)
        {
          var hop := [Member(k)] + path;
          assert hop[1..] == path;
          assert At(a, hop).Some?;
        }
        AlikeEverywhere(a.members[k], b.members[k]);
      }
      assert a.members == b.members;
    } else if a.Arr? {
      forall i | 0 <= i < |a.items| ensures a.items[i] == b.items[i] {
        forall path | At(a.items[i], path).Some?
          ensures At(b.items[i], path).Some? && Alike(At(a.items[i], path).value, At(b.items[i], path).value)
        {
          var hop := [Item(i)] + path;
          assert hop[1..] == path;
          assert At(a, hop).Some?;
        }
        AlikeEverywhere(a.items[i], b.items[i]);
      }
      assert a.items == b.items;
    }
  }

  /** Null stays null and nothing becomes null; where the schema assigns no annotation to
      the value itself, an object keeps its keys and an array its length. */
  lemma {:induction false} ShapeKept(ast: Ast, v: Json)
    requires WellFormed(ast)
    ensures Redact(ast, v).Null? <==> v.Null?
    ensures Unmarked(ast, []) ==> Alike(v, Redact(ast, v))
  {
    OnlyMasks(ast, v, []);
    if Unmarked(ast, []) {
      Survives(ast, v, []);
    }
  }

  /** No node is annotated. */
  ghost predicate Plain(ast: Ast)
    decreases ast
  {
    !ast.pii &&
    match ast
    case Scalar(_) => true
    case TypeLiteral(_, properties, indexes) =>
      (forall i :: 0 <= i < |properties| ==> Plain(properties[i].shape)) && forall i :: 0 <= i < |indexes| ==>
          Plain(indexes[i])
    case Union(_, members) => forall i :: 0 <= i < |members| ==> Plain(members[i])
    case Tuple(_, elements, rest) =>
      (forall i :: 0 <= i < |elements| ==> Plain(elements[i])) && forall i :: 0 <= i < |rest| ==> Plain(rest[i])
    case Refinement(_, from) => Plain(from)
    case Transformation(_, encoded) => Plain(encoded)
    case Suspended(_, inner) => Plain(inner)
  }

  lemma {:induction false} PlainUnmarked(ast: Ast, path: seq<Hop>)
    requires Plain(ast)
    ensures Unmarked(ast, path)
    decreases ast
  {
    match ast
    case TypeLiteral(_, properties, indexes) =>
      if |path| > 0 {
        forall i | 0 <= i < |properties| ensures Unmarked(properties[i].shape, path[1..]) {
          PlainUnmarked(properties[i].shape, path[1..]);
        }
        forall i | 0 <= i < |indexes| ensures Unmarked(indexes[i], path[1..]) {
          PlainUnmarked(indexes[i], path[1..]);
        }
      }
    case Union(_, members) =>
      forall i | 0 <= i < |members| ensures Unmarked(members[i], path) {
        PlainUnmarked(members[i], path);
      }
    case Tuple(_, elements, rest) =>
      if |path| > 0 {
        forall i | 0 <= i < |elements| ensures Unmarked(elements[i], path[1..]) {
          PlainUnmarked(elements[i], path[1..]);
        }
        if |rest| > 0 {
          PlainUnmarked(rest[0], path[1..]);
        }
      }
    case Refinement(_, from) => PlainUnmarked(from, path);
    case Transformation(_, encoded) => PlainUnmarked(encoded, path);
    case Suspended(_, inner) => PlainUnmarked(inner, path);
    case Scalar(_) =>
  }

  /** Where nothing is annotated the value survives verbatim. */
  lemma {:induction false} PlainUntouched(ast: Ast, v: Json)
    requires WellFormed(ast) && Plain(ast)
    ensures Redact(ast, v) == v
  {
    hide Redact, Alike, Plain, WellFormed, Unmarked;
    forall path | At(v, path).Some?
      ensures At(Redact(ast, v), path).Some? && Alike(At(v, path).value, At(Redact(ast, v), path).value)
    {
      PlainUnmarked(ast, path);
      Survives(ast, v, path);
    }
    AlikeEverywhere(v, Redact(ast, v));
  }

  // ------------------------------------------------------------------------- no leaks

  /** Which of its `r` rest elements a tuple means by item `i` of `n`, behind its fixed
      elements: the first one repeats, the others stand at the end. */
  function RestAt(r: nat, n: nat, i: nat): (j: nat)
    requires i < n && r > 0
    ensures j < r
  {
    if i + r > n then i + r - n else 0
  }

  /** The shape that a tuple means by item `i` of `n`. */
  function PositionShape(tuple: Ast, n: nat, i: nat): Option<Ast>
    requires tuple.Tuple? && i < n
  {
    if i < |tuple.elements| then Some(tuple.elements[i])
    else if |tuple.rest| > 0 then Some(tuple.rest[RestAt(|tuple.rest|, n, i)])
    else None
  }

  /** Every annotated position of the schema holds null or the placeholder. */
  ghost predicate Clean(ast: Ast, v: Json)
    decreases ast
  {
    && (ast.pii ==> v == Mask(v))
    && match ast
       case Scalar(_) => true
       case TypeLiteral(_, properties, indexes) =>
         v.Obj? ==>
           (&& (forall i :: 0 <= i < |properties| && properties[i].name in v.members ==>
                  Clean(properties[i].shape, v.members[properties[i].name]))
            && (forall i, k :: 0 <= i < |indexes| && k in v.members && !Names(properties, k) ==>
               Clean(indexes[i], v.members[k])))
       case Union(_, members) => forall i :: 0 <= i < |members| ==> Clean(members[i], v)
       case Tuple(_, elements, rest) =>
         v.Arr? ==>
           (&& (forall i :: 0 <= i < |elements| && i < |v.items| ==> Clean(elements[i], v.items[i]))
            && (forall i :: |elements| <= i < |v.items| && |rest| > 0 ==>
               Clean(rest[RestAt(|rest|, |v.items|, i)], v.items[i])))
       case Refinement(_, from) => Clean(from, v)
       case Transformation(_, encoded) => Clean(encoded, v)
       case Suspended(_, inner) => Clean(inner, v)
  }

  /** A masked value has no inner positions: it is clean for every schema. */
  lemma {:induction false} MaskedClean(ast: Ast, v: Json)
    requires v == Mask(v)
    ensures Clean(ast, v)
    decreases ast
  {
    match ast
    case Union(_, members) =>
      forall i | 0 <= i < |members| ensures Clean(members[i], v) {
        MaskedClean(members[i], v);
      }
    case Refinement(_, from) => MaskedClean(from, v);
    case Transformation(_, encoded) => MaskedClean(encoded, v);
    case Suspended(_, inner) => MaskedClean(inner, v);
    case _ =>
  }

  /** No value can have an annotated position of this schema. */
  predicate Open(ast: Ast)
    decreases ast
  {
    !ast.pii &&
    match ast
    case Scalar(_) => true
    case TypeLiteral(_, properties, indexes) =>
      (forall i :: 0 <= i < |properties| ==> Open(properties[i].shape)) && forall i :: 0 <= i < |indexes| ==>
          Open(indexes[i])
    case Union(_, members) => forall i :: 0 <= i < |members| ==> Open(members[i])
    case Tuple(_, elements, rest) =>
      (forall i :: 0 <= i < |elements| ==> Open(elements[i])) && forall i :: 0 <= i < |rest| ==> Open(rest[i])
    case Refinement(_, from) => Open(from)
    case Transformation(_, encoded) => Open(encoded)
    case Suspended(_, inner) => Open(inner)
  }

  lemma {:induction false} OpenClean(ast: Ast, v: Json)
    requires Open(ast)
    ensures Clean(ast, v)
    decreases ast
  {
    match ast
    case TypeLiteral(_, properties, indexes) =>
      if v.Obj? {
        forall i | 0 <= i < |properties| && properties[i].name in v.members
          ensures Clean(properties[i].shape, v.members[properties[i].name])
        {
          OpenClean(properties[i].shape, v.members[properties[i].name]);
        }
        forall i, k | 0 <= i < |indexes| && k in v.members ensures Clean(indexes[i], v.members[k]) {
          OpenClean(indexes[i], v.members[k]);
        }
      }
    case Union(_, members) =>
      forall i | 0 <= i < |members| ensures Clean(members[i], v) {
        OpenClean(members[i], v);
      }
    case Tuple(_, elements, rest) =>
      if v.Arr? {
        forall i | 0 <= i < |elements| && i < |v.items| ensures Clean(elements[i], v.items[i]) {
          OpenClean(elements[i], v.items[i]);
        }
        forall i | |elements| <= i < |v.items| && |rest| > 0
          ensures Clean(rest[RestAt(|rest|, |v.items|, i)], v.items[i])
        {
          OpenClean(rest[RestAt(|rest|, |v.items|, i)], v.items[i]);
        }
      }
    case Refinement(_, from) => OpenClean(from, v);
    case Transformation(_, encoded) => OpenClean(encoded, v);
    case Suspended(_, inner) => OpenClean(inner, v);
    case Scalar(_) =>
  }

  const SECRET := Str("secret")

  lemma {:induction false} SecretDirty(ast: Ast)
    requires ast.pii
    ensures !Clean(ast, SECRET)
  {
    assert "secret"[0] != "[redacted]"[0];
  }

  /** A string that is longer than all the given ones. */
  function Unused(names: seq<string>): (r: string)
    ensures r !in names && forall n :: n in names ==> |r| > |n|
  {
    if |names| == 0 then "!" else Unused(names[..|names| - 1]) + names[|names| - 1] + "!"
  }

  function NamesOf(properties: seq<Property>): seq<string> {
    seq(|properties|, i requires 0 <= i < |properties| => properties[i].name)
  }

  lemma {:induction false} UnusedKey(f: seq<Property>, m: seq<Property>) returns (key: string)
    ensures !Names(f, key) && !Names(m, key)
  {
    var names := NamesOf(f) + NamesOf(m);
    key := Unused(names);
    hide Unused;
    forall i | 0 <= i < |f| ensures f[i].name != key {
      assert names[i] == f[i].name;
    }
    forall i | 0 <= i < |m| ensures m[i].name != key {
      assert names[|f| + i] == m[i].name;
    }
  }

  /** An array of `n` items with one interesting item. */
  function Lone(n: nat, i: nat, w: Json): (r: Json)
    requires i < n
    ensures r.Arr? && |r.items| == n && r.items[i] == w
  {
    Arr(seq(i, _ => Null) + [w] + seq(n - i - 1, _ => Null))
  }

  /** Item `i` of an array of this length is in the place of the tuple's shape `shape`. */
  ghost predicate Placed(tuple: Ast, n: nat, i: nat, shape: Ast)
    requires tuple.Tuple?
  {
    i < n && PositionShape(tuple, n, i) == Some(shape)
  }

  /** Every item behind the fixed elements can be in the place of any rest element. */
  lemma {:induction false} RestPlaced(tuple: Ast, i: nat, j: nat) returns (n: nat)
    requires tuple.Tuple? && |tuple.elements| <= i && j < |tuple.rest|
    ensures Placed(tuple, n, i, tuple.rest[j])
  {
    n := i + |tuple.rest| - j;
  }

  /** A dirty member makes an object dirty. */
  lemma {:induction false} DirtyProperty(literal: Ast, i: nat, members: map<string, Json>)
    requires literal.TypeLiteral? && i < |literal.properties| && literal.properties[i].name in members
    requires !Clean(literal.properties[i].shape, members[literal.properties[i].name])
    ensures !Clean(literal, Obj(members))
  {}

  lemma {:induction false} DirtyIndex(literal: Ast, i: nat, key: string, members: map<string, Json>)
    requires literal.TypeLiteral? && i < |literal.indexes| && key in members && !Names(literal.properties, key)
    requires !Clean(literal.indexes[i], members[key])
    ensures !Clean(literal, Obj(members))
  {}

  lemma {:induction false} DirtyItem(tuple: Ast, i: nat, items: seq<Json>)
    requires tuple.Tuple? && i < |items| && PositionShape(tuple, |items|, i).Some?
    requires !Clean(PositionShape(tuple, |items|, i).value, items[i])
    ensures !Clean(tuple, Arr(items))
  {}

  /** A schema that is not open has a value with something at an annotated position. */
  lemma {:induction false} Dirty(ast: Ast) returns (v: Json)
    requires !Open(ast)
    ensures !Clean(ast, v)
    decreases ast
  {
    v := SECRET;
    if ast.pii {
      SecretDirty(ast);
    } else {
      match ast
      case TypeLiteral(_, properties, indexes) =>
        if i :| 0 <= i < |properties| && !Open(properties[i].shape) {
          var w := Dirty(properties[i].shape);
          v := Obj(map[properties[i].name := w]);
          DirtyProperty(ast, i, v.members);
        } else {
          var i :| 0 <= i < |indexes| && !Open(indexes[i]);
          var w := Dirty(indexes[i]);
          var key := UnusedKey(properties, []);
          v := Obj(map[key := w]);
          DirtyIndex(ast, i, key, v.members);
        }
      case Union(_, members) =>
        var i :| 0 <= i < |members| && !Open(members[i]);
        v := Dirty(members[i]);
      case Tuple(_, elements, rest) =>
        if i :| 0 <= i < |elements| && !Open(elements[i]) {
          var w := Dirty(elements[i]);
          v := Lone(i + 1, i, w);
          DirtyItem(ast, i, v.items);
        } else {
          var j :| 0 <= j < |rest| && !Open(rest[j]);
          var w := Dirty(rest[j]);
          var n := RestPlaced(ast, |elements|, j);
          v := Lone(n, |elements|, w);
          DirtyItem(ast, |elements|, v.items);
        }
      case Refinement(_, from) => v := Dirty(from);
      case Transformation(_, encoded) => v := Dirty(encoded);
      case Suspended(_, inner) => v := Dirty(inner);
      case Scalar(_) =>
    }
  }

  // ------------------------------------------------------ what one schema's walk hides

  /** Redaction by `f` leaves nothing at an annotated position of `m`. */
  predicate Hides(f: Ast, m: Ast)
    decreases f, 1, m, 1
  {
    if f.pii then true
    else
      match f
      case Refinement(_, from) => Hides(from, m)
      case Transformation(_, encoded) => Hides(encoded, m)
      case Union(_, members) =>
        var first := FirstStructured(members);
        if AnyAnnotated(members) then true
        else if first.Some? then Hides(members[first.value], m)
        else Open(m)
      case Scalar(_) => Open(m)
      case Suspended(_, _) => Open(m)
      case TypeLiteral(_, _, _) => WalkHides(f, m)
      case Tuple(_, _, _) => WalkHides(f, m)
  }

  /** The same for a struct or a tuple. */
  predicate WalkHides(f: Ast, m: Ast)
    requires Structured(f) && !f.pii
    decreases f, 1, m, 0
  {
    !m.pii &&
    match m
    case Scalar(_) => true
    case Union(_, members) => forall i :: 0 <= i < |members| ==> WalkHides(f, members[i])
    case Refinement(_, from) => WalkHides(f, from)
    case Transformation(_, encoded) => WalkHides(f, encoded)
    case Suspended(_, inner) => WalkHides(f, inner)
    case TypeLiteral(_, properties, indexes) =>
      if f.Tuple? then Open(m)
      else
        && (forall i :: 0 <= i < |properties| ==> HidesMember(f, properties[i].name, properties[i].shape))
        && (forall j :: 0 <= j < |indexes| ==> HidesRecord(f, properties, indexes[j]))
    case Tuple(_, elements, rest) =>
      if f.TypeLiteral? then Open(m)
      else
        && (forall i :: 0 <= i < |elements| ==> HidesItem(f, i, elements[i]))
        && (forall j :: 0 <= j < |rest| ==> HidesRest(f, |elements|, rest[j]))
  }

  /** The member of that key is hidden for a shape. */
  predicate HidesMember(f: Ast, key: string, shape: Ast)
    requires f.TypeLiteral?
    decreases f, 0, shape, 0
  {
    var at := ShapeOf(f.properties, key);
    if at.Some? then Hides(f.properties[at.value].shape, shape)
    else AnyAnnotated(f.indexes) || Open(shape)
  }

  /** Every member that `m` does not name is hidden for the shape of its records. */
  predicate HidesRecord(f: Ast, named: seq<Property>, shape: Ast)
    requires f.TypeLiteral?
    decreases f, 0, shape, 1
  {
    && (AnyAnnotated(f.indexes) || Open(shape))
    && forall i :: 0 <= i < |f.properties| && !Names(named, f.properties[i].name) ==>
         HidesMember(f, f.properties[i].name, shape)
  }

  predicate HidesItem(f: Ast, i: nat, shape: Ast)
    requires f.Tuple?
    decreases f, 0, shape, 0
  {
    if ItemShape(f, i).Some? then Hides(ItemShape(f, i).value, shape) else Open(shape)
  }

  /** Every item from `from` on is hidden for the shape. */
  predicate HidesRest(f: Ast, from: nat, shape: Ast)
    requires f.Tuple?
    decreases f, 0, shape, 1
  {
    HidesItem(f, from + |f.elements|, shape) && forall i :: from <= i < |f.elements| ==> HidesItem(f, i, shape)
  }

  /** What is hidden is clean. */
  lemma {:induction false} HiddenClean(f: Ast, m: Ast, v: Json)
    requires WellFormed(f) && Hides(f, m)
    ensures Clean(m, Redact(f, v))
    decreases f, 1, m, 1
  {
    MaskTwice(v);
    if f.pii {
      MaskedClean(m, Mask(v));
    } else {
      match f
      case Refinement(_, from) => HiddenClean(from, m, v);
      case Transformation(_, encoded) => HiddenClean(encoded, m, v);
      case Union(_, members) =>
        var first := FirstStructured(members);
        if AnyAnnotated(members) {
          MaskedClean(m, Mask(v));
        } else if first.Some? {
          HiddenClean(members[first.value], m, v);
        } else {
          OpenClean(m, v);
        }
      case Scalar(_) => OpenClean(m, v);
      case Suspended(_, _) => OpenClean(m, v);
      case TypeLiteral(_, _, _) => WalkClean(f, m, v);
      case Tuple(_, _, _) => WalkClean(f, m, v);
    }
  }

  lemma {:induction false} WalkClean(f: Ast, m: Ast, v: Json)
    requires WellFormed(f) && Structured(f) && !f.pii && WalkHides(f, m)
    ensures Clean(m, Redact(f, v))
    decreases f, 1, m, 0
  {
    hide Redact;
    match m
    case Scalar(_) =>
    case Union(_, members) =>
      forall i | 0 <= i < |members| ensures Clean(members[i], Redact(f, v)) {
        WalkClean(f, members[i], v);
      }
    case Refinement(_, from) => WalkClean(f, from, v);
    case Transformation(_, encoded) => WalkClean(f, encoded, v);
    case Suspended(_, inner) => WalkClean(f, inner, v);
    case TypeLiteral(_, _, _) =>
      if f.Tuple? {
        OpenClean(m, Redact(f, v));
      } else {
        LiteralClean(f, m, v);
      }
    case Tuple(_, _, _) =>
      if f.TypeLiteral? {
        OpenClean(m, Redact(f, v));
      } else {
        TupleClean(f, m, v);
      }
  }

  /** Redaction keeps the kind of a value at an unannotated struct or tuple. */
  lemma {:induction false} KindKept(f: Ast, v: Json)
    requires Structured(f) && !f.pii
    ensures Redact(f, v).Obj? <==> v.Obj?
    ensures Redact(f, v).Arr? <==> v.Arr?
    ensures f.TypeLiteral? && !v.Obj? ==> Redact(f, v) == v
    ensures f.Tuple? && !v.Arr? ==> Redact(f, v) == v
  {}

  lemma {:induction false} LiteralClean(f: Ast, m: Ast, v: Json)
    requires WellFormed(f) && f.TypeLiteral? && !f.pii && m.TypeLiteral? && WalkHides(f, m)
    ensures Clean(m, Redact(f, v))
    decreases f, 0, m, 0
  {
    KindKept(f, v);
    if v.Obj? {
      MembersRedacted(f, v.members);
      hide Redact;
      var r := Redact(f, v).members;
      forall i | 0 <= i < |m.properties| && m.properties[i].name in r
        ensures Clean(m.properties[i].shape, r[m.properties[i].name])
      {
        MemberClean(f, m.properties[i].name, m.properties[i].shape, v.members[m.properties[i].name]);
      }
      forall j, k | 0 <= j < |m.indexes| && k in r && !Names(m.properties, k) ensures Clean(m.indexes[j], r[k]) {
        RecordHides(f, m.properties, m.indexes[j], k);
        MemberClean(f, k, m.indexes[j], v.members[k]);
      }
    }
  }

  lemma {:induction false} RecordHides(f: Ast, named: seq<Property>, shape: Ast, key: string)
    requires f.TypeLiteral? && HidesRecord(f, named, shape) && !Names(named, key)
    ensures HidesMember(f, key, shape)
  {
    hide Hides;
    var at := ShapeOf(f.properties, key);
    if at.Some? {
      assert HidesMember(f, f.properties[at.value].name, shape);
    }
  }

  lemma {:induction false} MemberClean(f: Ast, key: string, shape: Ast, v: Json)
    requires WellFormed(f) && f.TypeLiteral? && HidesMember(f, key, shape)
    ensures Clean(shape, RedactMember(f, key, v))
    decreases f, 0, shape, 0
  {
    hide Hides, Redact;
    var at := ShapeOf(f.properties, key);
    if at.Some? {
      HiddenClean(f.properties[at.value].shape, shape, v);
    } else if AnyAnnotated(f.indexes) {
      MaskTwice(v);
      MaskedClean(shape, Mask(v));
    } else {
      OpenClean(shape, v);
    }
  }

  lemma {:induction false} TupleClean(f: Ast, m: Ast, v: Json)
    requires WellFormed(f) && f.Tuple? && !f.pii && m.Tuple? && WalkHides(f, m)
    ensures Clean(m, Redact(f, v))
    decreases f, 0, m, 0
  {
    KindKept(f, v);
    if v.Arr? {
      ItemsRedacted(f, v.items);
      hide Redact;
      var r := Redact(f, v).items;
      forall i | 0 <= i < |m.elements| && i < |r| ensures Clean(m.elements[i], r[i]) {
        ItemClean(f, i, m.elements[i], v.items[i]);
      }
      forall i | |m.elements| <= i < |r| && |m.rest| > 0 ensures Clean(m.rest[RestAt(|m.rest|, |r|, i)], r[i]) {
        var shape := m.rest[RestAt(|m.rest|, |r|, i)];
        RestHides(f, |m.elements|, shape, i);
        ItemClean(f, i, shape, v.items[i]);
      }
    }
  }

  lemma {:induction false} RestHides(f: Ast, from: nat, shape: Ast, i: nat)
    requires f.Tuple? && HidesRest(f, from, shape) && from <= i
    ensures HidesItem(f, i, shape)
  {
    hide Hides;
  }

  lemma {:induction false} ItemClean(f: Ast, i: nat, shape: Ast, v: Json)
    requires WellFormed(f) && f.Tuple? && HidesItem(f, i, shape)
    ensures Clean(shape, if ItemShape(f, i).Some? then Redact(ItemShape(f, i).value, v) else v)
    decreases f, 0, shape, 0
  {
    hide Hides, Redact;
    if i < |f.elements| {
      HiddenClean(f.elements[i], shape, v);
    } else if |f.rest| > 0 {
      HiddenClean(f.rest[0], shape, v);
    } else {
      OpenClean(shape, v);
    }
  }

  // ---------------------------------------------------------- what is not hidden leaks

  /** What is not hidden keeps some value. */
  lemma {:induction false} Exposed(f: Ast, m: Ast) returns (v: Json)
    requires WellFormed(f) && !Hides(f, m)
    ensures !Clean(m, Redact(f, v))
    decreases f, 1, m, 1
  {
    match f
    case Refinement(_, from) => v := Exposed(from, m);
    case Transformation(_, encoded) => v := Exposed(encoded, m);
    case Union(_, members) =>
      var first := FirstStructured(members);
      if first.Some? {
        v := Exposed(members[first.value], m);
      } else {
        v := Dirty(m);
      }
    case Scalar(_) => v := Dirty(m);
    case Suspended(_, _) => v := Dirty(m);
    case TypeLiteral(_, _, _) => v := WalkExposes(f, m);
    case Tuple(_, _, _) => v := WalkExposes(f, m);
  }

  lemma {:induction false} WalkExposes(f: Ast, m: Ast) returns (v: Json)
    requires WellFormed(f) && Structured(f) && !f.pii && !WalkHides(f, m)
    ensures !Clean(m, Redact(f, v))
    decreases f, 1, m, 0
  {
    v := SECRET;
    if m.pii {
      SecretDirty(m);
      KindKept(f, SECRET);
    } else {
      match m
      case Union(_, members) =>
        var i :| 0 <= i < |members| && !WalkHides(f, members[i]);
        v := WalkExposes(f, members[i]);
      case Refinement(_, from) => v := WalkExposes(f, from);
      case Transformation(_, encoded) => v := WalkExposes(f, encoded);
      case Suspended(_, inner) => v := WalkExposes(f, inner);
      case TypeLiteral(_, _, _) =>
        if f.Tuple? {
          v := Dirty(m);
          DirtyKind(m, v);
          KindKept(f, v);
        } else {
          v := LiteralExposes(f, m);
        }
      case Tuple(_, _, _) =>
        if f.TypeLiteral? {
          v := Dirty(m);
          DirtyKind(m, v);
          KindKept(f, v);
        } else {
          v := TupleExposes(f, m);
        }
      case Scalar(_) =>
    }
  }

  lemma {:induction false} DirtyKind(m: Ast, v: Json)
    requires !m.pii && !Clean(m, v)
    ensures m.TypeLiteral? ==> v.Obj?
    ensures m.Tuple? ==> v.Arr?
  {}

  lemma {:induction false} LiteralExposes(f: Ast, m: Ast) returns (v: Json)
    requires WellFormed(f) && f.TypeLiteral? && !f.pii && m.TypeLiteral? && !m.pii && !WalkHides(f, m)
    ensures !Clean(m, Redact(f, v))
    decreases f, 0, m, 0
  {
    hide HidesMember, HidesRecord, Clean;
    if i :| 0 <= i < |m.properties| && !HidesMember(f, m.properties[i].name, m.properties[i].shape) {
      var key := m.properties[i].name;
      var w := MemberExposed(f, key, m.properties[i].shape);
      v := Obj(map[key := w]);
      LoneMember(f, key, w);
      DirtyProperty(m, i, Redact(f, v).members);
    } else {
      var j :| 0 <= j < |m.indexes| && !HidesRecord(f, m.properties, m.indexes[j]);
      var key := RecordExposed(f, m.properties, m.indexes[j]);
      var w := MemberExposed(f, key, m.indexes[j]);
      v := Obj(map[key := w]);
      LoneMember(f, key, w);
      DirtyIndex(m, j, key, Redact(f, v).members);
    }
  }

  lemma {:induction false} LoneMember(f: Ast, key: string, w: Json)
    requires WellFormed(f) && f.TypeLiteral? && !f.pii
    ensures var r := Redact(f, Obj(map[key := w]));
            r.Obj? && key in r.members && r.members[key] == RedactMember(f, key, w)
  {
    MembersRedacted(f, map[key := w]);
    hide Redact, RedactMember;
  }

  lemma {:induction false} MemberExposed(f: Ast, key: string, shape: Ast) returns (w: Json)
    requires WellFormed(f) && f.TypeLiteral? && !HidesMember(f, key, shape)
    ensures !Clean(shape, RedactMember(f, key, w))
    decreases f, 0, shape, 0
  {
    hide Hides, Redact;
    var at := ShapeOf(f.properties, key);
    if at.Some? {
      w := Exposed(f.properties[at.value].shape, shape);
    } else {
      w := Dirty(shape);
    }
  }

  lemma {:induction false} RecordExposed(f: Ast, named: seq<Property>, shape: Ast) returns (key: string)
    requires f.TypeLiteral? && !HidesRecord(f, named, shape)
    ensures !Names(named, key) && !HidesMember(f, key, shape)
  {
    hide Hides;
    if i :|
         0 <= i < |f.properties| && !Names(named, f.properties[i].name) && !HidesMember(f, f.properties[i].name, shape)
    {
      key := f.properties[i].name;
    } else {
      key := UnusedKey(f.properties, named);
    }
  }

  lemma {:induction false} TupleExposes(f: Ast, m: Ast) returns (v: Json)
    requires WellFormed(f) && f.Tuple? && !f.pii && m.Tuple? && !m.pii && !WalkHides(f, m)
    ensures !Clean(m, Redact(f, v))
    decreases f, 0, m, 0
  {
    hide HidesItem, HidesRest, Clean;
    if i :| 0 <= i < |m.elements| && !HidesItem(f, i, m.elements[i]) {
      v := ItemExposes(f, m, i + 1, i, m.elements[i]);
    } else {
      var j :| 0 <= j < |m.rest| && !HidesRest(f, |m.elements|, m.rest[j]);
      var i := RestExposed(f, |m.elements|, m.rest[j]);
      var n := RestPlaced(m, i, j);
      v := ItemExposes(f, m, n, i, m.rest[j]);
    }
  }

  lemma {:induction false} ItemExposes(f: Ast, m: Ast, n: nat, i: nat, shape: Ast) returns (v: Json)
    requires WellFormed(f) && f.Tuple? && !f.pii && m.Tuple? && Placed(m, n, i, shape) && !HidesItem(f, i, shape)
    ensures !Clean(m, Redact(f, v))
    decreases f, 0, shape, 1
  {
    hide HidesItem, Clean;
    var w := ItemExposed(f, i, shape);
    v := Lone(n, i, w);
    ItemsRedacted(f, v.items);
    hide Redact;
    DirtyItem(m, i, Redact(f, v).items);
  }

  lemma {:induction false} RestExposed(f: Ast, from: nat, shape: Ast) returns (i: nat)
    requires f.Tuple? && !HidesRest(f, from, shape)
    ensures from <= i && !HidesItem(f, i, shape)
  {
    hide HidesItem;
    i := from + |f.elements|;
    if j :| from <= j < |f.elements| && !HidesItem(f, j, shape) {
      i := j;
    }
  }

  lemma {:induction false} ItemExposed(f: Ast, i: nat, shape: Ast) returns (w: Json)
    requires WellFormed(f) && f.Tuple? && !HidesItem(f, i, shape)
    ensures !Clean(shape, if ItemShape(f, i).Some? then Redact(ItemShape(f, i).value, w) else w)
    decreases f, 0, shape, 0
  {
    hide Hides, Redact;
    if i < |f.elements| {
      w := Exposed(f.elements[i], shape);
    } else if |f.rest| > 0 {
      w := Exposed(f.rest[0], shape);
    } else {
      w := Dirty(shape);
    }
  }

  /** A schema is safe to journal exactly when its walk hides its own annotations:
      otherwise some value keeps something at an annotated position. */
  lemma {:induction false} LeaksExactly(ast: Ast)
    requires WellFormed(ast)
    ensures (forall v :: Clean(ast, Redact(ast, v))) <==> Hides(ast, ast)
  {
    if Hides(ast, ast) {
      forall v ensures Clean(ast, Redact(ast, v)) {
        HiddenClean(ast, ast, v);
      }
    } else {
      var v := Exposed(ast, ast);
    }
  }

  // ------------------------------------------------------------- where the walk stops

  /** A struct with one annotated member, and a value that has it. */
  function Person(): Ast {
    TypeLiteral(false, [Property("email", Scalar(true))], [])
  }

  function PersonValue(): Json {
    Obj(map["email" := Str("a@b")])
  }

  lemma {:induction false} PersonDirty()
    ensures !Clean(Person(), PersonValue()) && !Person().pii && PersonValue().Obj?
  {
    assert Person().properties[0].name in PersonValue().members;
    assert !Clean(Scalar(true), Str("a@b")) by {
      assert "a@b"[0] != "[redacted]"[0];
    }
  }

  /** Five shapes whose walk stops short: an annotation inside a record's value type,
      inside a later member of a union, inside a refined member of a union, inside a
      suspended schema, or on a tuple element behind the rest is not redacted. */
  lemma {:induction false} WalkStopsShort()
    ensures var v := PersonValue();
      && (var behind := Tuple(false, [], [Scalar(false), Scalar(true)]);
          var w := Arr([Str("a"), SECRET]);
          !Clean(behind, Redact(behind, w)))
      && (var record := TypeLiteral(false, [], [Person()]); var w := Obj(map["x" := v]);
         !Clean(record, Redact(record, w)))
      && (var second := Union(false, [TypeLiteral(false, [], []), Person()]); !Clean(second, Redact(second, v)))
      && (var refined := Union(false, [Refinement(false, Person())]); !Clean(refined, Redact(refined, v)))
      && (var suspended := Suspended(false, Person()); !Clean(suspended, Redact(suspended, v)))
  {
    hide Person, PersonValue;
    PersonDirty();
    var v := PersonValue();
    RecordLeaks(v);
    SecondLeaks(v);
    RefinedLeaks(v);
    SuspendedLeaks(v);
    BehindLeaks();
    hide Clean, Redact;
  }

  lemma {:induction false} BehindLeaks()
    ensures var behind := Tuple(false, [], [Scalar(false), Scalar(true)]);
      !Clean(behind, Redact(behind, Arr([Str("a"), SECRET])))
  {
    var behind := Tuple(false, [], [Scalar(false), Scalar(true)]);
    var items := [Str("a"), SECRET];
    SecretDirty(Scalar(true));
    ItemsRedacted(behind, items);
    assert Redact(Scalar(false), SECRET) == SECRET;
    DirtyItem(behind, 1, Redact(behind, Arr(items)).items);
  }

  lemma {:induction false} SuspendedLeaks(v: Json)
    requires !Clean(Person(), v)
    ensures !Clean(Suspended(false, Person()), Redact(Suspended(false, Person()), v))
  {
    hide Person;
  }

  lemma {:induction false} RecordLeaks(v: Json)
    requires !Clean(Person(), v) && !Person().pii
    ensures var record := TypeLiteral(false, [], [Person()]); !Clean(record, Redact(record, Obj(map["x" := v])))
  {
    var record, w := TypeLiteral(false, [], [Person()]), Obj(map["x" := v]);
    MembersRedacted(record, w.members);
    hide Person, Redact;
    assert !Names([], "x") && !AnyAnnotated([Person()]);
    assert Redact(record, w).members["x"] == v;
    assert record.indexes[0] == Person();
  }

  lemma {:induction false} SecondLeaks(v: Json)
    requires v.Obj? && !Clean(Person(), v) && !Person().pii
    ensures var second := Union(false, [TypeLiteral(false, [], []), Person()]); !Clean(second, Redact(second, v))
  {
    var empty := TypeLiteral(false, [], []);
    var second := Union(false, [empty, Person()]);
    MembersRedacted(empty, v.members);
    assert (map k | k in v.members :: RedactMember(empty, k, v.members[k])) == v.members;
    hide Person;
    assert !AnyAnnotated(second.members) && FirstStructured(second.members) == Some(0);
    assert Redact(second, v) == v;
    assert second.members[1] == Person();
  }

  lemma {:induction false} RefinedLeaks(v: Json)
    requires !Clean(Person(), v) && !Person().pii
    ensures var refined := Union(false, [Refinement(false, Person())]); !Clean(refined, Redact(refined, v))
  {
    var refined := Union(false, [Refinement(false, Person())]);
    hide Person;
    assert !AnyAnnotated(refined.members) && FirstStructured(refined.members).None?;
    assert Redact(refined, v) == v;
    assert refined.members[0] == Refinement(false, Person());
  }
}
