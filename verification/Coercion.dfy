/** Coercing argument values to the types that a JSON Schema asks for. */
module Coercion {
  import opened Wrappers
  import opened Json

  /** What the coercion takes from libraries that are not modelled: reading numbers from
      text and writing them, and whether a value satisfies a (possibly invalid) schema. */
  datatype Library = Library(
    parseInteger: string -> Option<int>,
    parseNumber: string -> Option<Number>,
    showNumber: Number -> string,
    accepts: (Value, Value) -> bool)

  function Get(schema: Value, key: string): Option<Value> {
    if schema.Obj? && key in schema.fields then Some(schema.fields[key]) else None
  }

  function TypeOf(schema: Value): string {
    match Get(schema, "type")
    case Some(Str(s)) => s
    case _ => ""
  }

  function LowerChar(c: char): char { if 'A' <= c <= 'Z' then ((c as int) + 32) as char else c }

  function Lower(s: string): (r: string)
    ensures |r| == |s|
  {
    seq(|s|, i requires 0 <= i < |s| => LowerChar(s[i]))
  }

  const I64_MIN: int := -0x8000_0000_0000_0000
  const I64_MAX: int := 0x7fff_ffff_ffff_ffff

  /** Nonzero, or not an integer that fits 64 bits. */
  predicate Truthy(n: Number) { !(n.Int? && I64_MIN <= n.i <= I64_MAX) || n.i != 0 }

  /** The first step: a scalar of the wrong type is converted where that makes sense. */
  function Scalar(lib: Library, v: Value, wanted: string): Value {
    if wanted == "integer" && v.Str? then
      (match lib.parseInteger(v.s) case Some(i) => Num(Int(i)) case None => v)
    else if wanted == "number" && v.Str? then
      (match lib.parseNumber(v.s) case Some(n) => Num(n) case None => v)
    else if wanted == "boolean" && v.Str? then
      if Lower(v.s) == "true" then Bool(true) else if Lower(v.s) == "false" then Bool(false) else v
    else if wanted == "string" && v.Num? then Str(lib.showNumber(v.n))
    else if (wanted == "integer" || wanted == "number") && v.Bool? then Num(Int(if v.b then 1 else 0))
    else if wanted == "boolean" && v.Num? then Bool(Truthy(v.n))
    else v
  }

  /** The sub-schemas of the named fields, when the schema has any. */
  function Properties(schema: Value): Option<map<string, Value>> {
    match Get(schema, "properties")
    case Some(Obj(props)) => Some(props)
    case _ => None
  }

  function Members(schema: Value, key: string): (r: seq<Value>)
    ensures forall i | 0 <= i < |r| :: schema.Obj? && r[i] < schema
  {
    match Get(schema, key)
    case Some(Arr(items)) => items
    case _ => []
  }

  function Coerce(lib: Library, v: Value, schema: Value): Value
    decreases schema, 5
  {
    var a := Scalar(lib, v, TypeOf(schema));
    var b := CoerceNamed(lib, a, schema);
    var c := CoerceItems(lib, b, schema);
    var d := CoerceUnion(lib, c, schema, "allOf");
    var e := CoerceUnion(lib, d, schema, "anyOf");
    var f := CoerceUnion(lib, e, schema, "oneOf");
    CoerceOthers(lib, f, schema)
  }

  function CoerceNamed(lib: Library, v: Value, schema: Value): Value
    decreases schema, 4
  {
    if v.Obj? && Properties(schema).Some? then
      var props := Properties(schema).value;
      assert props == schema.fields["properties"].fields;
      Obj(map k | k in v.fields :: if k in props then Coerce(lib, v.fields[k], props[k]) else v.fields[k])
    else v
  }

  function CoerceItems(lib: Library, v: Value, schema: Value): Value
    decreases schema, 4
  {
    if v.Arr? && Get(schema, "items").Some? then
      var item := schema.fields["items"];
      Arr(seq(|v.items|, i requires 0 <= i < |v.items| => Coerce(lib, v.items[i], item)))
    else v
  }

  /** The first union member whose coercion of the value it accepts itself wins. */
  function CoerceUnion(lib: Library, v: Value, schema: Value, key: string): Value
    decreases schema, 4
  {
    FirstAccepted(lib, v, schema, key, 0)
  }

  function FirstAccepted(lib: Library, v: Value, schema: Value, key: string, i: nat): Value
    decreases schema, 3, |Members(schema, key)| - i
  {
    var members := Members(schema, key);
    if i >= |members| then v
    else
      var tried := Coerce(lib, v, members[i]);
      if lib.accepts(members[i], tried) then tried else FirstAccepted(lib, v, schema, key, i + 1)
  }

  function CoerceOthers(lib: Library, v: Value, schema: Value): Value
    decreases schema, 4
  {
    if v.Obj? && Properties(schema).Some? && Get(schema, "additionalProperties").Some? then
      var props, other := Properties(schema).value, schema.fields["additionalProperties"];
      Obj(map k | k in v.fields :: if k in props then v.fields[k] else Coerce(lib, v.fields[k], other))
    else v
  }

  // ---- As the source runs it ----

  method CoerceValue(lib: Library, value: Value, schema: Value) returns (r: Value)
    ensures r == Coerce(lib, value, schema)
    decreases schema, 5
  {
    r := Scalar(lib, value, TypeOf(schema));
    r := CoerceProperties(lib, r, schema);
    r := CoerceElements(lib, r, schema);
    r := TryMembers(lib, r, schema, "allOf");
    r := TryMembers(lib, r, schema, "anyOf");
    r := TryMembers(lib, r, schema, "oneOf");
    r := CoerceAdditional(lib, r, schema);
  }

  method CoerceProperties(lib: Library, value: Value, schema: Value) returns (r: Value)
    ensures r == CoerceNamed(lib, value, schema)
    decreases schema, 4
  {
    if !value.Obj? || Properties(schema).None? {
      return value;
    }
    var props := Properties(schema).value;
    assert props == schema.fields["properties"].fields;
    var fields := value.fields;
    var todo := props.Keys;
    while todo != {}
      invariant todo <= props.Keys && fields.Keys == value.fields.Keys
      invariant forall k <- fields ::
                  fields[k] == if k in props && k !in todo then Coerce(lib, value.fields[k], props[k]) else value.fields[k]
      decreases |todo|
    {
      var key :| key in todo;
      todo := todo - {key};
      if key in fields {
        var field := CoerceValue(lib, fields[key], props[key]);
        fields := fields[key := field];
      }
    }
    assert fields == CoerceNamed(lib, value, schema).fields;
    return Obj(fields);
  }

  method CoerceElements(lib: Library, value: Value, schema: Value) returns (r: Value)
    ensures r == CoerceItems(lib, value, schema)
    decreases schema, 4
  {
    if !value.Arr? || Get(schema, "items").None? {
      return value;
    }
    var item := schema.fields["items"];
    var items := value.items;
    for i := 0 to |value.items|
      invariant |items| == |value.items|
      invariant forall j | 0 <= j < i :: items[j] == Coerce(lib, value.items[j], item)
      invariant forall j | i <= j < |items| :: items[j] == value.items[j]
    {
      var element := CoerceValue(lib, items[i], item);
      items := items[i := element];
    }
    assert items == CoerceItems(lib, value, schema).items;
    return Arr(items);
  }

  method TryMembers(lib: Library, value: Value, schema: Value, key: string) returns (r: Value)
    ensures r == CoerceUnion(lib, value, schema, key)
    decreases schema, 4
  {
    var members := Members(schema, key);
    for i := 0 to |members|
      invariant CoerceUnion(lib, value, schema, key) == FirstAccepted(lib, value, schema, key, i)
    {
      var cloned := CoerceValue(lib, value, members[i]);
      if lib.accepts(members[i], cloned) {
        return cloned;
      }
    }
    return value;
  }

  method CoerceAdditional(lib: Library, value: Value, schema: Value) returns (r: Value)
    ensures r == CoerceOthers(lib, value, schema)
    decreases schema, 4
  {
    if !value.Obj? || Properties(schema).None? || Get(schema, "additionalProperties").None? {
      return value;
    }
    var props, other := Properties(schema).value, schema.fields["additionalProperties"];
    var fields := value.fields;
    var todo := fields.Keys;
    while todo != {}
      invariant todo <= value.fields.Keys && fields.Keys == value.fields.Keys
      invariant forall k <- fields ::
                  fields[k] == if k in props || k in todo then value.fields[k] else Coerce(lib, value.fields[k], other)
      decreases |todo|
    {
      var key :| key in todo;
      todo := todo - {key};
      if key !in props {
        var field := CoerceValue(lib, fields[key], other);
        fields := fields[key := field];
      }
    }
    assert fields == CoerceOthers(lib, value, schema).fields;
    return Obj(fields);
  }

  // ---- Shape ----

  /** The same arrays and objects, with the same lengths and keys, at every depth. */
  predicate SameShape(v: Value, w: Value) {
    match v
    case Arr(items) => w.Arr? && |w.items| == |items| && forall i | 0 <= i < |items| :: SameShape(items[i], w.items[i])
    case Obj(fields) => w.Obj? && w.fields.Keys == fields.Keys && forall k <- fields :: SameShape(fields[k], w.fields[k])
    case _ => !w.Arr? && !w.Obj?
  }

  lemma {:induction false} SameShapeReflexive(v: Value)
    ensures SameShape(v, v)
  {
    match v {
      case Arr(items) =>
        forall i | 0 <= i < |items| ensures SameShape(items[i], items[i]) { SameShapeReflexive(items[i]); }
      case Obj(fields) =>
        forall k <- fields ensures SameShape(fields[k], fields[k]) { SameShapeReflexive(fields[k]); }
      case _ =>
    }
  }

  lemma {:induction false} SameShapeTransitive(u: Value, v: Value, w: Value)
    requires SameShape(u, v) && SameShape(v, w)
    ensures SameShape(u, w)
    decreases u
  {
    match u {
      case Arr(items) =>
        forall i | 0 <= i < |items| ensures SameShape(items[i], w.items[i]) {
          SameShapeTransitive(items[i], v.items[i], w.items[i]);
        }
      case Obj(fields) =>
        forall k <- fields ensures SameShape(fields[k], w.fields[k]) {
          SameShapeTransitive(fields[k], v.fields[k], w.fields[k]);
        }
      case _ =>
    }
  }

  /** Whatever the schema, and whatever its unions accept, coercion keeps every key set and
      every length at every depth. */
  lemma {:induction false} CoerceKeepsShape(lib: Library, v: Value, schema: Value)
    ensures SameShape(v, Coerce(lib, v, schema))
    decreases schema, 5
  {
    var a := Scalar(lib, v, TypeOf(schema));
    var b := CoerceNamed(lib, a, schema);
    var c := CoerceItems(lib, b, schema);
    var d := CoerceUnion(lib, c, schema, "allOf");
    var e := CoerceUnion(lib, d, schema, "anyOf");
    var f := CoerceUnion(lib, e, schema, "oneOf");
    SameShapeReflexive(v);
    assert SameShape(v, b) by { NamedKeepsShape(lib, a, schema); SameShapeTransitive(v, a, b); }
    assert SameShape(v, c) by { ItemsKeepShape(lib, b, schema); SameShapeTransitive(v, b, c); }
    assert SameShape(v, d) by { UnionKeepsShape(lib, c, schema, "allOf", 0); SameShapeTransitive(v, c, d); }
    assert SameShape(v, e) by { UnionKeepsShape(lib, d, schema, "anyOf", 0); SameShapeTransitive(v, d, e); }
    assert SameShape(v, f) by { UnionKeepsShape(lib, e, schema, "oneOf", 0); SameShapeTransitive(v, e, f); }
    OthersKeepShape(lib, f, schema);
    SameShapeTransitive(v, f, CoerceOthers(lib, f, schema));
  }

  lemma {:induction false} NamedKeepsShape(lib: Library, v: Value, schema: Value)
    ensures SameShape(v, CoerceNamed(lib, v, schema))
    decreases schema, 4
  {
    SameShapeReflexive(v);
    if v.Obj? && Properties(schema).Some? {
      var props := Properties(schema).value;
      assert props == schema.fields["properties"].fields;
      forall k <- v.fields | k in props ensures SameShape(v.fields[k], Coerce(lib, v.fields[k], props[k])) {
        CoerceKeepsShape(lib, v.fields[k], props[k]);
      }
    }
  }

  lemma {:induction false} ItemsKeepShape(lib: Library, v: Value, schema: Value)
    ensures SameShape(v, CoerceItems(lib, v, schema))
    decreases schema, 4
  {
    SameShapeReflexive(v);
    if v.Arr? && Get(schema, "items").Some? {
      forall i | 0 <= i < |v.items| ensures SameShape(v.items[i], Coerce(lib, v.items[i], schema.fields["items"])) {
        CoerceKeepsShape(lib, v.items[i], schema.fields["items"]);
      }
    }
  }

  lemma {:induction false} UnionKeepsShape(lib: Library, v: Value, schema: Value, key: string, i: nat)
    ensures SameShape(v, FirstAccepted(lib, v, schema, key, i))
    decreases schema, 3, |Members(schema, key)| - i
  {
    var members := Members(schema, key);
    if i >= |members| {
      SameShapeReflexive(v);
    } else {
      CoerceKeepsShape(lib, v, members[i]);
      UnionKeepsShape(lib, v, schema, key, i + 1);
    }
  }

  lemma {:induction false} OthersKeepShape(lib: Library, v: Value, schema: Value)
    ensures SameShape(v, CoerceOthers(lib, v, schema))
    decreases schema, 4
  {
    SameShapeReflexive(v);
    if v.Obj? && Properties(schema).Some? && Get(schema, "additionalProperties").Some? {
      var other := schema.fields["additionalProperties"];
      forall k <- v.fields ensures SameShape(v.fields[k], Coerce(lib, v.fields[k], other)) {
        CoerceKeepsShape(lib, v.fields[k], other);
      }
    }
  }

  // ---- Schemas without unions ----

  predicate NoUnion(schema: Value) {
    Members(schema, "allOf") == [] && Members(schema, "anyOf") == [] && Members(schema, "oneOf") == []
  }

  /** No union in the schema, nor in any sub-schema that coercion would follow. */
  predicate UnionFree(schema: Value) {
    && NoUnion(schema)
    && (Properties(schema).Some? ==>
          var props := Properties(schema).value;
          assert props == schema.fields["properties"].fields;
          forall k <- props :: UnionFree(props[k]))
    && (Get(schema, "items").Some? ==> UnionFree(schema.fields["items"]))
    && (Get(schema, "additionalProperties").Some? ==> UnionFree(schema.fields["additionalProperties"]))
  }

  /** The schema that applies to a field, if any. */
  function FieldSchema(schema: Value, key: string): Option<Value> {
    match Properties(schema)
    case None => None
    case Some(props) => if key in props then Some(props[key]) else Get(schema, "additionalProperties")
  }

  lemma FieldSchemaIsSmaller(schema: Value, key: string)
    requires FieldSchema(schema, key).Some?
    ensures FieldSchema(schema, key).value < schema
    ensures UnionFree(schema) ==> UnionFree(FieldSchema(schema, key).value)
    ensures Tame(schema) && NoUnion(schema) ==> Tame(FieldSchema(schema, key).value)
  {
    var props := Properties(schema).value;
    assert props == schema.fields["properties"].fields;
  }

  function CoerceField(lib: Library, v: Value, schema: Option<Value>): Value {
    match schema
    case None => v
    case Some(s) => Coerce(lib, v, s)
  }

  lemma NoUnionsToTry(lib: Library, v: Value, schema: Value)
    requires NoUnion(schema)
    ensures Coerce(lib, v, schema)
            == CoerceOthers(lib, CoerceItems(lib, CoerceNamed(lib, Scalar(lib, v, TypeOf(schema)), schema), schema), schema)
  {
    var c := CoerceItems(lib, CoerceNamed(lib, Scalar(lib, v, TypeOf(schema)), schema), schema);
    assert CoerceUnion(lib, c, schema, "allOf") == c;
    assert CoerceUnion(lib, c, schema, "anyOf") == c;
    assert CoerceUnion(lib, c, schema, "oneOf") == c;
  }

  lemma FieldsCoerce(lib: Library, v: Value, schema: Value)
    requires v.Obj?
    ensures var r := CoerceOthers(lib, CoerceItems(lib, CoerceNamed(lib, v, schema), schema), schema);
            r.Obj? && r.fields.Keys == v.fields.Keys
            && forall k <- v.fields :: r.fields[k] == CoerceField(lib, v.fields[k], FieldSchema(schema, k))
  {}

  /** Where a schema has no union, coercion is one thing per kind of value: each field once, by
      the one schema that applies to it. */
  lemma UnionFreeCoerce(lib: Library, v: Value, schema: Value)
    requires NoUnion(schema)
    ensures var r := Coerce(lib, v, schema);
            match v
            case Obj(fields) =>
              r.Obj? && r.fields.Keys == fields.Keys
              && forall k <- fields :: r.fields[k] == CoerceField(lib, fields[k], FieldSchema(schema, k))
            case Arr(items) =>
              r.Arr? && |r.items| == |items|
              && forall i | 0 <= i < |items| ::
                   r.items[i] == if Get(schema, "items").Some? then Coerce(lib, items[i], schema.fields["items"]) else items[i]
            case _ => r == Scalar(lib, v, TypeOf(schema)) && !r.Obj? && !r.Arr?
  {
    NoUnionsToTry(lib, v, schema);
    if v.Obj? {
      assert Scalar(lib, v, TypeOf(schema)) == v;
      FieldsCoerce(lib, v, schema);
    } else if v.Arr? {
      assert Scalar(lib, v, TypeOf(schema)) == v && CoerceNamed(lib, v, schema) == v;
    }
  }

  // ---- Unions that choose ----

  /** A schema that does nothing but choose among the members of its one union. */
  predicate PureUnion(schema: Value, key: string) {
    && key in ["allOf", "anyOf", "oneOf"]
    && (key == "allOf" || Members(schema, "allOf") == [])
    && (key == "anyOf" || Members(schema, "anyOf") == [])
    && (key == "oneOf" || Members(schema, "oneOf") == [])
    && TypeOf(schema) !in ["integer", "number", "boolean", "string"]
    && Properties(schema).None? && Get(schema, "items").None?
  }

  /** A member accepts its own coercion of the value. */
  predicate Accepts(lib: Library, v: Value, member: Value) { lib.accepts(member, Coerce(lib, v, member)) }

  /** Member `i` is the first that does. */
  predicate Chooses(lib: Library, v: Value, members: seq<Value>, i: nat) {
    i < |members| && Accepts(lib, v, members[i]) && forall j | 0 <= j < i :: !Accepts(lib, v, members[j])
  }

  lemma {:induction false} FirstAcceptedIs(lib: Library, v: Value, schema: Value, key: string, i: nat, j: nat)
    requires i <= j && Chooses(lib, v, Members(schema, key), j)
    ensures FirstAccepted(lib, v, schema, key, i) == Coerce(lib, v, Members(schema, key)[j])
    decreases j - i
  {
    if i < j {
      assert !Accepts(lib, v, Members(schema, key)[i]);
      FirstAcceptedIs(lib, v, schema, key, i + 1, j);
    }
  }

  lemma {:induction false} NoneAccepted(lib: Library, v: Value, schema: Value, key: string, i: nat)
    requires forall j | 0 <= j < |Members(schema, key)| :: !Accepts(lib, v, Members(schema, key)[j])
    ensures FirstAccepted(lib, v, schema, key, i) == v
    decreases |Members(schema, key)| - i
  {
    if i < |Members(schema, key)| {
      assert !Accepts(lib, v, Members(schema, key)[i]);
      NoneAccepted(lib, v, schema, key, i + 1);
    }
  }

  lemma PureUnionOnlyChooses(lib: Library, v: Value, schema: Value, key: string)
    requires PureUnion(schema, key)
    ensures Coerce(lib, v, schema) == CoerceUnion(lib, v, schema, key)
  {
    var r := CoerceUnion(lib, v, schema, key);
    assert Scalar(lib, v, TypeOf(schema)) == v;
    assert CoerceNamed(lib, v, schema) == v && CoerceItems(lib, v, schema) == v;
    assert CoerceOthers(lib, r, schema) == r;
    assert key != "allOf" ==> CoerceUnion(lib, v, schema, "allOf") == v;
    assert key != "anyOf" ==> CoerceUnion(lib, v, schema, "anyOf") == v && CoerceUnion(lib, r, schema, "anyOf") == r;
    assert key != "oneOf" ==> CoerceUnion(lib, r, schema, "oneOf") == r;
  }

  /** A pure union takes the coercion of the first member that accepts its own, whichever of the
      three keys it is under, and leaves the value alone if there is none. */
  lemma PureUnionCoerce(lib: Library, v: Value, schema: Value, key: string)
    requires PureUnion(schema, key)
    ensures var r, members := Coerce(lib, v, schema), Members(schema, key);
            && (forall j: nat | Chooses(lib, v, members, j) :: r == Coerce(lib, v, members[j]))
            && ((forall j | 0 <= j < |members| :: !Accepts(lib, v, members[j])) ==> r == v)
  {
    PureUnionOnlyChooses(lib, v, schema, key);
    UnionIsByUnion(lib, v, schema, key);
  }

  // ---- A second coercion ----

  /** At every depth that coercion follows, there is no union or nothing but one with a single
      member. */
  predicate Tame(schema: Value) {
    if NoUnion(schema) then
      && (Properties(schema).Some? ==>
            var props := Properties(schema).value;
            assert props == schema.fields["properties"].fields;
            forall k <- props :: Tame(props[k]))
      && (Get(schema, "items").Some? ==> Tame(schema.fields["items"]))
      && (Get(schema, "additionalProperties").Some? ==> Tame(schema.fields["additionalProperties"]))
    else
      var key := UnionKey(schema);
      PureUnion(schema, key) && |Members(schema, key)| == 1 && Tame(Members(schema, key)[0])
  }

  function UnionKey(schema: Value): string {
    if Members(schema, "allOf") != [] then "allOf" else if Members(schema, "anyOf") != [] then "anyOf" else "oneOf"
  }

  lemma {:induction false} UnionFreeIsTame(schema: Value)
    requires UnionFree(schema)
    ensures Tame(schema)
    decreases schema
  {
    if Properties(schema).Some? {
      var props := Properties(schema).value;
      assert props == schema.fields["properties"].fields;
      forall k <- props
        ensures Tame(props[k])
      {
        UnionFreeIsTame(props[k]);
      }
    }
    if Get(schema, "items").Some? {
      UnionFreeIsTame(schema.fields["items"]);
    }
    if Get(schema, "additionalProperties").Some? {
      UnionFreeIsTame(schema.fields["additionalProperties"]);
    }
  }

  /** On a tame schema, in particular on one without unions, a second coercion changes nothing. */
  lemma {:induction false} CoerceIsIdempotent(lib: Library, v: Value, schema: Value)
    requires Tame(schema)
    ensures Coerce(lib, Coerce(lib, v, schema), schema) == Coerce(lib, v, schema)
    decreases schema, 1
  {
    if NoUnion(schema) {
      IdempotentWithoutUnion(lib, v, schema);
    } else {
      var key := UnionKey(schema);
      var member := Members(schema, key)[0];
      var w := Coerce(lib, v, member);
      CoerceIsIdempotent(lib, v, member);
      SingleUnionCoerce(lib, v, schema, key);
      SingleUnionCoerce(lib, w, schema, key);
    }
  }

  lemma SingleUnionCoerce(lib: Library, v: Value, schema: Value, key: string)
    requires PureUnion(schema, key) && |Members(schema, key)| == 1
    ensures var member := Members(schema, key)[0];
            Coerce(lib, v, schema) == if Accepts(lib, v, member) then Coerce(lib, v, member) else v
  {
    PureUnionCoerce(lib, v, schema, key);
    if Accepts(lib, v, Members(schema, key)[0]) {
      assert Chooses(lib, v, Members(schema, key), 0);
    }
  }

  /** A member's coercion is taken, but an earlier member takes another coercion of the result. */
  ghost predicate Unsettles(lib: Library, members: seq<Value>, v: Value, i: nat, j: nat) {
    && i < j && Chooses(lib, v, members, j)
    && var w := Coerce(lib, v, members[j]); Chooses(lib, w, members, i) && Coerce(lib, w, members[i]) != w
  }

  /** On a value, a pure union of tame members is idempotent exactly when that does not happen. */
  lemma PureUnionIdempotentExactlyWhen(lib: Library, v: Value, schema: Value, key: string)
    requires PureUnion(schema, key) && forall i | 0 <= i < |Members(schema, key)| :: Tame(Members(schema, key)[i])
    ensures Coerce(lib, Coerce(lib, v, schema), schema) == Coerce(lib, v, schema)
            <==> forall i: nat, j: nat :: !Unsettles(lib, Members(schema, key), v, i, j)
  {
    var members := Members(schema, key);
    if i: nat, j: nat :| Unsettles(lib, members, v, i, j) {
      PureUnionCoerce(lib, v, schema, key);
      PureUnionCoerce(lib, Coerce(lib, v, schema), schema, key);
    } else {
      PureUnionSettles(lib, v, schema, key);
    }
  }

  lemma PureUnionSettles(lib: Library, v: Value, schema: Value, key: string)
    requires PureUnion(schema, key) && forall i | 0 <= i < |Members(schema, key)| :: Tame(Members(schema, key)[i])
    requires forall i: nat, j: nat :: !Unsettles(lib, Members(schema, key), v, i, j)
    ensures Coerce(lib, Coerce(lib, v, schema), schema) == Coerce(lib, v, schema)
  {
    var members := Members(schema, key);
    PureUnionCoerce(lib, v, schema, key);
    if exists j | 0 <= j < |members| :: Accepts(lib, v, members[j]) {
      var j := FirstAccepting(lib, v, members);
      var w := Coerce(lib, v, members[j]);
      CoerceIsIdempotent(lib, v, members[j]);
      assert Accepts(lib, w, members[j]);
      var i := FirstAccepting(lib, w, members);
      PureUnionCoerce(lib, w, schema, key);
      assert !Unsettles(lib, members, v, i, j);
    }
  }

  lemma FirstAccepting(lib: Library, v: Value, members: seq<Value>) returns (i: nat)
    requires exists j | 0 <= j < |members| :: Accepts(lib, v, members[j])
    ensures Chooses(lib, v, members, i)
    ensures forall j | 0 <= j < |members| && Accepts(lib, v, members[j]) :: i <= j
  {
    i := 0;
    while !Accepts(lib, v, members[i])
      invariant i < |members| && forall j | 0 <= j < i :: !Accepts(lib, v, members[j])
      decreases |members| - i
    {
      i := i + 1;
    }
  }

  lemma {:induction false} IdempotentWithoutUnion(lib: Library, v: Value, schema: Value)
    requires Tame(schema) && NoUnion(schema)
    ensures Coerce(lib, Coerce(lib, v, schema), schema) == Coerce(lib, v, schema)
    decreases schema, 0
  {
    var r := Coerce(lib, v, schema);
    UnionFreeCoerce(lib, v, schema);
    UnionFreeCoerce(lib, r, schema);
    var rr := Coerce(lib, r, schema);
    match v {
      case Obj(fields) =>
        forall k <- fields ensures rr.fields[k] == r.fields[k] {
          if FieldSchema(schema, k).Some? {
            FieldSchemaIsSmaller(schema, k);
            CoerceIsIdempotent(lib, fields[k], FieldSchema(schema, k).value);
          }
        }
      case Arr(items) =>
        if Get(schema, "items").Some? {
          forall i | 0 <= i < |items| ensures rr.items[i] == r.items[i] {
            CoerceIsIdempotent(lib, items[i], schema.fields["items"]);
          }
          assert rr.items == r.items;
        }
      case _ =>
    }
  }

  predicate HasType(v: Value, wanted: string) {
    && (wanted == "integer" || wanted == "number" ==> v.Num?)
    && (wanted == "boolean" ==> v.Bool?)
    && (wanted == "string" ==> v.Str?)
  }

  /** The value has the demanded types already, at every depth. */
  predicate WellTyped(v: Value, schema: Value)
    decreases v
  {
    match v
    case Obj(fields) =>
      forall k <- fields :: FieldSchema(schema, k).Some? ==> WellTyped(fields[k], FieldSchema(schema, k).value)
    case Arr(items) =>
      Get(schema, "items").Some? ==> forall i | 0 <= i < |items| :: WellTyped(items[i], schema.fields["items"])
    case _ => HasType(v, TypeOf(schema))
  }

  /** Without unions, a value of the demanded types is left alone. */
  lemma {:induction false} WellTypedIsUnchanged(lib: Library, v: Value, schema: Value)
    requires UnionFree(schema) && WellTyped(v, schema)
    ensures Coerce(lib, v, schema) == v
    decreases schema
  {
    var r := Coerce(lib, v, schema);
    UnionFreeCoerce(lib, v, schema);
    match v {
      case Obj(fields) =>
        forall k <- fields ensures r.fields[k] == fields[k] {
          if FieldSchema(schema, k).Some? {
            FieldSchemaIsSmaller(schema, k);
            WellTypedIsUnchanged(lib, fields[k], FieldSchema(schema, k).value);
          }
        }
      case Arr(items) =>
        if Get(schema, "items").Some? {
          forall i | 0 <= i < |items| ensures r.items[i] == items[i] {
            WellTypedIsUnchanged(lib, items[i], schema.fields["items"]);
          }
          assert r.items == items;
        }
      case _ =>
    }
  }

  // ---- Unions ----

  function TypeSchema(t: string): Value { Obj(map["type" := Str(t)]) }

  /** Validation treats the two plain type schemas as everyone expects. */
  ghost predicate KnowsTypes(lib: Library) {
    && (forall v :: lib.accepts(TypeSchema("integer"), v) <==> v.Num? && v.n.Int?)
    && (forall v :: lib.accepts(TypeSchema("boolean"), v) <==> v.Bool?)
    && lib.parseInteger("true") == None
  }

  lemma CoerceScalarSchema(lib: Library, v: Value, t: string)
    requires !v.Arr? && !v.Obj?
    ensures Coerce(lib, v, TypeSchema(t)) == Scalar(lib, v, t)
  {
    UnionFreeCoerce(lib, v, TypeSchema(t));
  }

  function AnyOf(a: Value, b: Value): Value { Obj(map["anyOf" := Arr([a, b])]) }

  lemma AnyOfIsPure(a: Value, b: Value)
    ensures PureUnion(AnyOf(a, b), "anyOf") && Members(AnyOf(a, b), "anyOf") == [a, b]
  {
    assert |"type"| == 4 && |"properties"| == 10 && |"anyOf"| == 5;
    assert "items"[0] == 'i' && "oneOf"[0] == 'o' && "anyOf"[0] == 'a' && "anyOf"[1] == 'n' && "allOf"[1] == 'l';
    assert Get(AnyOf(a, b), "type").None?;
    assert |"integer"| == 7 && |"number"| == 6 && |"boolean"| == 7 && |"string"| == 6;
  }

  lemma TrueAsScalar(lib: Library)
    requires KnowsTypes(lib)
    ensures Scalar(lib, Str("true"), "integer") == Str("true")
    ensures Scalar(lib, Str("true"), "boolean") == Bool(true)
    ensures Scalar(lib, Bool(true), "integer") == Num(Int(1))
  {
    assert Lower("true") == "true";
    assert "integer"[0] == 'i' && "boolean"[0] == 'b' && "number"[0] == 'n';
  }

  /** With a union it can change again: "true" first misses the integer member and becomes
      the boolean, which the second time is an integer. */
  lemma UnionNeedNotBeIdempotent(lib: Library)
    requires KnowsTypes(lib)
    ensures var schema := AnyOf(TypeSchema("integer"), TypeSchema("boolean"));
            Coerce(lib, Str("true"), schema) == Bool(true) && Coerce(lib, Bool(true), schema) == Num(Int(1))
  {
    var i, b := TypeSchema("integer"), TypeSchema("boolean");
    TrueAsScalar(lib);
    CoerceScalarSchema(lib, Str("true"), "integer");
    CoerceScalarSchema(lib, Str("true"), "boolean");
    CoerceScalarSchema(lib, Bool(true), "integer");
    AnyOfIsPure(i, b);
    var schema := AnyOf(i, b);
    assert Chooses(lib, Str("true"), Members(schema, "anyOf"), 1);
    assert Chooses(lib, Bool(true), Members(schema, "anyOf"), 0);
    PureUnionCoerce(lib, Str("true"), schema, "anyOf");
    PureUnionCoerce(lib, Bool(true), schema, "anyOf");
  }

  // ---- Each step in plain terms ----

  /** Equal but for the case of ASCII letters, where `lower` has none in upper case. */
  predicate EqualIgnoringCase(s: string, lower: string) {
    |s| == |lower| && forall i | 0 <= i < |s| :: s[i] == lower[i] || ('A' <= s[i] <= 'Z' && s[i] as int + 32 == lower[i] as int)
  }

  /** What each pair of wanted type and kind of value gives; anything else is left alone. */
  lemma ScalarTable(lib: Library, v: Value)
    ensures v.Str? ==>
              && Scalar(lib, v, "integer") == (if lib.parseInteger(v.s).Some? then Num(Int(lib.parseInteger(v.s).value)) else v)
              && Scalar(lib, v, "number") == (if lib.parseNumber(v.s).Some? then Num(lib.parseNumber(v.s).value) else v)
              && Scalar(lib, v, "string") == v
    ensures v.Str? ==> Scalar(lib, v, "boolean") ==
                       if EqualIgnoringCase(v.s, "true") then Bool(true)
                       else if EqualIgnoringCase(v.s, "false") then Bool(false) else v
    ensures v.Num? ==>
              && Scalar(lib, v, "string") == Str(lib.showNumber(v.n))
              && Scalar(lib, v, "boolean") == Bool(v.n != Int(0))
              && Scalar(lib, v, "integer") == Scalar(lib, v, "number") == v
    ensures v.Bool? ==>
              && Scalar(lib, v, "integer") == Scalar(lib, v, "number") == Num(Int(if v.b then 1 else 0))
              && Scalar(lib, v, "boolean") == Scalar(lib, v, "string") == v
    ensures forall wanted: string |
              (!v.Str? && !v.Num? && !v.Bool?) || wanted !in ["integer", "number", "boolean", "string"] :: Scalar(lib, v, wanted) == v
  {
    assert |"integer"| == 7 && |"number"| == 6 && |"boolean"| == 7 && |"string"| == 6;
    assert "integer"[0] == 'i' && "boolean"[0] == 'b' && "number"[0] == 'n' && "string"[0] == 's';
    if v.Str? {
      LowerEquals(v.s, "true");
      LowerEquals(v.s, "false");
    }
  }

  lemma LowerEquals(s: string, lower: string)
    requires forall i | 0 <= i < |lower| :: 'a' <= lower[i] <= 'z'
    ensures Lower(s) == lower <==> EqualIgnoringCase(s, lower)
  {
    if Lower(s) == lower {
      forall i | 0 <= i < |s|
        ensures s[i] == lower[i] || ('A' <= s[i] <= 'Z' && s[i] as int + 32 == lower[i] as int)
      {
        assert Lower(s)[i] == LowerChar(s[i]);
      }
    }
    if EqualIgnoringCase(s, lower) {
      assert forall i | 0 <= i < |s| :: Lower(s)[i] == lower[i];
    }
  }

  /** One value from the next by a union: the coercion of the first member that accepts its own. */
  ghost predicate ByUnion(lib: Library, members: seq<Value>, v: Value, w: Value) {
    && (forall j: nat | Chooses(lib, v, members, j) :: w == Coerce(lib, v, members[j]))
    && ((forall j | 0 <= j < |members| :: !Accepts(lib, v, members[j])) ==> w == v)
  }

  /** One value from the next field by field: those that are concerned by their schema. */
  ghost predicate ByFields(lib: Library, v: Value, w: Value, schemaFor: string -> Option<Value>) {
    if v.Obj? then
      && w.Obj? && w.fields.Keys == v.fields.Keys
      && forall k <- v.fields ::
           w.fields[k] == if schemaFor(k).Some? then Coerce(lib, v.fields[k], schemaFor(k).value) else v.fields[k]
    else w == v
  }

  function NamedSchema(schema: Value): string -> Option<Value> {
    (k: string) => if Properties(schema).Some? && k in Properties(schema).value then Some(Properties(schema).value[k]) else None
  }

  /** The additional schema concerns fields that are not named, where any are named. */
  function OtherSchema(schema: Value): string -> Option<Value> {
    (k: string) =>
      if Properties(schema).Some? && k !in Properties(schema).value then Get(schema, "additionalProperties") else None
  }

  /** Coercion by any schema, step by step: the scalar, the named fields, the items, the three
      unions in their order, and the fields that are not named. */
  lemma CoerceStepByStep(lib: Library, v: Value, schema: Value)
    returns (a: Value, b: Value, c: Value, d: Value, e: Value, f: Value)
    ensures a == Scalar(lib, v, TypeOf(schema))
    ensures ByFields(lib, a, b, NamedSchema(schema))
    ensures if b.Arr? && Get(schema, "items").Some? then
              c.Arr? && |c.items| == |b.items|
              && forall i | 0 <= i < |b.items| :: c.items[i] == Coerce(lib, b.items[i], schema.fields["items"])
            else c == b
    ensures ByUnion(lib, Members(schema, "allOf"), c, d)
    ensures ByUnion(lib, Members(schema, "anyOf"), d, e)
    ensures ByUnion(lib, Members(schema, "oneOf"), e, f)
    ensures ByFields(lib, f, Coerce(lib, v, schema), OtherSchema(schema))
  {
    a := Scalar(lib, v, TypeOf(schema));
    b := CoerceNamed(lib, a, schema);
    c := CoerceItems(lib, b, schema);
    d := CoerceUnion(lib, c, schema, "allOf");
    e := CoerceUnion(lib, d, schema, "anyOf");
    f := CoerceUnion(lib, e, schema, "oneOf");
    NamedIsByFields(lib, a, schema);
    UnionIsByUnion(lib, c, schema, "allOf");
    UnionIsByUnion(lib, d, schema, "anyOf");
    UnionIsByUnion(lib, e, schema, "oneOf");
    OthersIsByFields(lib, f, schema);
  }

  lemma NamedIsByFields(lib: Library, v: Value, schema: Value)
    ensures ByFields(lib, v, CoerceNamed(lib, v, schema), NamedSchema(schema))
  {}

  lemma OthersIsByFields(lib: Library, v: Value, schema: Value)
    ensures ByFields(lib, v, CoerceOthers(lib, v, schema), OtherSchema(schema))
  {}

  lemma UnionIsByUnion(lib: Library, v: Value, schema: Value, key: string)
    ensures ByUnion(lib, Members(schema, key), v, CoerceUnion(lib, v, schema, key))
  {
    var members := Members(schema, key);
    forall j: nat | Chooses(lib, v, members, j)
      ensures CoerceUnion(lib, v, schema, key) == Coerce(lib, v, members[j])
    {
      FirstAcceptedIs(lib, v, schema, key, 0, j);
    }
    if forall j | 0 <= j < |members| :: !Accepts(lib, v, members[j]) {
      NoneAccepted(lib, v, schema, key, 0);
    }
  }
}
