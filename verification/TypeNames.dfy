/** The two independently written mappers from a JSON schema to a type string. */
module TypeNames {
  import opened Wrappers

  /** The value of `type`: missing or null, one name, or a list of names. */
  datatype TypeValue = NoType | One(name: string) | Several(names: seq<string>)

  /** A schema: a bare type name, an object with a type, items and alternatives, or anything else
      (null, true, a list), which neither mapper can read. An absent and an empty `anyOf` are the
      same to both mappers. */
  datatype Schema =
    | Name(name: string)
    | Object(ty: TypeValue, items: Option<Schema>, anyOf: seq<Schema>)
    | Other

  /** The primitive types as the registry client tests for them. */
  function Primitive(ty: TypeValue): Option<string> {
    if ty == One("string") then Some("str")
    else if ty == One("integer") then Some("int")
    else if ty == One("boolean") then Some("bool")
    else if ty == One("number") then Some("float")
    else None
  }

  /** The table of the live client. */
  const JSON_TO_STR: map<string, string> :=
    map["string" := "str", "integer" := "int", "number" := "float", "boolean" := "bool"]

  predicate IsNull(s: Schema) {
    s.Object? && s.ty == One("null")
  }

  /** Position of the first alternative that is not null. */
  function FirstNonNull(anyOf: seq<Schema>): (i: Option<nat>)
    ensures i.Some? ==> i.value < |anyOf| && !IsNull(anyOf[i.value])
    ensures i.Some? ==> forall j :: 0 <= j < i.value ==> IsNull(anyOf[j])
    ensures i.None? ==> forall j :: 0 <= j < |anyOf| ==> IsNull(anyOf[j])
  {
    if anyOf == [] then None
    else if !IsNull(anyOf[0]) then Some(0)
    else
      var rest := FirstNonNull(anyOf[1..]);
      if rest.Some? then Some(rest.value + 1) else None
  }

  predicate AllObjects(anyOf: seq<Schema>) {
    forall i :: 0 <= i < |anyOf| ==> anyOf[i].Object?
  }

  predicate Nullable(anyOf: seq<Schema>) {
    exists i :: 0 <= i < |anyOf| && IsNull(anyOf[i])
  }

  function ListOf(inner: Option<string>): Option<string> {
    if inner.Some? then Some("list[" + inner.value + "]") else None
  }

  function OrNone(base: Option<string>, nullable: bool): Option<string> {
    if base.Some? && nullable then Some(base.value + " | None") else base
  }

  /** The registry client's mapper: primitives first. None is an exception: both mappers ask every
      alternative for its type, which only an object has. */
  function JsonSchemaType(s: Schema): Option<string> {
    match s
    case Name(n) => Some(n)
    case Other => None
    case Object(ty, items, anyOf) =>
      if Primitive(ty).Some? then Primitive(ty)
      else if ty == One("array") then
        ListOf(if items.Some? then JsonSchemaType(items.value) else Some("any"))
      else if anyOf != [] then
        (if !AllObjects(anyOf) then None
         else
           var i := FirstNonNull(anyOf);
           OrNone(if i.Some? then JsonSchemaType(anyOf[i.value]) else Some("any"), Nullable(anyOf)))
      else Some("any")
  }

  /** The live client's mapper: alternatives before primitives, no bare names, and a list of types
      cannot be looked up in the table. */
  function MapType(s: Schema): Option<string> {
    match s
    case Name(_) => None
    case Other => None
    case Object(ty, items, anyOf) =>
      if ty.NoType? && anyOf == [] then Some("any")
      else if ty == One("array") then
        ListOf(if items.Some? then MapType(items.value) else Some("any"))
      else if anyOf != [] then
        (if !AllObjects(anyOf) then None
         else
           var i := FirstNonNull(anyOf);
           OrNone(if i.Some? then MapType(anyOf[i.value]) else Some("any"), Nullable(anyOf)))
      else if ty.Several? then None
      else if ty.One? && ty.name in JSON_TO_STR then Some(JSON_TO_STR[ty.name])
      else Some("any")
  }

  /** By its shape alone, the live client's mapper gives s the primitive name p. */
  predicate Yields(s: Schema, p: string) {
    match s
    case Name(_) => false
    case Other => false
    case Object(ty, items, anyOf) =>
      if ty == One("array") then false
      else if anyOf != [] then
        var i := FirstNonNull(anyOf);
        AllObjects(anyOf) && !Nullable(anyOf) && i.Some? && Yields(anyOf[i.value], p)
      else Primitive(ty) == Some(p)
  }

  /** The deciding nodes of s are not bare names; where one has both a primitive type and
      alternatives, the alternatives amount to that primitive type; and where one has a list of
      types, it has alternatives too. */
  predicate Unambiguous(s: Schema) {
    match s
    case Name(_) => false
    case Other => true
    case Object(ty, items, anyOf) =>
      if Primitive(ty).Some? then anyOf == [] || Yields(s, Primitive(ty).value)
      else if ty == One("array") then items.None? || Unambiguous(items.value)
      else if anyOf == [] then !ty.Several?
      else if !AllObjects(anyOf) || FirstNonNull(anyOf).None? then true
      else Unambiguous(anyOf[FirstNonNull(anyOf).value])
  }

  predicate IsPrimitiveName(p: string) {
    p == "str" || p == "int" || p == "bool" || p == "float"
  }

  lemma SameTable(ty: TypeValue)
    ensures Primitive(ty) == if ty.One? && ty.name in JSON_TO_STR then Some(JSON_TO_STR[ty.name]) else None
  {
  }

  lemma {:induction false} YieldsMeans(s: Schema, p: string)
    requires IsPrimitiveName(p)
    ensures MapType(s) == Some(p) <==> Yields(s, p)
  {
    match s
    case Name(_) | Other =>
    case Object(ty, items, anyOf) =>
      SameTable(ty);
      if ty == One("array") {
        var inner := if items.Some? then MapType(items.value) else Some("any");
        if inner.Some? {
          assert ("list[" + inner.value + "]")[0] == 'l';
        }
      } else if anyOf != [] && AllObjects(anyOf) {
        var i := FirstNonNull(anyOf);
        if i.Some? {
          YieldsMeans(anyOf[i.value], p);
        }
        if Nullable(anyOf) {
          var base := if i.Some? then MapType(anyOf[i.value]) else Some("any");
          if base.Some? {
            assert |base.value + " | None"| >= 7;
          }
        }
      }
  }

  lemma WrappersInjective(a: Option<string>, b: Option<string>, nullable: bool)
    ensures ListOf(a) == ListOf(b) <==> a == b
    ensures OrNone(a, nullable) == OrNone(b, nullable) <==> a == b
  {
    if a.Some? && b.Some? {
      assert ("list[" + a.value + "]")[5..5 + |a.value|] == a.value;
      assert ("list[" + b.value + "]")[5..5 + |b.value|] == b.value;
      assert (a.value + " | None")[..|a.value|] == a.value;
      assert (b.value + " | None")[..|b.value|] == b.value;
      assert |"list[" + a.value + "]"| == |a.value| + 6 && |"list[" + b.value + "]"| == |b.value| + 6;
      assert |a.value + " | None"| == |a.value| + 7 && |b.value + " | None"| == |b.value| + 7;
    }
  }

  /** The two mappers agree on a schema exactly when it is unambiguous. */
  lemma {:induction false} MappersAgree(s: Schema)
    ensures JsonSchemaType(s) == MapType(s) <==> Unambiguous(s)
  {
    match s
    case Name(_) | Other =>
    case Object(ty, items, anyOf) =>
      SameTable(ty);
      if Primitive(ty).Some? {
        YieldsMeans(s, Primitive(ty).value);
      } else if ty == One("array") {
        if items.Some? {
          MappersAgree(items.value);
          WrappersInjective(JsonSchemaType(items.value), MapType(items.value), false);
        }
      } else if anyOf != [] && AllObjects(anyOf) && FirstNonNull(anyOf).Some? {
        var first := anyOf[FirstNonNull(anyOf).value];
        MappersAgree(first);
        WrappersInjective(JsonSchemaType(first), MapType(first), Nullable(anyOf));
      }
  }

  const NULL: Schema := Object(One("null"), None, [])

  function Nulls(n: nat): seq<Schema> {
    seq(n, i => NULL)
  }

  lemma NullsOnly(n: nat, t: Schema, rest: seq<Schema>)
    requires t.Object? && t.ty != One("null") && forall i :: 0 <= i < |rest| ==> rest[i].Object?
    ensures var anyOf := Nulls(n) + [t] + rest;
            && AllObjects(anyOf) && FirstNonNull(anyOf) == Some(n)
            && (Nullable(anyOf) <==> n > 0 || exists i :: 0 <= i < |rest| && rest[i].ty == One("null"))
  {
    var anyOf := Nulls(n) + [t] + rest;
    assert anyOf[n] == t;
    forall i | 0 <= i < |anyOf| ensures anyOf[i].Object? {
      assert anyOf[i] == if i < n then NULL else if i == n then t else rest[i - n - 1];
    }
    forall i | 0 <= i < n ensures anyOf[i] == NULL {
    }
    forall i | 0 <= i < |rest| ensures anyOf[n + 1 + i] == rest[i] {
    }
    if n > 0 {
      assert IsNull(anyOf[0]);
    }
    if i :| 0 <= i < |rest| && rest[i].ty == One("null") {
      assert IsNull(anyOf[n + 1 + i]);
    }
  }

  /** The type strings of the primitive types, and of no type at all. */
  lemma PrimitiveStrings(ty: TypeValue)
    ensures var s := Object(ty, None, []);
            && (ty == One("string") ==> JsonSchemaType(s) == MapType(s) == Some("str"))
            && (ty == One("integer") ==> JsonSchemaType(s) == MapType(s) == Some("int"))
            && (ty == One("number") ==> JsonSchemaType(s) == MapType(s) == Some("float"))
            && (ty == One("boolean") ==> JsonSchemaType(s) == MapType(s) == Some("bool"))
            && (ty == NoType ==> JsonSchemaType(s) == MapType(s) == Some("any"))
  {
    if ty.One? {
      assert "string"[0] == 's' && "integer"[0] == 'i' && "number"[0] == 'n';
      assert "boolean"[0] == 'b' && "array"[0] == 'a';
    }
  }

  /** A list is named after its items. */
  lemma ListStrings(items: Schema)
    ensures var s := Object(One("array"), Some(items), []);
            && JsonSchemaType(s) == ListOf(JsonSchemaType(items)) && MapType(s) == ListOf(MapType(items))
    ensures forall t :: ListOf(Some(t)) == Some("list[" + t + "]")
    ensures var s := Object(One("array"), None, []);
            JsonSchemaType(s) == MapType(s) == Some("list[any]")
  {
    ListOfAny();
  }

  /** Of alternatives, the first one that is not null counts, and any null makes it optional. */
  lemma AlternativeStrings(n: nat, t: Schema, rest: seq<Schema>)
    requires t.Object? && t.ty != One("null") && forall i :: 0 <= i < |rest| ==> rest[i].Object?
    ensures var s := Object(NoType, None, Nulls(n) + [t] + rest);
            if n > 0 || exists i :: 0 <= i < |rest| && rest[i].ty == One("null") then
              && JsonSchemaType(s) == Optional(JsonSchemaType(t)) && MapType(s) == Optional(MapType(t))
            else JsonSchemaType(s) == JsonSchemaType(t) && MapType(s) == MapType(t)
  {
    hide AllObjects, FirstNonNull, Nullable;
    NullsOnly(n, t, rest);
    var anyOf := Nulls(n) + [t] + rest;
    assert anyOf[n] == t;
  }

  /** With nothing but nulls, anything is possible and nothing needed. */
  lemma {:induction false} NullStrings(n: nat)
    requires n > 0
    ensures var s := Object(NoType, None, Nulls(n));
            JsonSchemaType(s) == MapType(s) == Some("any | None")
  {
    var anyOf := Nulls(n);
    assert IsNull(anyOf[0]);
    assert FirstNonNull(anyOf).None? by {
      assert forall i :: 0 <= i < n ==> IsNull(anyOf[i]);
    }
    assert "any" + " | None" == "any | None";
  }

  /** One alternative that is not an object, wherever it stands, makes both mappers raise. */
  lemma BadAlternative(anyOf: seq<Schema>, i: nat)
    requires i < |anyOf| && !anyOf[i].Object?
    ensures JsonSchemaType(Object(NoType, None, anyOf)).None? && MapType(Object(NoType, None, anyOf)).None?
  {
    assert !AllObjects(anyOf);
  }

  function Optional(t: Option<string>): Option<string> {
    match t
    case None => None
    case Some(name) => Some(name + " | None")
  }

  lemma ListOfAny()
    ensures ListOf(Some("any")) == Some("list[any]")
  {
    assert "list[" + "any" + "]" == "list[any]";
  }

  /** A nullable type written as a list of types, as in "string or null", is a plain `any` to the
      one mapper and raises in the other, whatever else the node says about its items. */
  lemma SeveralTypes(names: seq<string>, items: Option<Schema>)
    ensures JsonSchemaType(Object(Several(names), items, [])) == Some("any")
    ensures MapType(Object(Several(names), items, [])).None?
  {
  }

  /** No node is a bare name, or carries both a primitive type and alternatives, or a list of types
      without alternatives. */
  predicate Plain(s: Schema) {
    match s
    case Name(_) => false
    case Other => true
    case Object(ty, items, anyOf) =>
      && (Primitive(ty).None? || anyOf == [])
      && (ty.Several? ==> anyOf != [])
      && (items.Some? ==> Plain(items.value))
      && (forall i :: 0 <= i < |anyOf| ==> Plain(anyOf[i]))
  }

  lemma {:induction false} PlainIsUnambiguous(s: Schema)
    requires Plain(s)
    ensures Unambiguous(s)
  {
    match s
    case Other =>
    case Object(ty, items, anyOf) =>
      if Primitive(ty).None? {
        if ty == One("array") {
          if items.Some? {
            PlainIsUnambiguous(items.value);
          }
        } else if anyOf != [] && FirstNonNull(anyOf).Some? {
          PlainIsUnambiguous(anyOf[FirstNonNull(anyOf).value]);
        }
      }
  }
}
