/** What a tool's schema can demand of a call, and what the validator says of one. */
module ToolSchema {
  import opened Text

  datatype Num = Finite(r: real) | PosInf | NegInf | NaN

  /** A decoded JSON value; objects keep their fields in order. */
  datatype Value = Null | Bool(b: bool) | Int(n: int) | Float(x: Num) | Str(s: string)
    | Arr(elems: seq<Value>) | Obj(fields: seq<Field>)

  datatype Field = Field(key: string, value: Value)

  /** The "type" keyword: absent, one name, or a list of names. */
  datatype TypeSpec = AnyType | One(name: string) | Many(names: seq<string>)

  datatype Schema = Schema(types: TypeSpec, enum: Option<seq<Value>>,
                           minimum: Option<real>, maximum: Option<real>,
                           exclusiveMinimum: Option<real>, exclusiveMaximum: Option<real>,
                           minLength: Option<int>, maxLength: Option<int>,
                           minItems: Option<int>, maxItems: Option<int>, items: Option<Schema>,
                           properties: seq<Prop>, required: seq<string>, closed: bool, default: Option<Value>)

  datatype Prop = Prop(key: string, schema: Schema)

  datatype Complaint =
    | MustBe(names: seq<string>) | NotInEnum
    | TooSmall(lo: real) | TooBig(hi: real) | NotAbove(lo: real) | NotBelow(hi: real)
    | TooShort(min: int) | TooLong(max: int) | TooFew(min: int) | TooMany(max: int)
    | IsRequired | UnknownField

  datatype Problem = Problem(field: string, complaint: Complaint)

  // ── values ────────────────────────────────────────────────────────────────

  function Has(fields: seq<Field>, key: string): bool {
    exists i :: 0 <= i < |fields| && fields[i].key == key
  }

  function Get(fields: seq<Field>, key: string): Value {
    if fields == [] then Null else if fields[0].key == key then fields[0].value else Get(fields[1..], key)
  }

  /** out[key] = value: in place when the key is there, else appended. */
  function Put(fields: seq<Field>, key: string, value: Value): seq<Field> {
    if fields == [] then [Field(key, value)]
    else if fields[0].key == key then [Field(key, value)] + fields[1..]
    else [fields[0]] + Put(fields[1..], key, value)
  }

  /** Python's ==: numbers and booleans by value, objects without regard to order. */
  predicate PyEq(a: Value, b: Value)
    decreases a
  {
    match a
    case Null => b.Null?
    case Str(s) => b == Str(s)
    case Arr(xs) => b.Arr? && |xs| == |b.elems| && forall i :: 0 <= i < |xs| ==> PyEq(xs[i], b.elems[i])
    case Obj(fs) => b.Obj? && |fs| == |b.fields|
      && forall i :: 0 <= i < |fs| ==> Has(b.fields, fs[i].key) && PyEq(fs[i].value, Get(b.fields, fs[i].key))
    case _ => NumberOf(b).Some? && NumberOf(a).value == NumberOf(b).value && NumberOf(a).value != NaN
  }

  /** The number a value compares as: booleans count as 0 and 1. */
  function NumberOf(v: Value): (x: Option<Num>)
    ensures v.Bool? || v.Int? || v.Float? ==> x.Some?
  {
    match v
    case Bool(b) => Some(Finite(if b then 1.0 else 0.0))
    case Int(n) => Some(Finite(n as real))
    case Float(x) => Some(x)
    case _ => None
  }

  predicate Below(x: Num, bound: real) {
    x == NegInf || (x.Finite? && x.r < bound)
  }

  predicate Above(x: Num, bound: real) {
    x == PosInf || (x.Finite? && x.r > bound)
  }

  predicate TypeIs(name: string, v: Value) {
    match name
    case "object" => v.Obj?
    case "array" => v.Arr?
    case "string" => v.Str?
    case "boolean" => v.Bool?
    case "integer" => v.Int? || (v.Float? && v.x.Finite? && v.x.r == v.x.r.Floor as real)
    case "number" => v.Int? || (v.Float? && v.x.Finite?)
    case "null" => v.Null?
    case _ => false
  }

  function Allowed(t: TypeSpec): seq<string> {
    match t
    case AnyType => []
    case One(name) => [name]
    case Many(names) => names
  }

  predicate TypeOk(t: TypeSpec, v: Value) {
    t.AnyType? || exists i :: 0 <= i < |Allowed(t)| && TypeIs(Allowed(t)[i], v)
  }

  predicate IsNumber(v: Value) {
    v.Int? || v.Float?
  }

  // ── the meaning of the subset ─────────────────────────────────────────────

  predicate EnumOk(s: Schema, v: Value) {
    s.enum.Some? ==> exists i :: 0 <= i < |s.enum.value| && PyEq(v, s.enum.value[i])
  }

  /** A bound is broken only by a number that compares past it; NaN never does. */
  predicate BoundsOk(s: Schema, x: Num) {
    && (s.minimum.Some? ==> !Below(x, s.minimum.value))
    && (s.maximum.Some? ==> !Above(x, s.maximum.value))
    && (s.exclusiveMinimum.Some? ==> !(Below(x, s.exclusiveMinimum.value) || x == Finite(s.exclusiveMinimum.value)))
    && (s.exclusiveMaximum.Some? ==> !(Above(x, s.exclusiveMaximum.value) || x == Finite(s.exclusiveMaximum.value)))
  }

  predicate LengthOk(lo: Option<int>, hi: Option<int>, n: nat) {
    (lo.Some? ==> lo.value <= n) && (hi.Some? ==> n <= hi.value)
  }

  /** A property that is there and not null. */
  predicate Given(fields: seq<Field>, key: string) {
    Has(fields, key) && Get(fields, key) != Null
  }

  predicate KnownKey(props: seq<Prop>, key: string) {
    exists i :: 0 <= i < |props| && props[i].key == key
  }

  ghost predicate Conforms(s: Schema, v: Value)
    decreases s, 2
  {
    && TypeOk(s.types, v)
    && (v != Null ==> ScalarOk(s, v) && (v.Arr? ==> ElemsOk(s, v.elems)) && (v.Obj? ==> FieldsOk(s, v.fields)))
  }

  predicate ScalarOk(s: Schema, v: Value) {
    && EnumOk(s, v)
    && (IsNumber(v) ==> BoundsOk(s, NumberOf(v).value))
    && (v.Str? ==> LengthOk(s.minLength, s.maxLength, |v.s|))
  }

  ghost predicate ElemsOk(s: Schema, elems: seq<Value>)
    decreases s, 1
  {
    && LengthOk(s.minItems, s.maxItems, |elems|)
    && (s.items.Some? ==> AllConform(s.items.value, elems))
  }

  ghost predicate AllConform(items: Schema, elems: seq<Value>)
    decreases items, 3
  {
    forall i :: 0 <= i < |elems| ==> Conforms(items, elems[i])
  }

  ghost predicate FieldsOk(s: Schema, fields: seq<Field>)
    decreases s, 1
  {
    && (forall i :: 0 <= i < |s.required| ==> Given(fields, s.required[i]))
    && (forall i :: 0 <= i < |s.properties| && Given(fields, s.properties[i].key) ==>
          Conforms(s.properties[i].schema, Get(fields, s.properties[i].key)))
    && (s.closed ==> forall i :: 0 <= i < |fields| ==> KnownKey(s.properties, fields[i].key))
  }

  // ── what validate reports ─────────────────────────────────────────────────

  function Label(path: string): string {
    if path == "" then "(arguments)" else path
  }

  function Join(path: string, key: string): string {
    if path == "" then key else path + "." + key
  }

  function Digits(n: nat): string {
    if n < 10 then [n as char + '0'] else Digits(n / 10) + [(n % 10) as char + '0']
  }

  function Index(path: string, i: nat): string {
    path + "[" + Digits(i) + "]"
  }

  function If(cond: bool, path: string, c: Complaint): seq<Problem> {
    if cond then [Problem(Label(path), c)] else []
  }

  function NumberProblems(s: Schema, x: Num, path: string): seq<Problem> {
    (if s.minimum.Some? then If(Below(x, s.minimum.value), path, TooSmall(s.minimum.value)) else [])
    + (if s.maximum.Some? then If(Above(x, s.maximum.value), path, TooBig(s.maximum.value)) else [])
    + (if s.exclusiveMinimum.Some?
       then If(Below(x, s.exclusiveMinimum.value) || x == Finite(s.exclusiveMinimum.value), path,
               NotAbove(s.exclusiveMinimum.value))
       else [])
    + (if s.exclusiveMaximum.Some?
       then If(Above(x, s.exclusiveMaximum.value) || x == Finite(s.exclusiveMaximum.value), path,
               NotBelow(s.exclusiveMaximum.value))
       else [])
  }

  function StringProblems(s: Schema, n: nat, path: string): seq<Problem> {
    (if s.minLength.Some? then If(n < s.minLength.value, path, TooShort(s.minLength.value)) else [])
    + (if s.maxLength.Some? then If(n > s.maxLength.value, path, TooLong(s.maxLength.value)) else [])
  }

  function CountProblems(s: Schema, n: nat, path: string): seq<Problem> {
    (if s.minItems.Some? then If(n < s.minItems.value, path, TooFew(s.minItems.value)) else [])
    + (if s.maxItems.Some? then If(n > s.maxItems.value, path, TooMany(s.maxItems.value)) else [])
  }

  function RequiredProblems(required: seq<string>, fields: seq<Field>, path: string): seq<Problem> {
    if required == [] then []
    else
      var key := required[|required|-1];
      RequiredProblems(required[..|required|-1], fields, path)
      + (if Given(fields, key) then [] else [Problem(Join(path, key), IsRequired)])
  }

  function UnknownProblems(props: seq<Prop>, fields: seq<Field>, path: string): seq<Problem> {
    if fields == [] then []
    else
      var key := fields[|fields|-1].key;
      UnknownProblems(props, fields[..|fields|-1], path)
      + (if KnownKey(props, key) then [] else [Problem(Join(path, key), UnknownField)])
  }

  function ItemProblems(items: Schema, elems: seq<Value>, path: string): seq<Problem>
    decreases items, 3, |elems|
  {
    if elems == [] then []
    else
      var n := |elems| - 1;
      ItemProblems(items, elems[..n], path) + Problems(items, elems[n], Index(path, n))
  }

  function PropProblems(s: Schema, fields: seq<Field>, path: string, n: nat): seq<Problem>
    requires n <= |s.properties|
    decreases s, 0, n
  {
    if n == 0 then []
    else
      var p := s.properties[n-1];
      PropProblems(s, fields, path, n - 1)
      + (if Given(fields, p.key) then Problems(p.schema, Get(fields, p.key), Join(path, p.key)) else [])
  }

  function ScalarProblems(s: Schema, v: Value, path: string): seq<Problem> {
    If(!EnumOk(s, v), path, NotInEnum)
    + (if IsNumber(v) then NumberProblems(s, NumberOf(v).value, path) else [])
    + (if v.Str? then StringProblems(s, |v.s|, path) else [])
  }

  function ArrayProblems(s: Schema, elems: seq<Value>, path: string): seq<Problem>
    decreases s, 1, 0
  {
    CountProblems(s, |elems|, path) + (if s.items.Some? then ItemProblems(s.items.value, elems, path) else [])
  }

  function ObjectProblems(s: Schema, fields: seq<Field>, path: string): seq<Problem>
    decreases s, 1, |s.properties| + 1
  {
    RequiredProblems(s.required, fields, path) + PropProblems(s, fields, path, |s.properties|)
    + (if s.closed then UnknownProblems(s.properties, fields, path) else [])
  }

  function Problems(s: Schema, v: Value, path: string): seq<Problem>
    decreases s, 2, 0
  {
    if !TypeOk(s.types, v) then [Problem(Label(path), MustBe(Allowed(s.types)))]
    else if v == Null then []
    else
      ScalarProblems(s, v, path)
      + (if v.Arr? then ArrayProblems(s, v.elems, path) else if v.Obj? then ObjectProblems(s, v.fields, path) else [])
  }

  // ── the loops ─────────────────────────────────────────────────────────────

  method ValidateScalar(s: Schema, v: Value, path: string) returns (problems: seq<Problem>)
    ensures problems == ScalarProblems(s, v, path)
  {
    problems := [];
    if !EnumOk(s, v) {
      problems := problems + [Problem(Label(path), NotInEnum)];
    }
    if IsNumber(v) {
      problems := problems + NumberProblems(s, NumberOf(v).value, path);
    }
    if v.Str? {
      problems := problems + StringProblems(s, |v.s|, path);
    }
  }

  method Validate(s: Schema, v: Value, path: string) returns (problems: seq<Problem>)
    ensures problems == Problems(s, v, path)
    decreases s
  {
    if !TypeOk(s.types, v) {
      return [Problem(Label(path), MustBe(Allowed(s.types)))];
    }
    if v == Null {
      return [];
    }
    problems := ValidateScalar(s, v, path);
    if v.Arr? {
      var more := ValidateItems(s, v, path);
      problems := problems + more;
    } else if v.Obj? {
      var more := ValidateObject(s, v, path);
      problems := problems + more;
    }
  }

  method ValidateItems(s: Schema, v: Value, path: string) returns (problems: seq<Problem>)
    requires v.Arr?
    ensures problems == ArrayProblems(s, v.elems, path)
    decreases s, 0
  {
    problems := CountProblems(s, |v.elems|, path);
    if s.items.Some? {
      var found: seq<Problem> := [];
      for i := 0 to |v.elems|
        invariant found == ItemProblems(s.items.value, v.elems[..i], path)
      {
        assert v.elems[..i+1][..i] == v.elems[..i];
        var more := Validate(s.items.value, v.elems[i], Index(path, i));
        found := found + more;
      }
      assert v.elems[..|v.elems|] == v.elems;
      problems := problems + found;
    }
  }

  method ValidateObject(s: Schema, v: Value, path: string) returns (problems: seq<Problem>)
    requires v.Obj?
    ensures problems == ObjectProblems(s, v.fields, path)
    decreases s, 0
  {
    problems := [];
    for i := 0 to |s.required|
      invariant problems == RequiredProblems(s.required[..i], v.fields, path)
    {
      assert s.required[..i+1][..i] == s.required[..i];
      if !Given(v.fields, s.required[i]) {
        problems := problems + [Problem(Join(path, s.required[i]), IsRequired)];
      }
    }
    assert s.required[..|s.required|] == s.required;
    var found: seq<Problem> := [];
    for i := 0 to |s.properties|
      invariant found == PropProblems(s, v.fields, path, i)
    {
      var p := s.properties[i];
      if Given(v.fields, p.key) {
        var more := Validate(p.schema, Get(v.fields, p.key), Join(path, p.key));
        found := found + more;
      }
    }
    problems := problems + found;
    if s.closed {
      var unknown: seq<Problem> := [];
      for i := 0 to |v.fields|
        invariant unknown == UnknownProblems(s.properties, v.fields[..i], path)
      {
        assert v.fields[..i+1][..i] == v.fields[..i];
        if !KnownKey(s.properties, v.fields[i].key) {
          unknown := unknown + [Problem(Join(path, v.fields[i].key), UnknownField)];
        }
      }
      assert v.fields[..|v.fields|] == v.fields;
      problems := problems + unknown;
    }
  }

  // ── no problems exactly when the value conforms ───────────────────────────

  lemma {:induction false} RequiredMeaning(required: seq<string>, fields: seq<Field>, path: string)
    ensures RequiredProblems(required, fields, path) == []
            <==> forall i :: 0 <= i < |required| ==> Given(fields, required[i])
  {
    if required != [] {
      RequiredMeaning(required[..|required|-1], fields, path);
    }
  }

  lemma {:induction false} UnknownMeaning(props: seq<Prop>, fields: seq<Field>, path: string)
    ensures UnknownProblems(props, fields, path) == []
            <==> forall i :: 0 <= i < |fields| ==> KnownKey(props, fields[i].key)
  {
    if fields != [] {
      UnknownMeaning(props, fields[..|fields|-1], path);
    }
  }

  lemma {:induction false} ItemsMeaning(items: Schema, elems: seq<Value>, path: string)
    ensures ItemProblems(items, elems, path) == [] <==> AllConform(items, elems)
    decreases items, 3, |elems|
  {
    if elems != [] {
      var n := |elems| - 1;
      ItemsMeaning(items, elems[..n], path);
      ValidExactly(items, elems[n], Index(path, n));
      OneMoreElem(items, elems[..n], elems[n]);
      assert elems == elems[..n] + [elems[n]];
    }
  }

  lemma OneMoreElem(items: Schema, front: seq<Value>, last: Value)
    ensures AllConform(items, front + [last]) <==> AllConform(items, front) && Conforms(items, last)
  {
    var elems := front + [last];
    if AllConform(items, elems) {
      assert Conforms(items, elems[|front|]);
      forall i | 0 <= i < |front| ensures Conforms(items, front[i]) {
        assert Conforms(items, elems[i]);
      }
    }
  }

  lemma {:induction false} PropsMeaning(s: Schema, fields: seq<Field>, path: string, n: nat)
    requires n <= |s.properties|
    ensures PropProblems(s, fields, path, n) == []
            <==> forall i :: 0 <= i < n && Given(fields, s.properties[i].key) ==>
                   Conforms(s.properties[i].schema, Get(fields, s.properties[i].key))
    decreases s, 1, n
  {
    if n > 0 {
      PropsMeaning(s, fields, path, n - 1);
      var p := s.properties[n-1];
      ValidExactly(p.schema, Get(fields, p.key), Join(path, p.key));
    }
  }

  lemma ScalarMeaning(s: Schema, v: Value, path: string)
    ensures ScalarProblems(s, v, path) == [] <==> ScalarOk(s, v)
  {
  }

  lemma {:induction false} ElemsMeaning(s: Schema, elems: seq<Value>, path: string)
    ensures ArrayProblems(s, elems, path) == [] <==> ElemsOk(s, elems)
    decreases s, 1, |s.properties| + 1
  {
    if s.items.Some? {
      ItemsMeaning(s.items.value, elems, path);
    }
  }

  lemma {:induction false} FieldsMeaning(s: Schema, fields: seq<Field>, path: string)
    ensures ObjectProblems(s, fields, path) == [] <==> FieldsOk(s, fields)
    decreases s, 1, |s.properties| + 1
  {
    RequiredMeaning(s.required, fields, path);
    PropsMeaning(s, fields, path, |s.properties|);
    UnknownMeaning(s.properties, fields, path);
  }

  /** An empty problem list means exactly that the value conforms. */
  lemma {:induction false} ValidExactly(s: Schema, v: Value, path: string)
    ensures Problems(s, v, path) == [] <==> Conforms(s, v)
    decreases s, 2, 0
  {
    ScalarMeaning(s, v, path);
    if v.Arr? {
      ElemsMeaning(s, v.elems, path);
    } else if v.Obj? {
      FieldsMeaning(s, v.fields, path);
    }
  }
}
