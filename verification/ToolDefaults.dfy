/** Filling absent tool arguments with the schema's defaults. */
module ToolDefaults {
  import opened Text
  import opened ToolSchema

  /** The value under a key, if there is one. */
  function Lookup(fields: seq<Field>, key: string): Option<Value> {
    if Has(fields, key) then Some(Get(fields, key)) else None
  }

  /** Nested filling happens only where the schema's type is exactly "object". */
  predicate Nested(p: Prop, v: Value) {
    v.Obj? && p.schema.types == One("object")
  }

  function Step(p: Prop, fields: seq<Field>): seq<Field>
    decreases p.schema, 2, 0
  {
    if !Has(fields, p.key) && p.schema.default.Some? then Put(fields, p.key, p.schema.default.value)
    else if Has(fields, p.key) && Nested(p, Get(fields, p.key))
    then Put(fields, p.key, Apply(p.schema, Get(fields, p.key)))
    else fields
  }

  function Fill(s: Schema, fields: seq<Field>, n: nat): seq<Field>
    requires n <= |s.properties|
    decreases s, 0, n
  {
    if n == 0 then fields else Step(s.properties[n-1], Fill(s, fields, n - 1))
  }

  function Apply(s: Schema, v: Value): Value
    decreases s, 1, 0
  {
    if v.Obj? then Obj(Fill(s, v.fields, |s.properties|)) else v
  }

  method ApplyDefaults(s: Schema, v: Value) returns (out: Value)
    ensures out == Apply(s, v)
    decreases s
  {
    if !v.Obj? {
      return v;
    }
    var fields := v.fields;
    for i := 0 to |s.properties|
      invariant fields == Fill(s, v.fields, i)
    {
      var p := s.properties[i];
      if !Has(fields, p.key) && p.schema.default.Some? {
        fields := Put(fields, p.key, p.schema.default.value);
      } else if Has(fields, p.key) && Nested(p, Get(fields, p.key)) {
        var inner := ApplyDefaults(p.schema, Get(fields, p.key));
        fields := Put(fields, p.key, inner);
      }
    }
    out := Obj(fields);
  }

  // ── what the schema must be ───────────────────────────────────────────────

  /** The properties of an object schema are a dictionary. */
  predicate DistinctKeys(s: Schema) {
    forall i, j :: 0 <= i < j < |s.properties| ==> s.properties[i].key != s.properties[j].key
  }

  /** A dictionary of properties at every level that filling can reach. */
  predicate WellFormed(s: Schema)
    decreases s
  {
    && DistinctKeys(s)
    && forall i :: 0 <= i < |s.properties| && s.properties[i].schema.types == One("object") ==>
         WellFormed(s.properties[i].schema)
  }

  /** No enum on an object that gets filled, and defaults of the property's own kind. */
  ghost predicate SoundDefaults(s: Schema)
    decreases s
  {
    && s.enum.None?
    && (forall i :: 0 <= i < |s.properties| && s.properties[i].schema.default.Some?
                    && s.properties[i].schema.default.value != Null ==>
          Conforms(s.properties[i].schema, s.properties[i].schema.default.value))
    && (forall i :: 0 <= i < |s.properties| && s.properties[i].schema.types == One("object") ==>
          SoundDefaults(s.properties[i].schema))
  }

  /** An object default has nothing left to fill. */
  predicate Complete(s: Schema)
    decreases s
  {
    && (forall i :: 0 <= i < |s.properties| && s.properties[i].schema.default.Some?
                    && Nested(s.properties[i], s.properties[i].schema.default.value) ==>
          Apply(s.properties[i].schema, s.properties[i].schema.default.value) == s.properties[i].schema.default.value)
    && (forall i :: 0 <= i < |s.properties| && s.properties[i].schema.types == One("object") ==>
          Complete(s.properties[i].schema))
  }

  // ── one key at a time ─────────────────────────────────────────────────────

  lemma {:induction false} PutLookup(fields: seq<Field>, key: string, value: Value, k: string)
    ensures Lookup(Put(fields, key, value), k) == if k == key then Some(value) else Lookup(fields, k)
  {
    if fields != [] {
      LookupStep(fields, k);
      if fields[0].key == key {
        LookupStep([Field(key, value)] + fields[1..], k);
      } else {
        PutLookup(fields[1..], key, value, k);
        LookupStep([fields[0]] + Put(fields[1..], key, value), k);
      }
    } else {
      LookupStep([Field(key, value)], k);
    }
  }

  lemma LookupStep(fields: seq<Field>, k: string)
    requires fields != []
    ensures Lookup(fields, k) == if fields[0].key == k then Some(fields[0].value) else Lookup(fields[1..], k)
  {
    if Has(fields[1..], k) {
      var i :| 0 <= i < |fields[1..]| && fields[1..][i].key == k;
      assert fields[i+1].key == k;
    }
    if Has(fields, k) && fields[0].key != k {
      var i :| 0 <= i < |fields| && fields[i].key == k;
      assert fields[1..][i-1].key == k;
    }
  }

  lemma {:induction false} PutSame(fields: seq<Field>, key: string)
    requires Has(fields, key)
    ensures Put(fields, key, Get(fields, key)) == fields
  {
    LookupStep(fields, key);
    if fields[0].key != key {
      PutSame(fields[1..], key);
    }
  }

  /** What filling leaves under a declared property. */
  function Filled(p: Prop, fields: seq<Field>): Option<Value> {
    if !Has(fields, p.key) then p.schema.default
    else if Nested(p, Get(fields, p.key)) then Some(Apply(p.schema, Get(fields, p.key)))
    else Some(Get(fields, p.key))
  }

  lemma StepLookup(p: Prop, fields: seq<Field>, k: string)
    ensures Lookup(Step(p, fields), k) == if k == p.key then Filled(p, fields) else Lookup(fields, k)
  {
    if !Has(fields, p.key) && p.schema.default.Some? {
      PutLookup(fields, p.key, p.schema.default.value, k);
    } else if Has(fields, p.key) && Nested(p, Get(fields, p.key)) {
      PutLookup(fields, p.key, Apply(p.schema, Get(fields, p.key)), k);
    }
  }

  /** A key outside the properties keeps its value. */
  lemma {:induction false} FillOther(s: Schema, fields: seq<Field>, n: nat, k: string)
    requires n <= |s.properties|
    requires forall i :: 0 <= i < n ==> s.properties[i].key != k
    ensures Lookup(Fill(s, fields, n), k) == Lookup(fields, k)
  {
    if n > 0 {
      FillOther(s, fields, n - 1, k);
      StepLookup(s.properties[n-1], Fill(s, fields, n - 1), k);
    }
  }

  lemma {:induction false} FillAt(s: Schema, fields: seq<Field>, n: nat, i: nat)
    requires i < n <= |s.properties| && DistinctKeys(s)
    ensures Lookup(Fill(s, fields, n), s.properties[i].key) == Filled(s.properties[i], fields)
  {
    var p := s.properties[i];
    StepLookup(s.properties[n-1], Fill(s, fields, n - 1), p.key);
    if i == n - 1 {
      FillOther(s, fields, i, p.key);
    } else {
      FillAt(s, fields, n - 1, i);
    }
  }

  /** Filling changes exactly this: each property absent takes its default, each nested object is filled, nothing else
      moves. */
  lemma FillsExactly(s: Schema, fields: seq<Field>, k: string)
    requires DistinctKeys(s)
    ensures forall i :: 0 <= i < |s.properties| && s.properties[i].key == k ==>
              Lookup(Fill(s, fields, |s.properties|), k) == Filled(s.properties[i], fields)
    ensures !KnownKey(s.properties, k) ==> Lookup(Fill(s, fields, |s.properties|), k) == Lookup(fields, k)
  {
    if KnownKey(s.properties, k) {
      var i :| 0 <= i < |s.properties| && s.properties[i].key == k;
      FillAt(s, fields, |s.properties|, i);
    } else {
      FillOther(s, fields, |s.properties|, k);
    }
  }

  lemma HasAt(fields: seq<Field>, i: nat)
    requires i < |fields|
    ensures Has(fields, fields[i].key)
  {
  }

  // ── filling keeps a valid value valid ─────────────────────────────────────

  lemma {:induction false} DefaultsKeepValid(s: Schema, v: Value)
    requires WellFormed(s) && SoundDefaults(s) && Conforms(s, v)
    ensures Conforms(s, Apply(s, v))
    decreases s
  {
    if v.Obj? {
      var out := Fill(s, v.fields, |s.properties|);
      assert TypeOk(s.types, Obj(out)) by { TypeIgnoresFields(s.types, v.fields, out); }
      forall i | 0 <= i < |s.required| ensures Given(out, s.required[i]) {
        GivenStays(s, v.fields, s.required[i]);
      }
      forall i | 0 <= i < |s.properties| && Given(out, s.properties[i].key)
        ensures Conforms(s.properties[i].schema, Get(out, s.properties[i].key))
      {
        PropertyStaysValid(s, v.fields, i);
      }
      if s.closed {
        forall i | 0 <= i < |out| ensures KnownKey(s.properties, out[i].key) {
          HasAt(out, i);
          FillsExactly(s, v.fields, out[i].key);
        }
      }
    }
  }

  lemma TypeIgnoresFields(t: TypeSpec, a: seq<Field>, b: seq<Field>)
    requires TypeOk(t, Obj(a))
    ensures TypeOk(t, Obj(b))
  {
    if !t.AnyType? {
      var i :| 0 <= i < |Allowed(t)| && TypeIs(Allowed(t)[i], Obj(a));
      assert TypeIs(Allowed(t)[i], Obj(b));
    }
  }

  lemma GivenStays(s: Schema, fields: seq<Field>, k: string)
    requires DistinctKeys(s) && Given(fields, k)
    ensures Given(Fill(s, fields, |s.properties|), k)
  {
    FillsExactly(s, fields, k);
    assert Lookup(fields, k) == Some(Get(fields, k));
  }

  lemma {:induction false} PropertyStaysValid(s: Schema, fields: seq<Field>, i: nat)
    requires i < |s.properties| && WellFormed(s) && SoundDefaults(s)
    requires Given(fields, s.properties[i].key) ==> Conforms(s.properties[i].schema, Get(fields, s.properties[i].key))
    requires Given(Fill(s, fields, |s.properties|), s.properties[i].key)
    ensures Conforms(s.properties[i].schema, Get(Fill(s, fields, |s.properties|), s.properties[i].key))
    decreases s, 0
  {
    var p := s.properties[i];
    FillAt(s, fields, |s.properties|, i);
    if Has(fields, p.key) && Nested(p, Get(fields, p.key)) {
      DefaultsKeepValid(p.schema, Get(fields, p.key));
    }
  }

  // ── filling twice ─────────────────────────────────────────────────────────

  /** The property needs no filling in these fields. */
  predicate Settled(p: Prop, fields: seq<Field>) {
    if Has(fields, p.key)
    then Nested(p, Get(fields, p.key)) ==> Apply(p.schema, Get(fields, p.key)) == Get(fields, p.key)
    else p.schema.default.None?
  }

  lemma {:induction false} SettledFill(s: Schema, fields: seq<Field>, n: nat)
    requires n <= |s.properties|
    requires forall i :: 0 <= i < n ==> Settled(s.properties[i], fields)
    ensures Fill(s, fields, n) == fields
  {
    if n > 0 {
      SettledFill(s, fields, n - 1);
      var p := s.properties[n-1];
      if Has(fields, p.key) {
        PutSame(fields, p.key);
      }
    }
  }

  lemma {:induction false} CompleteIsIdempotent(s: Schema, v: Value)
    requires WellFormed(s) && Complete(s)
    ensures Apply(s, Apply(s, v)) == Apply(s, v)
    decreases s
  {
    if v.Obj? {
      var out := Fill(s, v.fields, |s.properties|);
      forall i | 0 <= i < |s.properties| ensures Settled(s.properties[i], out) {
        var p := s.properties[i];
        FillAt(s, v.fields, |s.properties|, i);
        if Has(v.fields, p.key) && Nested(p, Get(v.fields, p.key)) {
          CompleteIsIdempotent(p.schema, Get(v.fields, p.key));
        }
      }
      SettledFill(s, out, |s.properties|);
    }
  }

  /** Filling a settled value from a second pass shows each property settled. */
  lemma FixedIsSettled(s: Schema, fields: seq<Field>, i: nat)
    requires i < |s.properties| && DistinctKeys(s)
    requires Fill(s, fields, |s.properties|) == fields
    ensures Settled(s.properties[i], fields)
  {
    FillAt(s, fields, |s.properties|, i);
  }

  /** An incomplete schema has a value that a second filling changes. */
  lemma {:induction false} IncompleteIsNot(s: Schema) returns (v: Value)
    requires WellFormed(s) && !Complete(s)
    ensures Apply(s, Apply(s, v)) != Apply(s, v)
    decreases s
  {
    if i :| 0 <= i < |s.properties| && s.properties[i].schema.types == One("object")
            && !Complete(s.properties[i].schema) {
      var p := s.properties[i];
      var w := IncompleteIsNot(p.schema);
      v := Obj([Field(p.key, w)]);
      LookupStep(v.fields, p.key);
      UnsettledOnce(s, v.fields, i);
    } else {
      var i :| 0 <= i < |s.properties| && s.properties[i].schema.default.Some?
               && Nested(s.properties[i], s.properties[i].schema.default.value)
               && Apply(s.properties[i].schema, s.properties[i].schema.default.value) != s.properties[i].schema.default.value;
      v := Obj([]);
      UnsettledOnce(s, v.fields, i);
    }
  }

  /** Filling once leaves an unsettled object under the property: the second filling changes it. */
  lemma UnsettledOnce(s: Schema, fields: seq<Field>, i: nat)
    requires i < |s.properties| && DistinctKeys(s)
    requires Filled(s.properties[i], fields).Some? && Nested(s.properties[i], Filled(s.properties[i], fields).value)
    requires var filled := Filled(s.properties[i], fields).value; Apply(s.properties[i].schema, filled) != filled
    ensures Apply(s, Apply(s, Obj(fields))) != Apply(s, Obj(fields))
  {
    var out := Fill(s, fields, |s.properties|);
    FillAt(s, fields, |s.properties|, i);
    if Fill(s, out, |s.properties|) == out {
      FixedIsSettled(s, out, i);
    }
  }

  /** A second filling changes nothing, whatever the value, exactly when every object default is itself complete. */
  lemma IdempotentExactly(s: Schema)
    requires WellFormed(s)
    ensures (forall v :: Apply(s, Apply(s, v)) == Apply(s, v)) <==> Complete(s)
  {
    if Complete(s) {
      forall v ensures Apply(s, Apply(s, v)) == Apply(s, v) {
        CompleteIsIdempotent(s, v);
      }
    } else {
      var v := IncompleteIsNot(s);
    }
  }

  // ── why an enum on an object is ruled out ─────────────────────────────────

  const BARE := Schema(One("object"), None, None, None, None, None, None, None, None, None, None, [], [], false, None)

  /** An object schema with the enum [{}] and one defaulted property: {} is valid, its filling is not. */
  lemma EnumBreaksFilling()
    returns (s: Schema)
    ensures WellFormed(s) && s.enum.Some? && SoundDefaults(s.(enum := None))
    ensures Conforms(s, Obj([])) && !Conforms(s, Apply(s, Obj([])))
  {
    var one := BARE.(types := AnyType, default := Some(Int(1)));
    s := BARE.(enum := Some([Obj([])]), properties := [Prop("n", one)]);
    assert TypeIs(Allowed(s.types)[0], Obj([]));
    assert PyEq(Obj([]), s.enum.value[0]);
    assert Fill(s, [], 1) == Step(s.properties[0], Fill(s, [], 0)) == [Field("n", Int(1))];
    assert !PyEq(Obj([Field("n", Int(1))]), s.enum.value[0]);
  }
}
