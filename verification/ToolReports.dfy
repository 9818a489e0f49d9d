/** Which problems the validator reports: one for each keyword broken somewhere in the value, and no other. */
module ToolReports {
  import opened Text
  import opened ToolSchema

  // ── the words of a report ─────────────────────────────────────────────────

  function Place(path: string): string {
    if path != "" then path else "(arguments)"
  }

  function Under(path: string, key: string): string {
    if path != "" then path + "." + key else key
  }

  function Element(path: string, i: nat): string {
    path + "[" + Digits(i) + "]"
  }

  function DecimalOf(s: string): int {
    if s == "" then 0 else DecimalOf(s[..|s|-1]) * 10 + (s[|s|-1] as int - '0' as int)
  }

  /** An index is written in decimal, without leading zeros. */
  lemma {:induction false} IndexInDecimal(n: nat)
    ensures Digits(n) != "" && (forall i :: 0 <= i < |Digits(n)| ==> '0' <= Digits(n)[i] <= '9')
    ensures DecimalOf(Digits(n)) == n && (Digits(n)[0] == '0' ==> n == 0)
  {
    if n >= 10 {
      IndexInDecimal(n / 10);
      var front, last := Digits(n / 10), (n % 10) as char + '0';
      assert Digits(n)[..|Digits(n)|-1] == front && Digits(n)[|Digits(n)|-1] == last;
    } else {
      assert Digits(n)[..0] == "" && DecimalOf("") == 0;
    }
  }

  // ── equal values ──────────────────────────────────────────────────────────

  /** A boolean counts as one or nothing, an integer and a finite float as what they are. */
  predicate Worth(v: Value, r: real) {
    || (v == Bool(true) && r == 1.0) || (v == Bool(false) && r == 0.0)
    || (v.Int? && v.n as real == r) || v == Float(Finite(r))
  }

  /** What an enum compares by: numbers and booleans by worth, infinities by sign, NaN with nothing; texts and null as
      they are, lists element by element, objects key by key in any order. */
  lemma EqualMeans(a: Value, b: Value)
    ensures a.Bool? || a.Int? || a.Float? ==>
              (PyEq(a, b) <==> || (exists r :: Worth(a, r) && Worth(b, r))
                               || (a == b && a in {Float(PosInf), Float(NegInf)}))
    ensures a.Null? || a.Str? ==> (PyEq(a, b) <==> b == a)
    ensures a.Arr? ==> (PyEq(a, b) <==> b.Arr? && |a.elems| == |b.elems|
                                        && forall i :: 0 <= i < |a.elems| ==> PyEq(a.elems[i], b.elems[i]))
    ensures a.Obj? ==>
              (PyEq(a, b)
               <==> && b.Obj? && |a.fields| == |b.fields|
                    && forall f :: f in a.fields ==> Has(b.fields, f.key) && PyEq(f.value, Get(b.fields, f.key)))
  {
    if (a.Bool? || a.Int? || a.Float?) && PyEq(a, b) && NumberOf(a).value.Finite? {
      assert Worth(a, NumberOf(a).value.r) && Worth(b, NumberOf(a).value.r);
    }
    if a.Obj? && b.Obj? {
      forall i | 0 <= i < |a.fields| ensures a.fields[i] in a.fields {}
    }
  }

  // ── what can be wrong ─────────────────────────────────────────────────────

  predicate Less(x: Num, b: real) {
    match x
    case Finite(r) => r < b
    case NegInf => true
    case _ => false
  }

  predicate More(x: Num, b: real) {
    match x
    case Finite(r) => r > b
    case PosInf => true
    case _ => false
  }

  /** A number past a bound; NaN is past none. */
  predicate NumberBreaks(s: Schema, x: Num, c: Complaint) {
    || (c.TooSmall? && s.minimum == Some(c.lo) && Less(x, c.lo))
    || (c.TooBig? && s.maximum == Some(c.hi) && More(x, c.hi))
    || (c.NotAbove? && s.exclusiveMinimum == Some(c.lo) && (Less(x, c.lo) || x == Finite(c.lo)))
    || (c.NotBelow? && s.exclusiveMaximum == Some(c.hi) && (More(x, c.hi) || x == Finite(c.hi)))
  }

  predicate LengthBreaks(s: Schema, n: nat, c: Complaint) {
    (c.TooShort? && s.minLength == Some(c.min) && n < c.min) || (c.TooLong? && s.maxLength == Some(c.max) && n > c.max)
  }

  predicate CountBreaks(s: Schema, n: nat, c: Complaint) {
    (c.TooFew? && s.minItems == Some(c.min) && n < c.min) || (c.TooMany? && s.maxItems == Some(c.max) && n > c.max)
  }

  predicate ScalarBreaks(s: Schema, v: Value, c: Complaint) {
    || (c.NotInEnum? && s.enum.Some? && forall i :: 0 <= i < |s.enum.value| ==> !PyEq(v, s.enum.value[i]))
    || (v.Int? && NumberBreaks(s, Finite(v.n as real), c)) || (v.Float? && NumberBreaks(s, v.x, c))
    || (v.Str? && LengthBreaks(s, |v.s|, c))
  }

  predicate Absent(fields: seq<Field>, key: string) {
    !Has(fields, key) || Get(fields, key) == Null
  }

  /** The value, or a part of it, breaks a keyword of its schema, and this is the problem to report: where, and which.
      */
  ghost predicate Broken(s: Schema, v: Value, path: string, p: Problem)
    decreases s, 3
  {
    if !TypeOk(s.types, v) then p == Problem(Place(path), MustBe(Allowed(s.types)))
    else v != Null
         && ((p.field == Place(path) && ScalarBreaks(s, v, p.complaint))
             || (v.Arr? && ElemBroken(s, v.elems, path, p)) || (v.Obj? && FieldBroken(s, v.fields, path, p)))
  }

  ghost predicate ElemBroken(s: Schema, elems: seq<Value>, path: string, p: Problem)
    decreases s, 2
  {
    || (p.field == Place(path) && CountBreaks(s, |elems|, p.complaint))
    || (s.items.Some? && AnyElem(s.items.value, elems, path, p))
  }

  ghost predicate AnyElem(items: Schema, elems: seq<Value>, path: string, p: Problem)
    decreases items, 4
  {
    exists i :: 0 <= i < |elems| && Broken(items, elems[i], Element(path, i), p)
  }

  ghost predicate FieldBroken(s: Schema, fields: seq<Field>, path: string, p: Problem)
    decreases s, 2
  {
    || Missing(s.required, fields, path, p) || (s.closed && Unlisted(s.properties, fields, path, p))
    || PropBroken(s, fields, path, |s.properties|, p)
  }

  /** One of the first n properties is broken. */
  ghost predicate PropBroken(s: Schema, fields: seq<Field>, path: string, n: nat, p: Problem)
    requires n <= |s.properties|
    decreases s, 1
  {
    exists i: nat :: i < n && !Absent(fields, s.properties[i].key)
      && Broken(s.properties[i].schema, Get(fields, s.properties[i].key), Under(path, s.properties[i].key), p)
  }

  predicate Missing(required: seq<string>, fields: seq<Field>, path: string, p: Problem) {
    exists key :: key in required && Absent(fields, key) && p == Problem(Under(path, key), IsRequired)
  }

  predicate Unlisted(props: seq<Prop>, fields: seq<Field>, path: string, p: Problem) {
    exists f :: f in fields && (forall q :: q in props ==> q.key != f.key)
                && p == Problem(Under(path, f.key), UnknownField)
  }

  // ── what is reported ──────────────────────────────────────────────────────

  lemma ScalarReported(s: Schema, v: Value, path: string, p: Problem)
    ensures p in ScalarProblems(s, v, path) <==> p.field == Place(path) && ScalarBreaks(s, v, p.complaint)
  {
    if v.Int? || v.Float? {
      NumberReported(s, NumberOf(v).value, path, p);
    } else if v.Str? {
      LengthReported(s, |v.s|, path, p);
    }
  }

  lemma NumberReported(s: Schema, x: Num, path: string, p: Problem)
    ensures p in NumberProblems(s, x, path) <==> p.field == Place(path) && NumberBreaks(s, x, p.complaint)
  {
    ComparisonsAre(x, p.complaint);
  }

  /** The comparisons with the bound that a complaint names. */
  lemma ComparisonsAre(x: Num, c: Complaint)
    ensures c.TooSmall? || c.NotAbove? ==> (Below(x, c.lo) <==> Less(x, c.lo))
    ensures c.TooBig? || c.NotBelow? ==> (Above(x, c.hi) <==> More(x, c.hi))
  {
  }

  lemma LengthReported(s: Schema, n: nat, path: string, p: Problem)
    ensures p in StringProblems(s, n, path) <==> p.field == Place(path) && LengthBreaks(s, n, p.complaint)
  {
  }

  lemma CountReported(s: Schema, n: nat, path: string, p: Problem)
    ensures p in CountProblems(s, n, path) <==> p.field == Place(path) && CountBreaks(s, n, p.complaint)
  {
  }

  lemma MissingPush(front: seq<string>, last: string, fields: seq<Field>, path: string, p: Problem)
    ensures Missing(front + [last], fields, path, p)
            <==> || Missing(front, fields, path, p)
                 || (Absent(fields, last) && p == Problem(Under(path, last), IsRequired))
  {
    if Missing(front, fields, path, p) {
      var key :| key in front && Absent(fields, key) && p == Problem(Under(path, key), IsRequired);
      assert key in front + [last];
    }
    assert last in front + [last];
  }

  lemma {:induction false} RequiredReported(required: seq<string>, fields: seq<Field>, path: string, p: Problem)
    ensures p in RequiredProblems(required, fields, path) <==> Missing(required, fields, path, p)
  {
    if required != [] {
      var front, last := required[..|required|-1], required[|required|-1];
      RequiredReported(front, fields, path, p);
      MissingPush(front, last, fields, path, p);
      assert required == front + [last];
    }
  }

  lemma KnownIs(props: seq<Prop>, key: string)
    ensures KnownKey(props, key) <==> exists q :: q in props && q.key == key
  {
    if q :| q in props && q.key == key {
      var i :| 0 <= i < |props| && props[i] == q;
    }
    if i :| 0 <= i < |props| && props[i].key == key {
      assert props[i] in props;
    }
  }

  lemma UnlistedPush(props: seq<Prop>, front: seq<Field>, last: Field, path: string, p: Problem)
    ensures Unlisted(props, front + [last], path, p)
            <==> Unlisted(props, front, path, p)
                 || (!KnownKey(props, last.key) && p == Problem(Under(path, last.key), UnknownField))
  {
    KnownIs(props, last.key);
    if Unlisted(props, front, path, p) {
      var f :| f in front && (forall q :: q in props ==> q.key != f.key)
               && p == Problem(Under(path, f.key), UnknownField);
      assert f in front + [last];
    }
    assert last in front + [last];
  }

  lemma {:induction false} UnknownReported(props: seq<Prop>, fields: seq<Field>, path: string, p: Problem)
    ensures p in UnknownProblems(props, fields, path) <==> Unlisted(props, fields, path, p)
  {
    if fields != [] {
      var front, last := fields[..|fields|-1], fields[|fields|-1];
      UnknownReported(props, front, path, p);
      UnlistedPush(props, front, last, path, p);
      assert fields == front + [last];
    }
  }

  lemma ItemProblemsPush(items: Schema, front: seq<Value>, last: Value, path: string, p: Problem)
    ensures p in ItemProblems(items, front + [last], path)
            <==> p in ItemProblems(items, front, path) || p in Problems(items, last, Element(path, |front|))
  {
    assert (front + [last])[..|front|] == front;
  }

  lemma {:induction false} ItemsReported(items: Schema, elems: seq<Value>, path: string, p: Problem)
    ensures p in ItemProblems(items, elems, path) <==> AnyElem(items, elems, path, p)
    decreases items, 5, |elems|
  {
    if elems != [] {
      var front, last := elems[..|elems|-1], elems[|elems|-1];
      assert elems == front + [last];
      ItemsReported(items, front, path, p);
      ItemReported(items, front, last, path, p);
    } else {
      assert !AnyElem(items, elems, path, p);
    }
  }

  lemma {:induction false} ItemReported(items: Schema, front: seq<Value>, last: Value, path: string, p: Problem)
    requires p in ItemProblems(items, front, path) <==> AnyElem(items, front, path, p)
    ensures p in ItemProblems(items, front + [last], path) <==> AnyElem(items, front + [last], path, p)
    decreases items, 5, 0
  {
    ReportedExactly(items, last, Element(path, |front|), p);
    ElemPush(items, front, last, path, p);
    ItemProblemsPush(items, front, last, path, p);
  }

  lemma ElemPush(items: Schema, front: seq<Value>, last: Value, path: string, p: Problem)
    ensures AnyElem(items, front + [last], path, p)
            <==> AnyElem(items, front, path, p) || Broken(items, last, Element(path, |front|), p)
  {
    var elems := front + [last];
    if i :| 0 <= i < |front| && Broken(items, front[i], Element(path, i), p) {
      assert elems[i] == front[i];
    }
    assert elems[|front|] == last;
  }

  /** The problems of the n-th property. */
  function PropHas(s: Schema, fields: seq<Field>, path: string, n: nat): seq<Problem>
    requires n < |s.properties|
  {
    var q := s.properties[n];
    if Absent(fields, q.key) then [] else Problems(q.schema, Get(fields, q.key), Under(path, q.key))
  }

  lemma PropProblemsPush(s: Schema, fields: seq<Field>, path: string, n: nat)
    requires n < |s.properties|
    ensures PropProblems(s, fields, path, n + 1) == PropProblems(s, fields, path, n) + PropHas(s, fields, path, n)
  {
  }

  lemma InEither(a: seq<Problem>, b: seq<Problem>, all: seq<Problem>, p: Problem)
    requires all == a + b
    ensures p in all <==> p in a || p in b
  {
  }

  lemma {:induction false} PropFound(s: Schema, fields: seq<Field>, path: string, n: nat, p: Problem) returns (i: nat)
    requires n <= |s.properties| && p in PropProblems(s, fields, path, n)
    ensures i < n && p in PropHas(s, fields, path, i)
  {
    i := n - 1;
    PropProblemsPush(s, fields, path, i);
    InEither(PropProblems(s, fields, path, i), PropHas(s, fields, path, i), PropProblems(s, fields, path, n), p);
    if p in PropProblems(s, fields, path, n - 1) {
      i := PropFound(s, fields, path, n - 1, p);
    }
  }

  lemma {:induction false} PropIn(s: Schema, fields: seq<Field>, path: string, n: nat, i: nat, p: Problem)
    requires i < n <= |s.properties| && p in PropHas(s, fields, path, i)
    ensures p in PropProblems(s, fields, path, n)
  {
    var m := n - 1;
    PropProblemsPush(s, fields, path, m);
    if i < m {
      PropIn(s, fields, path, m, i, p);
    }
    InEither(PropProblems(s, fields, path, m), PropHas(s, fields, path, m), PropProblems(s, fields, path, n), p);
  }

  lemma {:induction false} PropsReported(s: Schema, fields: seq<Field>, path: string, n: nat, p: Problem)
    requires n <= |s.properties|
    ensures p in PropProblems(s, fields, path, n) <==> PropBroken(s, fields, path, n, p)
    decreases s, 2, n
  {
    if p in PropProblems(s, fields, path, n) {
      var i := PropFound(s, fields, path, n, p);
      PropReported(s, fields, path, i, p);
    }
    if PropBroken(s, fields, path, n, p) {
      var i: nat :| i < n && !Absent(fields, s.properties[i].key)
        && Broken(s.properties[i].schema, Get(fields, s.properties[i].key), Under(path, s.properties[i].key), p);
      PropReported(s, fields, path, i, p);
      PropIn(s, fields, path, n, i, p);
    }
  }

  lemma {:induction false} PropReported(s: Schema, fields: seq<Field>, path: string, n: nat, p: Problem)
    requires n < |s.properties|
    ensures var q := s.properties[n];
            p in PropHas(s, fields, path, n)
            <==> !Absent(fields, q.key) && Broken(q.schema, Get(fields, q.key), Under(path, q.key), p)
    decreases s, 0, n
  {
    var q := s.properties[n];
    ReportedExactly(q.schema, Get(fields, q.key), Under(path, q.key), p);
  }

  lemma {:induction false} FieldsReported(s: Schema, fields: seq<Field>, path: string, p: Problem)
    ensures p in ObjectProblems(s, fields, path) <==> FieldBroken(s, fields, path, p)
    decreases s, 3, 0
  {
    RequiredReported(s.required, fields, path, p);
    PropsReported(s, fields, path, |s.properties|, p);
    UnknownReported(s.properties, fields, path, p);
  }

  lemma {:induction false} ElemsReported(s: Schema, elems: seq<Value>, path: string, p: Problem)
    ensures p in ArrayProblems(s, elems, path) <==> ElemBroken(s, elems, path, p)
    decreases s, 2, 0
  {
    CountReported(s, |elems|, path, p);
    if s.items.Some? {
      ItemsReported(s.items.value, elems, path, p);
    }
  }

  /** A problem is reported exactly when some part of the value breaks that keyword there. */
  lemma {:induction false} ReportedExactly(s: Schema, v: Value, path: string, p: Problem)
    ensures p in Problems(s, v, path) <==> Broken(s, v, path, p)
    decreases s, 4, 0
  {
    ScalarReported(s, v, path, p);
    if v.Arr? {
      ElemsReported(s, v.elems, path, p);
    } else if v.Obj? {
      FieldsReported(s, v.fields, path, p);
    }
  }

  /** The type names mean what JSON Schema says; a whole float is an integer, a name outside the list matches nothing.
      */
  lemma TypesMean(v: Value)
    ensures (TypeIs("object", v) <==> v.Obj?) && (TypeIs("array", v) <==> v.Arr?) && (TypeIs("string", v) <==> v.Str?)
    ensures (TypeIs("boolean", v) <==> v.Bool?) && (TypeIs("null", v) <==> v == Null)
    ensures TypeIs("number", v) <==> v.Int? || (v.Float? && v.x != NaN && v.x != PosInf && v.x != NegInf)
    ensures TypeIs("integer", v) <==> v.Int? || (v.Float? && v.x.Finite? && v.x.r.Floor as real == v.x.r)
    ensures forall name :: name !in ["object", "array", "string", "boolean", "null", "number", "integer"] ==>
              !TypeIs(name, v)
  {
  }
}
