/** `SchemaValidator`: the structural check of a schema, the check of a record against a
    schema, and the coercion of a record to the schema's types. */
module SchemaValidator {
  import opened Wrappers
  import opened Text
  import opened Values
  import opened Schema

  // ---------------------------------------------------------------------------------
  // validate_schema

  /** The errors `validate_schema` reports. */
  datatype SchemaError =
    | DuplicateFieldNames
    | DuplicateMetricNames
    | EmptyFieldName
    | MissingLabel(field: string)

  /** The text of each error. */
  function SchemaErrorMessage(e: SchemaError): string {
    match e
    case DuplicateFieldNames => "Duplicate field names found"
    case DuplicateMetricNames => "Duplicate metric names found"
    case EmptyFieldName => "Field name cannot be empty"
    case MissingLabel(name) => "Field '" + name + "' must have a label"
  }

  function Elements(names: seq<string>): set<string> {
    set n | n in names
  }

  /** `len(names) != len(set(names))` */
  predicate HasDuplicates(names: seq<string>) {
    |Elements(names)| != |names|
  }

  predicate Distinct(names: seq<string>) {
    forall i, j :: 0 <= i < j < |names| ==> names[i] != names[j]
  }

  /** Comparing the list's length with its set's size detects exactly a repeated name. */
  lemma {:induction false} DuplicatesIffNotDistinct(names: seq<string>)
    ensures |Elements(names)| <= |names|
    ensures HasDuplicates(names) <==> !Distinct(names)
  {
    if names != [] {
      var rest := names[1..];
      DuplicatesIffNotDistinct(rest);
      ElementsCons(names);
      DistinctCons(names);
      if names[0] in rest {
        assert Elements(names) == Elements(rest);
      } else {
        assert |Elements(names)| == |Elements(rest)| + 1;
      }
    }
  }

  lemma ElementsCons(names: seq<string>)
    requires names != []
    ensures Elements(names) == {names[0]} + Elements(names[1..])
    ensures names[0] in names[1..] ==> Elements(names) == Elements(names[1..])
  {
    assert names == [names[0]] + names[1..];
  }

  /** A list is distinct iff its head is not in its tail and its tail is distinct. */
  lemma DistinctCons(names: seq<string>)
    requires names != []
    ensures Distinct(names) <==> names[0] !in names[1..] && Distinct(names[1..])
  {
    var rest := names[1..];
    if names[0] in rest {
      var k :| 0 <= k < |rest| && rest[k] == names[0];
      assert names[0] == names[k + 1];
    } else if !Distinct(rest) {
      var i, j :| 0 <= i < j < |rest| && rest[i] == rest[j];
      assert names[i + 1] == names[j + 1];
    } else {
      forall i, j | 0 <= i < j < |names| ensures names[i] != names[j] {
        assert names[j] == rest[j - 1];
        if i > 0 {
          assert names[i] == rest[i - 1];
        }
      }
    }
  }

  /** The per-field checks of one field: an empty name, then an empty label. */
  function FieldErrors(f: FieldDefinition): seq<SchemaError> {
    (if f.name == "" then [EmptyFieldName] else [])
    + (if f.displayLabel == "" then [MissingLabel(f.name)] else [])
  }

  /** The per-field checks over a list of fields, in order. */
  function FieldsErrors(fields: seq<FieldDefinition>): seq<SchemaError>
    decreases |fields|
  {
    if fields == [] then []
    else FieldsErrors(fields[..|fields| - 1]) + FieldErrors(fields[|fields| - 1])
  }

  /** Everything `validate_schema` reports, in order. Metric formulas are not looked at. */
  function SchemaErrors(schema: ProductSchema): seq<SchemaError> {
    (if HasDuplicates(FieldNames(schema.fields)) then [DuplicateFieldNames] else [])
    + (if schema.metrics != [] && HasDuplicates(MetricNames(schema.metrics))
       then [DuplicateMetricNames] else [])
    + FieldsErrors(schema.fields)
  }

  /** `validate_schema`: the error list and whether it is empty. */
  method ValidateSchema(schema: ProductSchema) returns (ok: bool, errors: seq<SchemaError>)
    ensures errors == SchemaErrors(schema)
    ensures ok <==> errors == []
  {
    errors := [];
    if HasDuplicates(FieldNames(schema.fields)) {
      errors := errors + [DuplicateFieldNames];
    }
    if schema.metrics != [] {
      if HasDuplicates(MetricNames(schema.metrics)) {
        errors := errors + [DuplicateMetricNames];
      }
    }
    var fieldErrors := [];
    var i := 0;
    while i < |schema.fields|
      invariant 0 <= i <= |schema.fields|
      invariant fieldErrors == FieldsErrors(schema.fields[..i])
    {
      fieldErrors := CheckField(schema.fields[i], fieldErrors);
      FieldsErrorsStep(schema.fields, i);
      i := i + 1;
    }
    assert schema.fields[..i] == schema.fields;
    errors := errors + fieldErrors;
    ok := |errors| == 0;
  }

  /** The body of the per-field loop: one field's errors appended to those found so far. */
  method CheckField(field: FieldDefinition, found: seq<SchemaError>) returns (errors: seq<SchemaError>)
    ensures errors == found + FieldErrors(field)
  {
    errors := found;
    if field.name == "" {
      errors := errors + [EmptyFieldName];
    }
    if field.displayLabel == "" {
      errors := errors + [MissingLabel(field.name)];
    }
  }

  lemma FieldsErrorsStep(fields: seq<FieldDefinition>, i: nat)
    requires i < |fields|
    ensures FieldsErrors(fields[..i + 1]) == FieldsErrors(fields[..i]) + FieldErrors(fields[i])
  {
    assert fields[..i + 1][..i] == fields[..i];
  }

  /** The per-field checks find nothing exactly when every field has a name and a label. */
  lemma {:induction false} FieldsErrorsEmpty(fields: seq<FieldDefinition>)
    ensures FieldsErrors(fields) == [] <==>
      forall i :: 0 <= i < |fields| ==> fields[i].name != "" && fields[i].displayLabel != ""
    ensures forall e :: e in FieldsErrors(fields) ==> e.EmptyFieldName? || e.MissingLabel?
    decreases |fields|
  {
    FieldsErrorsKinds(fields);
    if fields != [] {
      var init := fields[..|fields| - 1];
      FieldsErrorsEmpty(init);
      assert forall i :: 0 <= i < |init| ==> init[i] == fields[i];
    }
  }

  lemma {:induction false} FieldsErrorsKinds(fields: seq<FieldDefinition>)
    ensures forall e :: e in FieldsErrors(fields) ==> e.EmptyFieldName? || e.MissingLabel?
    decreases |fields|
  {
    if fields != [] {
      FieldsErrorsKinds(fields[..|fields| - 1]);
    }
  }

  /** A schema is valid exactly when field names are distinct, metric names are distinct,
      and every field has a name and a label. */
  lemma SchemaValidIff(schema: ProductSchema)
    ensures SchemaErrors(schema) == [] <==>
      UniqueFieldNames(schema.fields) && Distinct(MetricNames(schema.metrics)) &&
      forall i :: 0 <= i < |schema.fields| ==>
        schema.fields[i].name != "" && schema.fields[i].displayLabel != ""
  {
    DuplicatesIffNotDistinct(FieldNames(schema.fields));
    DuplicatesIffNotDistinct(MetricNames(schema.metrics));
    FieldsErrorsEmpty(schema.fields);
    assert UniqueFieldNames(schema.fields) <==> Distinct(FieldNames(schema.fields));
  }

  /** Repeated field names, however many, are reported by exactly one error. */
  lemma FieldDuplicatesReportedOnce(schema: ProductSchema)
    ensures multiset(SchemaErrors(schema))[DuplicateFieldNames] ==
      if UniqueFieldNames(schema.fields) then 0 else 1
  {
    DuplicatesIffNotDistinct(FieldNames(schema.fields));
    UniqueIffDistinct(schema.fields);
    FieldDuplicateCount(schema);
  }

  lemma FieldDuplicateCount(schema: ProductSchema)
    ensures multiset(SchemaErrors(schema))[DuplicateFieldNames] ==
      if HasDuplicates(FieldNames(schema.fields)) then 1 else 0
  {
    var a := if HasDuplicates(FieldNames(schema.fields)) then [DuplicateFieldNames] else [];
    var b := if schema.metrics != [] && HasDuplicates(MetricNames(schema.metrics))
      then [DuplicateMetricNames] else [];
    FieldsErrorsKinds(schema.fields);
    assert SchemaErrors(schema) == a + b + FieldsErrors(schema.fields);
    CountOutside(a, b, FieldsErrors(schema.fields), DuplicateFieldNames);
  }

  lemma UniqueIffDistinct(fields: seq<FieldDefinition>)
    ensures UniqueFieldNames(fields) <==> Distinct(FieldNames(fields))
  {
  }

  /** Repeated metric names, however many, are reported by exactly one error. */
  lemma MetricDuplicatesReportedOnce(schema: ProductSchema)
    ensures multiset(SchemaErrors(schema))[DuplicateMetricNames] ==
      if Distinct(MetricNames(schema.metrics)) then 0 else 1
  {
    var metricNames := MetricNames(schema.metrics);
    DuplicatesIffNotDistinct(metricNames);
    var a := if HasDuplicates(FieldNames(schema.fields)) then [DuplicateFieldNames] else [];
    var b := if schema.metrics != [] && HasDuplicates(metricNames) then [DuplicateMetricNames] else [];
    FieldsErrorsKinds(schema.fields);
    assert SchemaErrors(schema) == a + b + FieldsErrors(schema.fields);
    CountOutside(a, b, FieldsErrors(schema.fields), DuplicateMetricNames);
  }

  lemma CountOutside(a: seq<SchemaError>, b: seq<SchemaError>, c: seq<SchemaError>, x: SchemaError)
    requires x !in c
    ensures multiset(a + b + c)[x] == multiset(a)[x] + multiset(b)[x]
  {
    assert multiset(a + b + c) == multiset(a) + multiset(b) + multiset(c);
  }

  /** Formulas play no part: two schemas with the same fields and metric names get the
      same errors. */
  lemma FormulasNotChecked(fields: seq<FieldDefinition>, m1: seq<MetricDefinition>, m2: seq<MetricDefinition>)
    requires MetricNames(m1) == MetricNames(m2)
    ensures SchemaErrors(ProductSchema(fields, m1)) == SchemaErrors(ProductSchema(fields, m2))
  {
    assert |m1| == |MetricNames(m1)| == |MetricNames(m2)| == |m2|;
  }

  // ---------------------------------------------------------------------------------
  // validate_data_against_schema

  /** The errors `validate_data_against_schema` reports. */
  datatype DataError =
    | MissingRequired(field: string)
    | NotInteger(field: string)
    | NotDecimal(field: string)
    | NotBoolean(field: string)
    | NotText(field: string)

  function DataErrorMessage(e: DataError): string {
    match e
    case MissingRequired(name) => "Required field '" + name + "' is missing"
    case NotInteger(name) => "Field '" + name + "' must be an integer"
    case NotDecimal(name) => "Field '" + name + "' must be a decimal number"
    case NotBoolean(name) => "Field '" + name + "' must be a boolean"
    case NotText(name) => "Field '" + name + "' must be a string"
  }

  /** `isinstance(v, int)` (a bool is an int), else `int(v)` succeeds. */
  predicate IntegerAccepts(v: RawValue) {
    v.Bool? || v.Int? || PyInt(v).Some?
  }

  /** A number; else a string whose first `\d+\.?\d*` run `float()` reads; else `float(v)`
      succeeds. */
  predicate DecimalAccepts(v: RawValue) {
    IsNumber(v)
    || (v.Str? && FirstDecimalRun(Strip(v.s)).Some?
        && ParseFloatText(FirstDecimalRun(Strip(v.s)).value).Some?)
    || PyFloat(v).Some?
  }

  /** The type check of one present value. */
  predicate Accepts(t: FieldType, v: RawValue) {
    match t
    case Integer => IntegerAccepts(v)
    case Decimal => DecimalAccepts(v)
    case Boolean => v.Bool?
    case Text => v.Str?
  }

  /** The error a present value of the wrong type draws. */
  function TypeError(f: FieldDefinition): DataError {
    match f.fieldType
    case Integer => NotInteger(f.name)
    case Decimal => NotDecimal(f.name)
    case Boolean => NotBoolean(f.name)
    case Text => NotText(f.name)
  }

  /** The first loop: one error per required field absent from the record. */
  function MissingErrors(fields: seq<FieldDefinition>, data: Record): seq<DataError>
    decreases |fields|
  {
    if fields == [] then []
    else
      var f := fields[|fields| - 1];
      MissingErrors(fields[..|fields| - 1], data)
      + (if f.required && f.name !in data then [MissingRequired(f.name)] else [])
  }

  /** The second loop: one error per present value its field's type rejects. */
  function TypeErrors(fields: seq<FieldDefinition>, data: Record): seq<DataError>
    decreases |fields|
  {
    if fields == [] then []
    else
      var f := fields[|fields| - 1];
      TypeErrors(fields[..|fields| - 1], data)
      + (if f.name in data && !Accepts(f.fieldType, data[f.name]) then [TypeError(f)] else [])
  }

  function DataErrors(fields: seq<FieldDefinition>, data: Record): seq<DataError> {
    MissingErrors(fields, data) + TypeErrors(fields, data)
  }

  /** `validate_data_against_schema`: the error list and whether it is empty. */
  method ValidateDataAgainstSchema(data: Record, schema: ProductSchema) returns (ok: bool, errors: seq<DataError>)
    ensures errors == DataErrors(schema.fields, data)
    ensures ok <==> errors == []
  {
    var fields := schema.fields;
    errors := [];
    var i := 0;
    while i < |fields|
      invariant 0 <= i <= |fields|
      invariant errors == MissingErrors(fields[..i], data)
    {
      if fields[i].required && fields[i].name !in data {
        errors := errors + [MissingRequired(fields[i].name)];
      }
      MissingErrorsStep(fields, data, i);
      i := i + 1;
    }
    assert fields[..i] == fields;
    ghost var missing := errors;
    i := 0;
    while i < |fields|
      invariant 0 <= i <= |fields|
      invariant errors == missing + TypeErrors(fields[..i], data)
    {
      var field := fields[i];
      if field.name in data {
        var error := CheckValue(field, data[field.name]);
        if error.Some? {
          errors := errors + [error.value];
        }
      }
      TypeErrorsStep(fields, data, i);
      i := i + 1;
    }
    assert fields[..i] == fields;
    ok := |errors| == 0;
  }

  /** The type check of one present value, with the error it draws if any. */
  method CheckValue(field: FieldDefinition, value: RawValue) returns (error: Option<DataError>)
    ensures error.None? <==> Accepts(field.fieldType, value)
    ensures error.Some? ==> error.value == TypeError(field)
  {
    error := None;
    match field.fieldType {
      case Integer =>
        if !(value.Bool? || value.Int?) && PyInt(value).None? {
          error := Some(NotInteger(field.name));
        }
      case Decimal =>
        if !IsNumber(value) {
          var converted := false;
          if value.Str? {
            var cleaned := Strip(value.s);
            var numberMatch := FirstDecimalRun(cleaned);
            if numberMatch.Some? && ParseFloatText(numberMatch.value).Some? {
              converted := true;
            }
          }
          if !converted && PyFloat(value).None? {
            error := Some(NotDecimal(field.name));
          }
        }
      case Boolean =>
        if !value.Bool? {
          error := Some(NotBoolean(field.name));
        }
      case Text =>
        if !value.Str? {
          error := Some(NotText(field.name));
        }
    }
  }

  lemma MissingErrorsStep(fields: seq<FieldDefinition>, data: Record, i: nat)
    requires i < |fields|
    ensures MissingErrors(fields[..i + 1], data) == MissingErrors(fields[..i], data)
      + (if fields[i].required && fields[i].name !in data then [MissingRequired(fields[i].name)] else [])
  {
    assert fields[..i + 1][..i] == fields[..i];
  }

  lemma TypeErrorsStep(fields: seq<FieldDefinition>, data: Record, i: nat)
    requires i < |fields|
    ensures TypeErrors(fields[..i + 1], data) == TypeErrors(fields[..i], data)
      + (if fields[i].name in data && !Accepts(fields[i].fieldType, data[fields[i].name])
         then [TypeError(fields[i])] else [])
  {
    assert fields[..i + 1][..i] == fields[..i];
  }

  lemma {:induction false} MissingErrorsEmpty(fields: seq<FieldDefinition>, data: Record)
    ensures MissingErrors(fields, data) == [] <==>
      forall i :: 0 <= i < |fields| && fields[i].required ==> fields[i].name in data
    ensures forall e :: e in MissingErrors(fields, data) ==> e.MissingRequired?
    decreases |fields|
  {
    if fields != [] {
      var init := fields[..|fields| - 1];
      MissingErrorsEmpty(init, data);
      assert forall i :: 0 <= i < |init| ==> init[i] == fields[i];
    }
  }

  lemma {:induction false} TypeErrorsEmpty(fields: seq<FieldDefinition>, data: Record)
    ensures TypeErrors(fields, data) == [] <==>
      forall i :: 0 <= i < |fields| && fields[i].name in data ==>
        Accepts(fields[i].fieldType, data[fields[i].name])
    ensures forall e :: e in TypeErrors(fields, data) ==> !e.MissingRequired?
    decreases |fields|
  {
    TypeErrorsKinds(fields, data);
    if fields != [] {
      var n := |fields| - 1;
      var init := fields[..n];
      TypeErrorsEmpty(init, data);
      assert forall i :: 0 <= i < |init| ==> init[i] == fields[i];
      if TypeErrors(init, data) == [] {
        assert TypeErrors(fields, data) == [] <==>
          !(fields[n].name in data && !Accepts(fields[n].fieldType, data[fields[n].name]));
      } else {
        assert TypeErrors(fields, data) != [] by {
          assert |TypeErrors(fields, data)| >= |TypeErrors(init, data)|;
        }
      }
    }
  }

  lemma {:induction false} TypeErrorsKinds(fields: seq<FieldDefinition>, data: Record)
    ensures forall e :: e in TypeErrors(fields, data) ==> !e.MissingRequired?
    decreases |fields|
  {
    if fields != [] {
      TypeErrorsKinds(fields[..|fields| - 1], data);
    }
  }

  /** A record is valid exactly when every required field is present and every present
      schema field holds a value of its type. */
  lemma DataValidIff(fields: seq<FieldDefinition>, data: Record)
    ensures DataErrors(fields, data) == [] <==>
      (forall i :: 0 <= i < |fields| && fields[i].required ==> fields[i].name in data) &&
      (forall i :: 0 <= i < |fields| && fields[i].name in data ==>
         Accepts(fields[i].fieldType, data[fields[i].name]))
  {
    MissingErrorsEmpty(fields, data);
    TypeErrorsEmpty(fields, data);
  }

  /** With distinct field names, a required field absent from the record draws exactly one
      "missing" error, and a present one draws none. */
  lemma {:induction false} MissingReportedOnce(fields: seq<FieldDefinition>, data: Record, i: nat)
    requires UniqueFieldNames(fields) && i < |fields|
    ensures multiset(DataErrors(fields, data))[MissingRequired(fields[i].name)] ==
      if fields[i].required && fields[i].name !in data then 1 else 0
    decreases |fields|
  {
    var name := fields[i].name;
    TypeErrorsEmpty(fields, data);
    assert MissingRequired(name) !in TypeErrors(fields, data);
    MissingCount(fields, data, i);
  }

  lemma {:induction false} MissingCount(fields: seq<FieldDefinition>, data: Record, i: nat)
    requires UniqueFieldNames(fields) && i < |fields|
    ensures multiset(MissingErrors(fields, data))[MissingRequired(fields[i].name)] ==
      if fields[i].required && fields[i].name !in data then 1 else 0
    decreases |fields|
  {
    var n := |fields| - 1;
    var init := fields[..n];
    var last := fields[n];
    var name := fields[i].name;
    assert UniqueFieldNames(init);
    if i < n {
      MissingCount(init, data, i);
      assert init[i] == fields[i];
      assert last.name != name;
    } else {
      MissingAbsent(init, data, name);
    }
  }

  /** A name no field of the list carries draws no "missing" error. */
  lemma {:induction false} MissingAbsent(fields: seq<FieldDefinition>, data: Record, name: string)
    requires forall j :: 0 <= j < |fields| ==> fields[j].name != name
    ensures multiset(MissingErrors(fields, data))[MissingRequired(name)] == 0
    decreases |fields|
  {
    if fields != [] {
      var init := fields[..|fields| - 1];
      assert forall j :: 0 <= j < |init| ==> init[j] == fields[j];
      MissingAbsent(init, data, name);
    }
  }

  /** A string `int()` cannot read is not an integer: "2000 W". */
  lemma IntegerRejectsUnitString()
    ensures !IntegerAccepts(Str("2000 W"))
  {
    var s := "2000 W";
    assert s[0] == '2' && s[4] == ' ' && s[5] == 'W';
    IntRejectsInnerBlank(s, 4);
  }

  /** Any string with a digit is a decimal: "1.6 gallons", and even "v2". */
  lemma DecimalAcceptsDigitText(s: string, j: nat)
    requires j < |Strip(s)| && IsDigit(Strip(s)[j])
    ensures DecimalAccepts(Str(s))
  {
    var run := FirstDecimalRun(Strip(s));
    assert run.Some?;
    DecimalRunParses(run.value);
  }

  // ---------------------------------------------------------------------------------
  // normalize_data

  /** `{"value": x, ...}` is replaced by `x`; any other value is kept. */
  function Unwrap(v: RawValue): (r: RawValue)
    ensures !IsValueObject(v) ==> r == v
  {
    if IsValueObject(v) then v.fields["value"] else v
  }

  /** The value a field's type turns a non-null value into, or none where `int()` or
      `float()` raises. Strings go through their first digit run (first `\d+\.?\d*` run
      for decimals) when they have one. */
  function CoerceValue(t: FieldType, v: RawValue): (r: Option<RawValue>)
  {
    match t
    case Integer =>
      var n := if v.Str? && FirstDigitRun(Strip(v.s)).Some?
        then ParseIntText(FirstDigitRun(Strip(v.s)).value) else PyInt(v);
      if n.Some? then Some(Int(n.value)) else None
    case Decimal =>
      var x := if v.Str? && FirstDecimalRun(Strip(v.s)).Some?
        then ParseFloatText(FirstDecimalRun(Strip(v.s)).value) else PyFloat(v);
      if x.Some? then Some(Real(x.value)) else None
    case Boolean => Some(Bool(Truthy(v)))
    case Text => Some(Str(PyStr(v)))
  }

  /** The values of a field type after normalisation. */
  predicate HasType(t: FieldType, v: RawValue) {
    match t
    case Integer => v.Int?
    case Decimal => v.Real?
    case Boolean => v.Bool?
    case Text => v.Str?
  }

  /** A coerced value has the field's type, booleans and text never fail, and a value
      already of the type is kept. */
  lemma CoerceValueShape(t: FieldType, v: RawValue)
    ensures CoerceValue(t, v).Some? ==> HasType(t, CoerceValue(t, v).value)
    ensures t == Boolean || t == Text ==> CoerceValue(t, v).Some?
    ensures HasType(t, v) ==> CoerceValue(t, v) == Some(v)
  {
  }

  /** A string with a digit always becomes an integer: the value of its first digit run,
      so a leading "-" is lost. */
  lemma CoerceIntegerText(s: string)
    requires FirstDigitRun(Strip(s)).Some?
    ensures CoerceValue(Integer, Str(s)) == Some(Int(DigitsValue(FirstDigitRun(Strip(s)).value) as int))
  {
    DigitRunParsesInt(FirstDigitRun(Strip(s)).value);
  }

  /** "-5" becomes 5 in an integer field. */
  lemma CoerceNegativeText(s: string)
    requires |s| == 2 && s[0] == '-' && s[1] == '5'
    ensures CoerceValue(Integer, Str(s)) == Some(Int(5))
  {
    StripNoEdgeSpace(s);
    MinusFiveRun(s);
    FiveValue(s[1..2]);
    CoerceIntegerText(s);
  }

  lemma FiveValue(d: string)
    requires |d| == 1 && d[0] == '5'
    ensures DigitsValue(d) == 5
  {
    assert d[..0] == [];
  }

  lemma MinusFiveRun(s: string)
    requires |s| == 2 && s[0] == '-' && s[1] == '5'
    ensures FirstDigitRun(s) == Some(s[1..2])
  {
    assert s[1..][1..] == [];
    assert FirstDigitIndex(s[1..]) == 0;
    assert FirstDigitIndex(s) == 1;
    assert AllDigits(s[1..2]);
    DigitRunExact(s, 1, 1);
  }

  /** A string with a digit always becomes a decimal. */
  lemma CoerceDecimalText(s: string)
    requires FirstDecimalRun(Strip(s)).Some?
    ensures CoerceValue(Decimal, Str(s)) == Some(Real(DecimalRunValue(FirstDecimalRun(Strip(s)).value)))
  {
    DecimalRunParses(FirstDecimalRun(Strip(s)).value);
  }

  /** What one field contributes: none when absent from the record; for a null value
      (after unwrapping), null when the field is required and none otherwise; the coerced
      value; and for a failed coercion, null when required and none otherwise. */
  function FieldOutcome(f: FieldDefinition, data: Record): (r: Option<RawValue>)
    ensures f.name !in data ==> r.None?
    ensures r.Some? ==> r.value.Null? || HasType(f.fieldType, r.value)
    ensures r.Some? && r.value.Null? ==> f.required
    ensures f.name in data && f.required ==> r.Some?
  {
    if f.name !in data then None
    else
      var value := Unwrap(data[f.name]);
      if value.Null? then (if f.required then Some(Null) else None)
      else
        CoerceValueShape(f.fieldType, value);
        match CoerceValue(f.fieldType, value)
        case Some(x) => Some(x)
        case None => if f.required then Some(Null) else None
  }

  function NormalizeStep(f: FieldDefinition, data: Record, acc: Record): Record {
    match FieldOutcome(f, data)
    case Some(x) => acc[f.name := x]
    case None => acc
  }

  /** `normalize_data` over a list of fields, in order; a later field of the same name
      overwrites an earlier one. */
  function NormalizeFields(fields: seq<FieldDefinition>, data: Record): Record
    decreases |fields|
  {
    if fields == [] then map[]
    else NormalizeStep(fields[|fields| - 1], data, NormalizeFields(fields[..|fields| - 1], data))
  }

  /** `normalize_data` */
  method NormalizeData(data: Record, schema: ProductSchema) returns (normalized: Record)
    ensures normalized == NormalizeFields(schema.fields, data)
  {
    var fields := schema.fields;
    normalized := map[];
    var i := 0;
    while i < |fields|
      invariant 0 <= i <= |fields|
      invariant normalized == NormalizeFields(fields[..i], data)
    {
      var field := fields[i];
      assert fields[..i + 1][..i] == fields[..i];
      if field.name in data {
        var value := data[field.name];
        if IsValueObject(value) {
          value := value.fields["value"];
        }
        if value.Null? {
          if field.required {
            normalized := normalized[field.name := Null];
          }
        } else {
          var coerced := CoerceValue(field.fieldType, value);
          if coerced.Some? {
            normalized := normalized[field.name := coerced.value];
          } else if field.required {
            normalized := normalized[field.name := Null];
          }
        }
      }
      i := i + 1;
    }
    assert fields[..i] == fields;
  }

  /** The field names of a list that occur in the record. */
  function PresentNames(fields: seq<FieldDefinition>, data: Record): set<string> {
    set i | 0 <= i < |fields| && fields[i].name in data :: fields[i].name
  }

  /** Only schema fields present in the record come out; other keys are dropped. */
  lemma {:induction false} NormalizeKeys(fields: seq<FieldDefinition>, data: Record)
    ensures NormalizeFields(fields, data).Keys <= PresentNames(fields, data)
    decreases |fields|
  {
    if fields != [] {
      var n := |fields| - 1;
      var init := fields[..n];
      NormalizeKeys(init, data);
      forall k | k in PresentNames(init, data) ensures k in PresentNames(fields, data) {
        var i :| 0 <= i < |init| && init[i].name in data && init[i].name == k;
        assert fields[i] == init[i];
      }
      if FieldOutcome(fields[n], data).Some? {
        assert fields[n].name in PresentNames(fields, data);
      }
    }
  }

  /** With distinct field names, each field's entry in the output is its own outcome. */
  lemma {:induction false} NormalizeEntry(fields: seq<FieldDefinition>, data: Record, i: nat)
    requires UniqueFieldNames(fields) && i < |fields|
    ensures var out := NormalizeFields(fields, data);
      (fields[i].name in out <==> FieldOutcome(fields[i], data).Some?) &&
      (fields[i].name in out ==> out[fields[i].name] == FieldOutcome(fields[i], data).value)
    decreases |fields|
  {
    var n := |fields| - 1;
    var init := fields[..n];
    assert UniqueFieldNames(init);
    if i < n {
      assert init[i] == fields[i];
      NormalizeEntry(init, data, i);
    } else {
      NormalizeKeys(init, data);
      assert fields[i].name !in PresentNames(init, data);
    }
  }

  /** A required field present in the record is always in the output. */
  lemma RequiredPresentKept(fields: seq<FieldDefinition>, data: Record, i: nat)
    requires UniqueFieldNames(fields) && i < |fields|
    requires fields[i].required && fields[i].name in data
    ensures fields[i].name in NormalizeFields(fields, data)
  {
    NormalizeEntry(fields, data, i);
  }

  /** With distinct field names, every output value is null or of its field's type, and
      null only for a required field. */
  lemma NormalizeTyped(fields: seq<FieldDefinition>, data: Record, i: nat)
    requires UniqueFieldNames(fields) && i < |fields|
    requires fields[i].name in NormalizeFields(fields, data)
    ensures var v := NormalizeFields(fields, data)[fields[i].name];
      (v.Null? && fields[i].required) || HasType(fields[i].fieldType, v)
  {
    NormalizeEntry(fields, data, i);
  }

  /** A normalised value is already what its field's outcome would make of it. */
  lemma OutcomeStable(f: FieldDefinition, data: Record, out: Record)
    requires f.name in out ==> FieldOutcome(f, data).Some? && out[f.name] == FieldOutcome(f, data).value
    requires f.name !in out ==> FieldOutcome(f, data).None?
    ensures FieldOutcome(f, out) == FieldOutcome(f, data)
  {
    if f.name in out {
      var v := out[f.name];
      assert !IsValueObject(v);
      if !v.Null? {
        CoerceValueShape(f.fieldType, v);
      }
    }
  }

  /** With distinct field names, `normalize_data` is idempotent. */
  lemma NormalizeIdempotent(fields: seq<FieldDefinition>, data: Record)
    requires UniqueFieldNames(fields)
    ensures NormalizeFields(fields, NormalizeFields(fields, data)) == NormalizeFields(fields, data)
  {
    var once := NormalizeFields(fields, data);
    var twice := NormalizeFields(fields, once);
    NormalizeKeys(fields, data);
    NormalizeKeys(fields, once);
    forall i | 0 <= i < |fields|
      ensures FieldOutcome(fields[i], once) == FieldOutcome(fields[i], data)
    {
      NormalizeEntry(fields, data, i);
      OutcomeStable(fields[i], data, once);
    }
    forall k | k in twice ensures k in once && twice[k] == once[k] {
      var i :| 0 <= i < |fields| && fields[i].name in once && fields[i].name == k;
      NormalizeEntry(fields, once, i);
      NormalizeEntry(fields, data, i);
    }
    forall k | k in once ensures k in twice {
      var i :| 0 <= i < |fields| && fields[i].name in data && fields[i].name == k;
      NormalizeEntry(fields, once, i);
      NormalizeEntry(fields, data, i);
    }
  }

  /** A value a field's type accepts is not a `{value: ...}` object and is not null, and
      it coerces to a value the type accepts. */
  lemma AcceptedCoerces(t: FieldType, v: RawValue)
    requires Accepts(t, v)
    ensures !IsValueObject(v) && !v.Null?
    ensures CoerceValue(t, v).Some? && Accepts(t, CoerceValue(t, v).value)
  {
    match t
    case Integer =>
      if v.Str? && FirstDigitRun(Strip(v.s)).Some? {
        DigitRunParsesInt(FirstDigitRun(Strip(v.s)).value);
      }
    case Decimal =>
      if v.Str? && FirstDecimalRun(Strip(v.s)).Some? {
        DecimalRunParses(FirstDecimalRun(Strip(v.s)).value);
      }
    case Boolean =>
    case Text =>
  }

  /** With distinct field names, a valid record stays valid once normalised. */
  lemma NormalizePreservesValid(fields: seq<FieldDefinition>, data: Record)
    requires UniqueFieldNames(fields) && DataErrors(fields, data) == []
    ensures DataErrors(fields, NormalizeFields(fields, data)) == []
  {
    var out := NormalizeFields(fields, data);
    DataValidIff(fields, data);
    DataValidIff(fields, out);
    forall i | 0 <= i < |fields| && fields[i].required ensures fields[i].name in out {
      RequiredPresentKept(fields, data, i);
    }
    forall i | 0 <= i < |fields| && fields[i].name in out
      ensures Accepts(fields[i].fieldType, out[fields[i].name])
    {
      NormalizeEntry(fields, data, i);
      AcceptedCoerces(fields[i].fieldType, data[fields[i].name]);
    }
  }

  /** The converse fails: `{"value": 5}` in an integer field is rejected, but after
      normalisation it is the integer 5. */
  lemma NormalizeRepairsWrappedValue()
    ensures var fields := [FieldDefinition("x", Integer, "X", Lower)];
      var data := map["x" := Obj(map["value" := Int(5)])];
      DataErrors(fields, data) != [] &&
      DataErrors(fields, NormalizeFields(fields, data)) == []
  {
    var fields := [FieldDefinition("x", Integer, "X", Lower)];
    var data := map["x" := Obj(map["value" := Int(5)])];
    assert fields[..0] == [];
    assert NormalizeFields(fields, data) == map["x" := Int(5)];
  }
}
