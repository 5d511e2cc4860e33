/** The post-extraction pipeline of the AI extractor: once the language model has answered
    with a loosely typed record, every schema field is read (a bare number, a
    `{value, unit}` object or a unit-bearing string), converted to the schema's unit,
    coerced to the field's type, swept by a defensive cleanup pass, normalised, and the
    product name captured beforehand is put back. */
module Extractor {
  import opened Wrappers
  import opened Text
  import opened Values
  import opened Schema
  import opened UnitConverter
  import opened ConversionRoundTrip
  import opened SchemaValidator

  // ---------------------------------------------------------------------------------
  // Reading one field

  /** `None`, "null" and "none" are left for normalisation. */
  predicate SkipValue(v: RawValue) {
    v.Null? || v == Str("null") || v == Str("none")
  }

  /** The schema declares a unit, and it is non-empty. */
  predicate HasSchemaUnit(f: FieldDefinition) {
    f.unit.Some? && f.unit.value != ""
  }

  /** `field.unit` as a value: the unit string or `None`. */
  function UnitOf(f: FieldDefinition): (r: RawValue)
    ensures r.Null? || r.Str?
  {
    match f.unit
    case Some(u) => Str(u)
    case None => Null
  }

  /** A price-like field: named "price" in any case, or with the unit USD or CURRENCY in
      any case. */
  predicate IsPriceLike(f: FieldDefinition) {
    ToLower(f.name) == "price" || (HasSchemaUnit(f) && ToUpper(f.unit.value) in {"USD", "CURRENCY"})
  }

  /** A price string with "$", ",", "€" and "£" removed, then stripped. */
  function PriceText(s: string): (r: string)
    ensures '$' !in r && ',' !in r && '€' !in r && '£' !in r
  {
    var a := ReplaceAll(s, "$", "");
    var b := ReplaceAll(a, ",", "");
    var c := ReplaceAll(b, "€", "");
    var d := ReplaceAll(c, "£", "");
    ReplaceCharRemoves(s, '$', "", '$');
    ReplaceCharRemoves(a, ',', "", '$');
    ReplaceCharRemoves(a, ',', "", ',');
    ReplaceCharRemoves(b, '€', "", '$');
    ReplaceCharRemoves(b, '€', "", ',');
    ReplaceCharRemoves(b, '€', "", '€');
    ReplaceCharRemoves(c, '£', "", '$');
    ReplaceCharRemoves(c, '£', "", ',');
    ReplaceCharRemoves(c, '£', "", '€');
    ReplaceCharRemoves(c, '£', "", '£');
    StripShape(d);
    var t := Strip(d);
    var k :| OccursAt(d, t, k);
    assert forall j :: 0 <= j < |t| ==> t[j] == d[k + j];
    t
  }

  /** `float(v) if field.type == "decimal" else int(v)`; none where that raises. */
  function TypedNumber(t: FieldType, v: RawValue): (r: Option<RawValue>)
    ensures r.Some? ==> (if t == Decimal then r.value.Real? else r.value.Int?)
    ensures IsNumber(v) ==> r.Some?
  {
    if t == Decimal then
      match PyFloat(v)
      case Some(x) => Some(Real(x))
      case None => None
    else
      match PyInt(v)
      case Some(i) => Some(Int(i))
      case None => None
  }

  /** A number read from a field, with the unit it came with (any value an object holds
      under "unit"). */
  datatype Extraction = Extraction(value: RawValue, unit: RawValue)

  /** What the first pass makes of a field's value: leave it as it is (the source's
      `continue`), no value could be read, or a number and its unit. */
  datatype Reading = Untouched | Unreadable | Read(x: Extraction)

  /** The first digit run of a string, a decimal run for decimal fields. */
  function NumberMatch(t: FieldType, s: string): (r: Option<string>)
    ensures r.None? <==> forall j :: 0 <= j < |s| ==> !IsDigit(s[j])
  {
    if t == Decimal then FirstDecimalRun(s) else FirstDigitRun(s)
  }

  /** Reading a value that is not skipped: a bare number is taken in the schema unit; an
      object gives its value, coerced, and its unit; a price-like string is parsed once
      its currency marks are gone, in the schema unit or USD; any other string gives its
      first number and the unit that follows it, or the schema unit. */
  function ReadValue(f: FieldDefinition, v: RawValue): (r: Reading)
    ensures r.Read? ==> r.x.value.Int? || r.x.value.Real?
    ensures r.Read? && f.fieldType == Decimal ==> r.x.value.Real?
    ensures r.Unreadable? ==> v.Obj? || v.Null?
  {
    if IsNumber(v) then
      Read(Extraction(TypedNumber(f.fieldType, v).value, UnitOf(f)))
    else if IsValueObject(v) then
      var inner := v.fields["value"];
      var unit := Get(v.fields, "unit");
      if inner.Null? then Unreadable
      else
        match TypedNumber(f.fieldType, inner)
        case None => Untouched
        case Some(x) => Read(Extraction(x, unit))
    else if v.Str? then
      ReadText(f, Strip(v.s))
    else
      Unreadable
  }

  /** Reading a stripped string: a price-like field parses it once its currency marks
      are gone, in the schema unit or USD; any other field takes its first number and
      the unit that follows it, or the schema unit. */
  function ReadText(f: FieldDefinition, valueStr: string): (r: Reading)
    ensures r.Read? ==> r.x.value.Int? || r.x.value.Real?
    ensures r.Read? && f.fieldType == Decimal ==> r.x.value.Real?
    ensures r != Unreadable
  {
    if IsPriceLike(f) then
      match ParseFloatText(PriceText(valueStr))
      case None => Untouched
      case Some(p) => Read(Extraction(Real(p), Str(if HasSchemaUnit(f) then f.unit.value else "USD")))
    else
      match NumberMatch(f.fieldType, valueStr)
      case None => Untouched
      case Some(run) =>
        match TypedNumber(f.fieldType, Str(run))
        case None => Untouched
        case Some(x) => Read(Extraction(x, TextUnit(f, valueStr)))
  }

  /** The unit a string names after its number, or else the schema unit. */
  function TextUnit(f: FieldDefinition, valueStr: string): (r: RawValue)
    ensures r.Null? || r.Str?
  {
    match ExtractUnitFromString(valueStr)
    case Some(u) => Str(u)
    case None => UnitOf(f)
  }

  // ---------------------------------------------------------------------------------
  // Unit conversion and the stored value

  /** `float(x)` for a number read from a field. */
  function AsReal(x: RawValue): real
    requires x.Int? || x.Real?
  {
    if x.Int? then x.i as real else x.r
  }

  /** The three conditions for a conversion: the schema has a unit, the extracted unit
      normalises to something, the two differ, and the table relates them. */
  predicate ConversionApplies(f: FieldDefinition, extractedUnit: string) {
    HasSchemaUnit(f) && extractedUnit != "" &&
    extractedUnit != NormalizeUnit(f.unit.value) &&
    AreUnitsCompatible(extractedUnit, NormalizeUnit(f.unit.value))
  }

  /** The value after unit conversion. Normalising a unit that is neither false nor a
      string raises, and the error escapes the whole extraction. */
  function Reconcile(f: FieldDefinition, x: Extraction): (r: Result<RawValue, UnitError>)
    requires x.value.Int? || x.value.Real?
    ensures r.Failure? <==> Truthy(x.unit) && !x.unit.Str?
    ensures r.Success? ==> r.value.Int? || r.value.Real?
    ensures r.Success? && r.value != x.value ==>
      r.value.Real? && ConversionApplies(f, NormalizeUnitValue(x.unit).value)
  {
    match NormalizeUnitValue(x.unit)
    case Failure(e) => Failure(e)
    case Success(extractedUnit) =>
      if ConversionApplies(f, extractedUnit) then
        match Convert(AsReal(x.value), extractedUnit, NormalizeUnit(f.unit.value))
        case Some(c) => Success(Real(c))
        case None => Success(x.value)
      else Success(x.value)
  }

  /** A converted value converts back to the value that was read. */
  lemma ReconcileRoundTrip(f: FieldDefinition, x: Extraction)
    requires x.value.Int? || x.value.Real?
    requires Reconcile(f, x).Success?
    requires ConversionApplies(f, NormalizeUnitValue(x.unit).value)
    ensures Reconcile(f, x).value.Real?
    ensures Convert(Reconcile(f, x).value.r, NormalizeUnit(f.unit.value),
                    NormalizeUnitValue(x.unit).value) == Some(AsReal(x.value))
  {
    var u := NormalizeUnitValue(x.unit).value;
    var s := NormalizeUnit(f.unit.value);
    ReconcileConverts(f, x);
    ConvertRoundTrip(AsReal(x.value), u, s);
  }

  /** Where a conversion applies, the value stored is the converted one. */
  lemma ReconcileConverts(f: FieldDefinition, x: Extraction)
    requires x.value.Int? || x.value.Real?
    requires NormalizeUnitValue(x.unit).Success?
    requires ConversionApplies(f, NormalizeUnitValue(x.unit).value)
    ensures Convert(AsReal(x.value), NormalizeUnitValue(x.unit).value, NormalizeUnit(f.unit.value)).Some?
    ensures Reconcile(f, x) == Success(Real(
      Convert(AsReal(x.value), NormalizeUnitValue(x.unit).value, NormalizeUnit(f.unit.value)).value))
  {
  }

  /** A unit that normalises to the schema's own unit never converts. */
  lemma SchemaUnitNeverConverts(f: FieldDefinition, x: Extraction)
    requires x.value.Int? || x.value.Real?
    requires x.unit.Null? || x.unit.Str?
    requires !HasSchemaUnit(f) || x.unit.Null? || x.unit == Str("") || x.unit == Str(f.unit.value)
    ensures Reconcile(f, x) == Success(x.value)
  {
  }

  /** The stored value: a float for decimal fields, an int for integer fields, and the
      number as it is for the others. */
  function FinalValue(t: FieldType, x: RawValue): (r: Option<RawValue>)
    requires x.Int? || x.Real?
    ensures r.Some?
    ensures r.value.Int? || r.value.Real?
    ensures t == Decimal ==> r.value == Real(AsReal(x))
    ensures t == Integer ==> r.value.Int?
    ensures t != Decimal && t != Integer ==> r.value == x
  {
    if t == Decimal then Some(Real(PyFloat(x).value))
    else if t == Integer then Some(Int(PyInt(x).value))
    else Some(x)
  }

  /** One step of the first pass over the schema's fields. */
  function PreprocessField(f: FieldDefinition, data: Record): (r: Result<Record, UnitError>)
    ensures r.Success? ==> r.value.Keys <= data.Keys
    ensures r.Success? ==> forall k :: k in data && k != f.name ==> k in r.value && r.value[k] == data[k]
    ensures r.Failure? ==> f.name in data && IsValueObject(data[f.name])
  {
    if f.name !in data then Success(data)
    else
      var v := data[f.name];
      if SkipValue(v) then Success(data)
      else
        match ReadValue(f, v)
        case Untouched => Success(data)
        case Unreadable => Success(data - {f.name})
        case Read(x) =>
          match Reconcile(f, x)
          case Failure(e) => Failure(e)
          case Success(y) =>
            match FinalValue(f.fieldType, y)
            case Some(z) => Success(data[f.name := z])
            case None => Success(data - {f.name})
  }

  /** The first pass over a list of fields, in order, stopping at an error. */
  function PreprocessAll(fields: seq<FieldDefinition>, data: Record): (r: Result<Record, UnitError>)
    ensures r.Success? ==> r.value.Keys <= data.Keys
    decreases |fields|
  {
    if fields == [] then Success(data)
    else
      match PreprocessAll(fields[..|fields| - 1], data)
      case Failure(e) => Failure(e)
      case Success(d) => PreprocessField(fields[|fields| - 1], d)
  }

  lemma PreprocessAllStep(fields: seq<FieldDefinition>, data: Record, i: nat)
    requires i < |fields|
    ensures PreprocessAll(fields[..i + 1], data) ==
      match PreprocessAll(fields[..i], data)
      case Failure(e) => Failure(e)
      case Success(d) => PreprocessField(fields[i], d)
  {
    assert fields[..i + 1][..i] == fields[..i];
  }

  /** Reading one value that is not skipped, as the source writes it. */
  method ReadOne(field: FieldDefinition, value: RawValue) returns (reading: Reading)
    requires !SkipValue(value)
    ensures reading == ReadValue(field, value)
  {
    var extractedValue: Option<RawValue> := None;
    var extractedUnit: RawValue := Null;
    if IsNumber(value) {
      extractedValue := TypedNumber(field.fieldType, value);
      extractedUnit := UnitOf(field);
    } else if IsValueObject(value) {
      var inner := value.fields["value"];
      extractedUnit := Get(value.fields, "unit");
      if !inner.Null? {
        var typed := TypedNumber(field.fieldType, inner);
        if typed.None? {
          return Untouched;
        }
        extractedValue := typed;
      }
    } else if value.Str? {
      var valueStr := Strip(value.s);
      if IsPriceLike(field) {
        var price := ParseFloatText(PriceText(valueStr));
        if price.None? {
          return Untouched;
        }
        extractedValue := Some(Real(price.value));
        extractedUnit := Str(if HasSchemaUnit(field) then field.unit.value else "USD");
      } else {
        var numberMatch := NumberMatch(field.fieldType, valueStr);
        if numberMatch.None? {
          return Untouched;
        }
        var typed := TypedNumber(field.fieldType, Str(numberMatch.value));
        if typed.None? {
          return Untouched;
        }
        extractedValue := typed;
        var unitText := ExtractUnitFromString(valueStr);
        extractedUnit := if unitText.Some? then Str(unitText.value) else UnitOf(field);
        assert extractedUnit == TextUnit(field, valueStr);
      }
    }
    if extractedValue.Some? {
      return Read(Extraction(extractedValue.value, extractedUnit));
    }
    return Unreadable;
  }

  /** Unit conversion of a number read from a field, as the source writes it. */
  method ConvertOne(field: FieldDefinition, x: Extraction) returns (r: Result<RawValue, UnitError>)
    requires x.value.Int? || x.value.Real?
    ensures r == Reconcile(field, x)
  {
    var extractedValue := x.value;
    var unitNormalized := NormalizeUnitValue(x.unit);
    if unitNormalized.Failure? {
      return Failure(unitNormalized.error);
    }
    var extractedUnitNormalized := unitNormalized.value;
    ghost var applies := ConversionApplies(field, extractedUnitNormalized);
    if HasSchemaUnit(field) && extractedUnitNormalized != "" {
      var schemaUnitNormalized := NormalizeUnit(field.unit.value);
      if extractedUnitNormalized != schemaUnitNormalized
        && AreUnitsCompatible(extractedUnitNormalized, schemaUnitNormalized)
      {
        assert applies;
        var converted := Convert(AsReal(extractedValue), extractedUnitNormalized, schemaUnitNormalized);
        if converted.Some? {
          extractedValue := Real(converted.value);
        }
        return Success(extractedValue);
      }
    }
    assert !applies;
    return Success(extractedValue);
  }

  /** One step of the first pass, as the source writes it. */
  method PreprocessOne(field: FieldDefinition, data: Record) returns (r: Result<Record, UnitError>)
    ensures r == PreprocessField(field, data)
  {
    if field.name !in data {
      return Success(data);
    }
    var value := data[field.name];
    if value.Null? || value == Str("null") || value == Str("none") {
      return Success(data);
    }
    var reading := ReadOne(field, value);
    if reading.Read? {
      var converted := ConvertOne(field, reading.x);
      if converted.Failure? {
        return Failure(converted.error);
      }
      var finalValue := FinalValue(field.fieldType, converted.value);
      if finalValue.Some? {
        return Success(data[field.name := finalValue.value]);
      }
      return Success(data - {field.name});
    } else if reading.Unreadable? && value.Obj? {
      return Success(data - {field.name});
    }
    return Success(data);
  }

  /** The first pass. */
  method PreprocessFields(data: Record, fields: seq<FieldDefinition>) returns (r: Result<Record, UnitError>)
    ensures r == PreprocessAll(fields, data)
  {
    var current := data;
    var i := 0;
    while i < |fields|
      invariant 0 <= i <= |fields|
      invariant PreprocessAll(fields[..i], data) == Success(current)
    {
      PreprocessAllStep(fields, data, i);
      var step := PreprocessOne(fields[i], current);
      if step.Failure? {
        assert fields[..i + 1] + fields[i + 1..] == fields;
        PreprocessFailureSticks(fields, data, i + 1);
        return step;
      }
      current := step.value;
      i := i + 1;
    }
    assert fields[..i] == fields;
    return Success(current);
  }

  /** Once the first pass has failed, it stays failed. */
  lemma {:induction false} PreprocessFailureSticks(fields: seq<FieldDefinition>, data: Record, i: nat)
    requires i <= |fields| && PreprocessAll(fields[..i], data).Failure?
    ensures PreprocessAll(fields, data) == PreprocessAll(fields[..i], data)
    decreases |fields| - i
  {
    if i < |fields| {
      PreprocessAllStep(fields, data, i);
      PreprocessFailureSticks(fields, data, i + 1);
    } else {
      assert fields[..i] == fields;
    }
  }

  // ---------------------------------------------------------------------------------
  // Properties of the first pass

  /** A skipped value, and a field absent from the record, leave the record as it is. */
  lemma SkippedUntouched(f: FieldDefinition, data: Record)
    requires f.name !in data || SkipValue(data[f.name])
    ensures PreprocessField(f, data) == Success(data)
  {
  }

  /** A value that reads as a number and converts without error is stored, coerced to
      the field's type. */
  lemma StoredAfterRead(f: FieldDefinition, data: Record, x: Extraction, y: RawValue)
    requires f.name in data && !SkipValue(data[f.name])
    requires ReadValue(f, data[f.name]) == Read(x)
    requires Reconcile(f, x) == Success(y)
    ensures PreprocessField(f, data) == Success(data[f.name := FinalValue(f.fieldType, y).value])
  {
  }

  /** A bare number is stored as a float in a decimal field and truncated to an int in
      any other, and is never converted: it is taken to be in the schema unit. */
  lemma BareNumberStored(f: FieldDefinition, data: Record)
    requires f.name in data && IsNumber(data[f.name])
    ensures var v := data[f.name];
      PreprocessField(f, data) ==
        Success(data[f.name := if f.fieldType == Decimal then Real(PyFloat(v).value) else Int(PyInt(v).value)])
  {
    var v := data[f.name];
    var x := Extraction(TypedNumber(f.fieldType, v).value, UnitOf(f));
    assert ReadValue(f, v) == Read(x);
    SchemaUnitNeverConverts(f, x);
    StoredAfterRead(f, data, x, x.value);
  }

  /** An object whose value is null is removed from the record. */
  lemma NullObjectRemoved(f: FieldDefinition, data: Record)
    requires f.name in data && IsValueObject(data[f.name]) && data[f.name].fields["value"].Null?
    ensures PreprocessField(f, data) == Success(data - {f.name})
  {
  }

  /** An object without a value key is removed from the record. */
  lemma ObjectWithoutValueRemoved(f: FieldDefinition, data: Record)
    requires f.name in data && data[f.name].Obj? && "value" !in data[f.name].fields
    ensures PreprocessField(f, data) == Success(data - {f.name})
  {
  }

  /** An object whose value cannot be coerced is left in place. */
  lemma UncoercibleObjectKept(f: FieldDefinition, data: Record)
    requires f.name in data && IsValueObject(data[f.name])
    requires !data[f.name].fields["value"].Null?
    requires TypedNumber(f.fieldType, data[f.name].fields["value"]).None?
    ensures PreprocessField(f, data) == Success(data)
  {
  }

  /** An object's value is coerced, and its own unit decides the conversion. */
  lemma ObjectUsesItsUnit(f: FieldDefinition, data: Record)
    requires f.name in data && IsValueObject(data[f.name])
    requires TypedNumber(f.fieldType, data[f.name].fields["value"]).Some?
    requires !data[f.name].fields["value"].Null?
    ensures var o := data[f.name].fields;
      var x := Extraction(TypedNumber(f.fieldType, o["value"]).value, Get(o, "unit"));
      PreprocessField(f, data) ==
        match Reconcile(f, x)
        case Failure(e) => Failure(e)
        case Success(y) => Success(data[f.name := FinalValue(f.fieldType, y).value])
  {
    var o := data[f.name].fields;
    assert ReadValue(f, data[f.name]) ==
      Read(Extraction(TypedNumber(f.fieldType, o["value"]).value, Get(o, "unit")));
  }

  /** A price-like string that parses is stored as its amount and never converted: its
      unit is the schema's own, or USD when the schema has none, and then nothing is
      converted either. */
  lemma PriceNeverConverted(f: FieldDefinition, data: Record)
    requires f.name in data && data[f.name].Str? && !SkipValue(data[f.name])
    requires IsPriceLike(f)
    requires ParseFloatText(PriceText(Strip(data[f.name].s))).Some?
    ensures var p := ParseFloatText(PriceText(Strip(data[f.name].s))).value;
      PreprocessField(f, data) == Success(data[f.name := FinalValue(f.fieldType, Real(p)).value])
  {
    var v := data[f.name];
    var p := ParseFloatText(PriceText(Strip(v.s))).value;
    var unit := Str(if HasSchemaUnit(f) then f.unit.value else "USD");
    var x := Extraction(Real(p), unit);
    assert ReadValue(f, v) == Read(x);
    SchemaUnitNeverConverts(f, x);
    StoredAfterRead(f, data, x, x.value);
  }

  /** In a field without a schema unit, any other string with a digit becomes its first
      number, whatever the field's type: a text field holding "EU2200i" gets 2200. */
  lemma StringReducedToNumber(f: FieldDefinition, data: Record)
    requires f.name in data && data[f.name].Str? && !SkipValue(data[f.name])
    requires !IsPriceLike(f) && f.unit.None? && f.fieldType != Decimal
    requires FirstDigitRun(Strip(data[f.name].s)).Some?
    ensures PreprocessField(f, data) ==
      Success(data[f.name := Int(DigitsValue(FirstDigitRun(Strip(data[f.name].s)).value) as int)])
  {
    var v := data[f.name];
    var valueStr := Strip(v.s);
    var run := FirstDigitRun(valueStr).value;
    var x := Extraction(Int(DigitsValue(run) as int), TextUnit(f, valueStr));
    DigitRunRead(f, valueStr);
    assert ReadValue(f, v) == ReadText(f, valueStr);
    SchemaUnitNeverConverts(f, x);
    StoredAfterRead(f, data, x, x.value);
    FinalOfInt(f.fieldType, DigitsValue(run) as int);
  }

  lemma FinalOfInt(t: FieldType, n: int)
    requires t != Decimal
    ensures FinalValue(t, Int(n)) == Some(Int(n))
  {
  }

  lemma DigitRunRead(f: FieldDefinition, valueStr: string)
    requires !IsPriceLike(f) && f.fieldType != Decimal && FirstDigitRun(valueStr).Some?
    ensures ReadText(f, valueStr) ==
      Read(Extraction(Int(DigitsValue(FirstDigitRun(valueStr).value) as int), TextUnit(f, valueStr)))
  {
    var run := FirstDigitRun(valueStr).value;
    DigitRunParsesInt(run);
    assert NumberMatch(f.fieldType, valueStr) == Some(run);
    assert TypedNumber(f.fieldType, Str(run)) == Some(Int(DigitsValue(run) as int));
  }

  /** The same for a decimal field: the first decimal run's value. */
  lemma StringReducedToDecimal(f: FieldDefinition, data: Record)
    requires f.name in data && data[f.name].Str? && !SkipValue(data[f.name])
    requires !IsPriceLike(f) && f.unit.None? && f.fieldType == Decimal
    requires FirstDecimalRun(Strip(data[f.name].s)).Some?
    ensures PreprocessField(f, data) ==
      Success(data[f.name := Real(DecimalRunValue(FirstDecimalRun(Strip(data[f.name].s)).value))])
  {
    var v := data[f.name];
    var valueStr := Strip(v.s);
    var run := FirstDecimalRun(valueStr).value;
    var x := Extraction(Real(DecimalRunValue(run)), TextUnit(f, valueStr));
    DecimalRunRead(f, valueStr);
    assert ReadValue(f, v) == ReadText(f, valueStr);
    SchemaUnitNeverConverts(f, x);
    StoredAfterRead(f, data, x, x.value);
  }

  lemma DecimalRunRead(f: FieldDefinition, valueStr: string)
    requires !IsPriceLike(f) && f.fieldType == Decimal && FirstDecimalRun(valueStr).Some?
    ensures ReadText(f, valueStr) ==
      Read(Extraction(Real(DecimalRunValue(FirstDecimalRun(valueStr).value)), TextUnit(f, valueStr)))
  {
    var run := FirstDecimalRun(valueStr).value;
    DecimalRunTyped(run);
    assert NumberMatch(Decimal, valueStr) == Some(run);
  }

  lemma DecimalRunTyped(run: string)
    requires IsDecimalRun(run)
    ensures TypedNumber(Decimal, Str(run)) == Some(Real(DecimalRunValue(run)))
  {
    DecimalRunParses(run);
    PyFloatText(run, DecimalRunValue(run));
  }

  /** A model number such as "EU2200i" in a text field: the value stored is the number
      2200, not text. */
  lemma ModelNumberBecomesDigits(data: Record)
    requires "model" in data && data["model"].Str? && IsModelNumber(data["model"].s)
    ensures PreprocessField(FieldDefinition("model", Text, "Model", Higher, None, false), data) ==
      Success(data["model" := Int(2200)])
  {
    var f := FieldDefinition("model", Text, "Model", Higher, None, false);
    ModelNumberRun(data["model"].s);
    FourDigitsValue();
    assert ToLower("model") == "model";
    StringReducedToNumber(f, data);
  }

  /** The seven characters "EU2200i", spelt out so that the prover reasons about them
      one position at a time. */
  predicate IsModelNumber(s: string) {
    |s| == 7 && s[0] == 'E' && s[1] == 'U' && s[2] == '2' && s[3] == '2' && s[4] == '0'
    && s[5] == '0' && s[6] == 'i'
  }

  lemma ModelNumberRun(s: string)
    requires IsModelNumber(s)
    ensures !SkipValue(Str(s))
    ensures FirstDigitRun(Strip(s)) == Some("2200")
  {
    StripNoEdgeSpace(s);
    var i := FirstDigitIndex(s);
    assert !IsDigit(s[0]) && !IsDigit(s[1]) && IsDigit(s[2]);
    assert i == 2;
    assert AllDigits(s[2..6]);
    DigitRunExact(s, 2, 4);
    assert s[2..6] == "2200";
  }

  lemma FourDigitsValue()
    ensures DigitsValue("2200") == 2200
  {
    assert "2200"[..3] == "220" && "220"[..2] == "22" && "22"[..1] == "2" && "2"[..0] == [];
  }

  /** A stored value is always a number; only an object can make the pass fail. */
  lemma ReadStoresNumber(f: FieldDefinition, data: Record)
    requires PreprocessField(f, data).Success?
    requires f.name in PreprocessField(f, data).value
    requires f.name in data && PreprocessField(f, data).value[f.name] != data[f.name]
    ensures var w := PreprocessField(f, data).value[f.name]; w.Int? || w.Real?
    ensures f.fieldType == Decimal ==> PreprocessField(f, data).value[f.name].Real?
    ensures f.fieldType == Integer ==> PreprocessField(f, data).value[f.name].Int?
  {
  }

  // ---------------------------------------------------------------------------------
  // The cleanup pass

  /** The second pass's step: an object left over becomes its coerced value, or null; a
      string left in a numeric field becomes its first number, or null. */
  function CleanupField(f: FieldDefinition, data: Record): (r: Record)
    ensures r.Keys == data.Keys
    ensures forall k :: k in data && k != f.name ==> r[k] == data[k]
  {
    if f.name !in data then data
    else
      var v := data[f.name];
      if v.Obj? then
        if "value" in v.fields then
          match TypedNumber(f.fieldType, v.fields["value"])
          case Some(x) => data[f.name := x]
          case None => data[f.name := Null]
        else data[f.name := Null]
      else if v.Str? && IsNumeric(f.fieldType) then
        match NumberMatch(f.fieldType, v.s)
        case None => data[f.name := Null]
        case Some(run) =>
          match TypedNumber(f.fieldType, Str(run))
          case Some(x) => data[f.name := x]
          case None => data[f.name := Null]
      else data
  }

  function CleanupAll(fields: seq<FieldDefinition>, data: Record): (r: Record)
    ensures r.Keys == data.Keys
    decreases |fields|
  {
    if fields == [] then data
    else CleanupField(fields[|fields| - 1], CleanupAll(fields[..|fields| - 1], data))
  }

  /** One step of the second pass. */
  method CleanupOne(field: FieldDefinition, data: Record) returns (cleaned: Record)
    ensures cleaned == CleanupField(field, data)
  {
    cleaned := data;
    if field.name in data {
      var value := data[field.name];
      if value.Obj? {
        if "value" in value.fields {
          var typed := TypedNumber(field.fieldType, value.fields["value"]);
          cleaned := data[field.name := if typed.Some? then typed.value else Null];
        } else {
          cleaned := data[field.name := Null];
        }
      } else if value.Str? && (field.fieldType == Integer || field.fieldType == Decimal) {
        var numberMatch := NumberMatch(field.fieldType, value.s);
        if numberMatch.Some? {
          var typed := TypedNumber(field.fieldType, Str(numberMatch.value));
          cleaned := data[field.name := if typed.Some? then typed.value else Null];
        } else {
          cleaned := data[field.name := Null];
        }
      }
    }
  }

  /** The second pass. */
  method CleanupFields(data: Record, fields: seq<FieldDefinition>) returns (cleaned: Record)
    ensures cleaned == CleanupAll(fields, data)
  {
    cleaned := data;
    var i := 0;
    while i < |fields|
      invariant 0 <= i <= |fields|
      invariant cleaned == CleanupAll(fields[..i], data)
    {
      assert fields[..i + 1][..i] == fields[..i];
      cleaned := CleanupOne(fields[i], cleaned);
      i := i + 1;
    }
    assert fields[..i] == fields;
  }

  /** A field's value is neither an object nor, in a numeric field, a string. */
  predicate CleanAt(f: FieldDefinition, data: Record) {
    f.name in data ==> !data[f.name].Obj? && (IsNumeric(f.fieldType) ==> !data[f.name].Str?)
  }

  /** A cleanup step makes its own field clean and keeps every clean field clean. */
  lemma CleanupFieldClean(f: FieldDefinition, g: FieldDefinition, data: Record)
    requires CleanAt(g, data) || g == f
    ensures CleanAt(g, CleanupField(f, data))
  {
  }

  /** After the cleanup pass no schema field holds an object and no numeric field holds
      a string. */
  lemma {:induction false} CleanupLeavesNoObjects(fields: seq<FieldDefinition>, data: Record)
    ensures forall i :: 0 <= i < |fields| ==> CleanAt(fields[i], CleanupAll(fields, data))
    decreases |fields|
  {
    if fields != [] {
      var n := |fields| - 1;
      var init := fields[..n];
      CleanupLeavesNoObjects(init, data);
      var before := CleanupAll(init, data);
      forall i | 0 <= i < |fields| ensures CleanAt(fields[i], CleanupAll(fields, data)) {
        if i < n {
          assert init[i] == fields[i];
        }
        CleanupFieldClean(fields[n], fields[i], before);
      }
    }
  }

  // ---------------------------------------------------------------------------------
  // The whole pipeline

  /** The values a captured name may not have. */
  predicate IsPlaceholderName(v: RawValue) {
    v.Str? && v.s in {"null", "none", "unknown", "n/a"}
  }

  /** Putting the name back: a truthy captured name that is not a placeholder is stored
      as text, trimmed; otherwise, when the record has no truthy name, a title longer
      than five characters found in the page (an input here) is used. */
  function RestoreName(nameValue: RawValue, normalized: Record, pageTitle: Option<string>): (r: Record)
    ensures forall k :: k != "name" ==> (k in r <==> k in normalized) && (k in r ==> r[k] == normalized[k])
    ensures Truthy(nameValue) && !IsPlaceholderName(nameValue) ==>
      r == normalized["name" := Str(Strip(PyStr(nameValue)))]
    ensures !(Truthy(nameValue) && !IsPlaceholderName(nameValue)) && Truthy(Get(normalized, "name")) ==>
      r == normalized
  {
    if Truthy(nameValue) && !IsPlaceholderName(nameValue) then
      normalized["name" := Str(Strip(PyStr(nameValue)))]
    else if !Truthy(Get(normalized, "name")) then
      match pageTitle
      case Some(title) =>
        if title != "" && |title| > 5 then normalized["name" := Str(title)] else normalized
      case None => normalized
    else normalized
  }

  /** The pipeline: the two passes, normalisation, and the name. */
  function PostProcessResult(extracted: Record, schema: ProductSchema, pageTitle: Option<string>): Result<Record, UnitError> {
    match PreprocessAll(schema.fields, extracted)
    case Failure(e) => Failure(e)
    case Success(d) =>
      Success(RestoreName(Get(extracted, "name"),
                          NormalizeFields(schema.fields, CleanupAll(schema.fields, d)), pageTitle))
  }

  /** The post-response part of `extract_from_content`; `pageTitle` is the product title
      read from the page's HTML, if any. */
  method PostProcess(extracted: Record, schema: ProductSchema, pageTitle: Option<string>)
    returns (r: Result<Record, UnitError>)
    ensures r == PostProcessResult(extracted, schema, pageTitle)
  {
    var nameValue := Get(extracted, "name");
    var preprocessed := PreprocessFields(extracted, schema.fields);
    if preprocessed.Failure? {
      return Failure(preprocessed.error);
    }
    var cleaned := CleanupFields(preprocessed.value, schema.fields);
    var normalized := NormalizeData(cleaned, schema);
    return Success(RestoreName(nameValue, normalized, pageTitle));
  }

  /** The first pass only removes keys, so the schema fields present after it were
      present before. */
  lemma PresentNamesShrink(fields: seq<FieldDefinition>, a: Record, b: Record)
    requires b.Keys <= a.Keys
    ensures PresentNames(fields, b) <= PresentNames(fields, a)
  {
  }

  /** The output holds only schema fields that were in the extracted record, and "name". */
  lemma PostProcessKeys(extracted: Record, schema: ProductSchema, pageTitle: Option<string>)
    requires PostProcessResult(extracted, schema, pageTitle).Success?
    ensures PostProcessResult(extracted, schema, pageTitle).value.Keys <=
      PresentNames(schema.fields, extracted) + {"name"}
  {
    var d := PreprocessAll(schema.fields, extracted).value;
    var cleaned := CleanupAll(schema.fields, d);
    NormalizeKeys(schema.fields, cleaned);
    PresentNamesShrink(schema.fields, extracted, cleaned);
  }

  /** A captured name that is truthy and not a placeholder ends up in the output,
      trimmed, even when the schema has no "name" field. */
  lemma NameRestored(extracted: Record, schema: ProductSchema, pageTitle: Option<string>)
    requires PostProcessResult(extracted, schema, pageTitle).Success?
    requires "name" in extracted && Truthy(extracted["name"]) && !IsPlaceholderName(extracted["name"])
    ensures PostProcessResult(extracted, schema, pageTitle).value["name"] ==
      Str(Strip(PyStr(extracted["name"])))
  {
  }

  /** With distinct field names, every schema field other than "name" in the output is
      null (for a required field) or a value of its type. */
  lemma PostProcessTyped(extracted: Record, schema: ProductSchema, pageTitle: Option<string>, i: nat)
    requires UniqueFieldNames(schema.fields) && i < |schema.fields|
    requires PostProcessResult(extracted, schema, pageTitle).Success?
    requires schema.fields[i].name != "name"
    requires schema.fields[i].name in PostProcessResult(extracted, schema, pageTitle).value
    ensures var v := PostProcessResult(extracted, schema, pageTitle).value[schema.fields[i].name];
      (v.Null? && schema.fields[i].required) || HasType(schema.fields[i].fieldType, v)
  {
    var d := PreprocessAll(schema.fields, extracted).value;
    NormalizeTyped(schema.fields, CleanupAll(schema.fields, d), i);
  }
}
