/** The product schema: typed fields and the metrics computed from them. */
module Schema {
  import opened Wrappers

  /** The four value types a field may declare. */
  datatype FieldType = Text | Integer | Decimal | Boolean

  /** Which way a comparison favours: a lower value is better, or a higher one. */
  datatype Direction = Lower | Higher

  /** One product field. `unit` defaults to none and `required` to true. */
  datatype FieldDefinition = FieldDefinition(
    name: string,
    fieldType: FieldType,
    displayLabel: string,
    compareDirection: Direction,
    unit: Option<string> := None,
    required: bool := true)

  /** A metric computed by a formula over field values; `format` is optional. */
  datatype MetricDefinition = MetricDefinition(
    name: string,
    formula: string,
    displayLabel: string,
    compareDirection: Direction,
    format: Option<string> := None)

  /** A schema: its fields and its metrics, which default to none. A missing metric
      list and an empty one behave alike everywhere, so both are the empty sequence. */
  datatype ProductSchema = ProductSchema(
    fields: seq<FieldDefinition>,
    metrics: seq<MetricDefinition> := [])

  /** `integer` and `decimal` fields are the numeric ones. */
  predicate IsNumeric(t: FieldType) {
    t == Integer || t == Decimal
  }

  function FieldNames(fields: seq<FieldDefinition>): (names: seq<string>)
    ensures |names| == |fields|
    ensures forall i :: 0 <= i < |fields| ==> names[i] == fields[i].name
  {
    seq(|fields|, i requires 0 <= i < |fields| => fields[i].name)
  }

  function MetricNames(metrics: seq<MetricDefinition>): (names: seq<string>)
    ensures |names| == |metrics|
    ensures forall i :: 0 <= i < |metrics| ==> names[i] == metrics[i].name
  {
    seq(|metrics|, i requires 0 <= i < |metrics| => metrics[i].name)
  }

  /** No field name appears twice. */
  predicate UniqueFieldNames(fields: seq<FieldDefinition>) {
    forall i, j :: 0 <= i < j < |fields| ==> fields[i].name != fields[j].name
  }

  /** The defaults a field, a metric and a schema take when they are left unset. */
  lemma Defaults(name: string, t: FieldType, displayLabel: string, d: Direction, formula: string)
    ensures FieldDefinition(name, t, displayLabel, d).unit == None
    ensures FieldDefinition(name, t, displayLabel, d).required
    ensures MetricDefinition(name, formula, displayLabel, d).format == None
    ensures ProductSchema([FieldDefinition(name, t, displayLabel, d)]).metrics == []
  {
  }
}
