/** `ComparatorService.compare`: a user product and a competitor product are compared
    field by field and metric by metric. Each comparable field or metric gets an entry
    saying who is ahead and whether the user should be alerted. */
module Comparator {
  import opened Wrappers
  import opened Values
  import opened Schema
  import opened MetricCalculator

  /** Who a comparison favours; `Different` is for text and boolean values that differ. */
  datatype Advantage = User | Competitor | Equal | Different

  /** A red alert flags a field the competitor wins where lower is better; a yellow one
      flags every other competitor win. */
  datatype Alert = Red | Yellow

  /** The entry for one field: both raw values, the numeric difference when there is one,
      the advantage and the alert. */
  datatype FieldComparison = FieldComparison(
    user: RawValue,
    competitor: RawValue,
    difference: Option<real>,
    advantage: Advantage,
    alert: Option<Alert>)

  /** The entry for one metric: both computed values, their difference, the advantage and
      the alert. */
  datatype MetricComparison = MetricComparison(
    user: real,
    competitor: real,
    difference: real,
    advantage: Advantage,
    alert: Option<Alert>)

  /** The result of `compare`: the `fields` and `metrics` dictionaries. */
  datatype Comparison = Comparison(
    fields: map<string, FieldComparison>,
    metrics: map<string, MetricComparison>)

  /** The competitor is strictly better than the user in direction `d`. */
  predicate Beats(d: Direction, winner: real, loser: real) {
    if d == Lower then winner < loser else winner > loser
  }

  /** Who is ahead between numbers `u` (user) and `c` (competitor) in direction `d`, and
      the alert a competitor win raises, which is `win`. */
  function Verdict(d: Direction, u: real, c: real, win: Alert): (r: (Advantage, Option<Alert>))
    ensures r.0 == Competitor <==> Beats(d, c, u)
    ensures r.0 == User <==> Beats(d, u, c)
    ensures r.0 == Equal <==> c == u
    ensures r.0 != Different
    ensures r.1 == (if r.0 == Competitor then Some(win) else None)
  {
    if Beats(d, c, u) then (Competitor, Some(win))
    else if Beats(d, u, c) then (User, None)
    else (Equal, None)
  }

  /** The alert a field raises when the competitor wins: red where lower is better,
      yellow where higher is better. */
  function FieldAlert(d: Direction): Alert {
    if d == Lower then Red else Yellow
  }

  /** The entry a field gets, or `None` when either record lacks it or holds `None`. */
  function FieldEntry(f: FieldDefinition, user: Record, competitor: Record): (r: Option<FieldComparison>)
    ensures r.None? <==> Get(user, f.name).Null? || Get(competitor, f.name).Null?
    ensures r.Some? ==> r.value.user == Get(user, f.name) && r.value.competitor == Get(competitor, f.name)
    ensures r.Some? && IsNumeric(f.fieldType) ==>
      match (PyFloat(r.value.user), PyFloat(r.value.competitor))
      case (Some(u), Some(c)) =>
        r.value.difference == Some(c - u)
        && (r.value.advantage, r.value.alert) == Verdict(f.compareDirection, u, c, FieldAlert(f.compareDirection))
      case _ => r.value.difference.None? && r.value.advantage == Equal && r.value.alert.None?
    ensures r.Some? && !IsNumeric(f.fieldType) ==>
      r.value.difference.None? && r.value.alert.None?
      && (r.value.advantage == Equal <==> PyEq(r.value.user, r.value.competitor))
      && (r.value.advantage == Different <==> !PyEq(r.value.user, r.value.competitor))
  {
    var uv := Get(user, f.name);
    var cv := Get(competitor, f.name);
    if uv.Null? || cv.Null? then None
    else if IsNumeric(f.fieldType) then
      match (PyFloat(uv), PyFloat(cv))
      case (Some(u), Some(c)) =>
        var (advantage, alert) := Verdict(f.compareDirection, u, c, FieldAlert(f.compareDirection));
        Some(FieldComparison(uv, cv, Some(c - u), advantage, alert))
      case _ => Some(FieldComparison(uv, cv, None, Equal, None))
    else
      Some(FieldComparison(uv, cv, None, if PyEq(uv, cv) then Equal else Different, None))
  }

  /** The `fields` dictionary after the loop has run over `fields`; a later field of the
      same name overwrites an earlier entry. */
  function FieldsFrom(fields: seq<FieldDefinition>, user: Record, competitor: Record): (r: map<string, FieldComparison>)
    ensures forall k :: k in r ==> Get(user, k) != Null && Get(competitor, k) != Null
    decreases |fields|
  {
    if fields == [] then map[]
    else
      var f := fields[|fields| - 1];
      var earlier := FieldsFrom(fields[..|fields| - 1], user, competitor);
      match FieldEntry(f, user, competitor)
      case None => earlier
      case Some(e) => earlier[f.name := e]
  }

  /** The entry a metric gets, or `None` when `calculate_metric` raises on either record.
      Metric values come from the evaluator as written, text substitution included. */
  function MetricEntry(m: MetricDefinition, user: Record, competitor: Record): (r: Option<MetricComparison>)
    ensures r.None? <==> FormulaResult(m.formula, user).Failure? || FormulaResult(m.formula, competitor).Failure?
    ensures r.Some? ==>
      r.value.user == FormulaResult(m.formula, user).value
      && r.value.competitor == FormulaResult(m.formula, competitor).value
      && r.value.difference == r.value.competitor - r.value.user
      && (r.value.advantage, r.value.alert) == Verdict(m.compareDirection, r.value.user, r.value.competitor, Yellow)
  {
    match (FormulaResult(m.formula, user), FormulaResult(m.formula, competitor))
    case (Success(u), Success(c)) =>
      var (advantage, alert) := Verdict(m.compareDirection, u, c, Yellow);
      Some(MetricComparison(u, c, c - u, advantage, alert))
    case _ => None
  }

  /** The `metrics` dictionary after the loop has run over `metrics`. */
  function MetricsFrom(metrics: seq<MetricDefinition>, user: Record, competitor: Record): (r: map<string, MetricComparison>)
    ensures forall k :: k in r ==> r[k].alert != Some(Red)
    decreases |metrics|
  {
    if metrics == [] then map[]
    else
      var m := metrics[|metrics| - 1];
      var earlier := MetricsFrom(metrics[..|metrics| - 1], user, competitor);
      match MetricEntry(m, user, competitor)
      case None => earlier
      case Some(e) => earlier[m.name := e]
  }

  /** What `compare` returns. */
  function CompareSpec(user: Record, competitor: Record, schema: ProductSchema): Comparison {
    Comparison(FieldsFrom(schema.fields, user, competitor), MetricsFrom(schema.metrics, user, competitor))
  }

  /** One pass of the field loop: the entry for `field`, or `None` for `continue`. */
  method CompareField(field: FieldDefinition, user: Record, competitor: Record) returns (entry: Option<FieldComparison>)
    ensures entry == FieldEntry(field, user, competitor)
  {
    var userValue := Get(user, field.name);
    var competitorValue := Get(competitor, field.name);
    if userValue.Null? || competitorValue.Null? {
      return None;
    }
    if IsNumeric(field.fieldType) {
      entry := CompareNumericField(field, user, competitor);
    } else {
      var advantage := if PyEq(userValue, competitorValue) then Equal else Different;
      entry := Some(FieldComparison(userValue, competitorValue, None, advantage, None));
    }
  }

  /** The numeric branch of the field loop: both values through `float()`, then the
      difference and the verdict, or a level entry when either conversion fails. */
  method CompareNumericField(field: FieldDefinition, user: Record, competitor: Record) returns (entry: Option<FieldComparison>)
    requires Get(user, field.name) != Null && Get(competitor, field.name) != Null
    requires IsNumeric(field.fieldType)
    ensures entry == FieldEntry(field, user, competitor)
  {
    var userValue := Get(user, field.name);
    var competitorValue := Get(competitor, field.name);
    var userNum := PyFloat(userValue);
    var competitorNum := PyFloat(competitorValue);
    if userNum.Some? && competitorNum.Some? {
      var u := userNum.value;
      var c := competitorNum.value;
      var advantage, alert := FieldVerdict(field.compareDirection, u, c);
      entry := Some(FieldComparison(userValue, competitorValue, Some(c - u), advantage, alert));
    } else {
      entry := Some(FieldComparison(userValue, competitorValue, None, Equal, None));
    }
  }

  /** The verdict of the field loop: a competitor win raises a red alert where lower is
      better and a yellow one where higher is better. */
  method FieldVerdict(d: Direction, u: real, c: real) returns (advantage: Advantage, alert: Option<Alert>)
    ensures (advantage, alert) == Verdict(d, u, c, FieldAlert(d))
  {
    if d == Lower {
      if c < u {
        advantage, alert := Competitor, Some(Red);
      } else if c > u {
        advantage, alert := User, None;
      } else {
        advantage, alert := Equal, None;
      }
    } else {
      if c > u {
        advantage, alert := Competitor, Some(Yellow);
      } else if c < u {
        advantage, alert := User, None;
      } else {
        advantage, alert := Equal, None;
      }
    }
  }

  /** One pass of the metric loop: the entry for `metric`, or `None` when the `except`
      swallows a failed evaluation. */
  method CompareMetric(metric: MetricDefinition, user: Record, competitor: Record) returns (entry: Option<MetricComparison>)
    ensures entry == MetricEntry(metric, user, competitor)
  {
    var userMetric := CalculateMetric(metric, user);
    var competitorMetric := CalculateMetric(metric, competitor);
    if userMetric.Failure? || competitorMetric.Failure? {
      return None;
    }
    var u := userMetric.value;
    var c := competitorMetric.value;
    var advantage, alert := MetricVerdict(metric.compareDirection, u, c);
    entry := Some(MetricComparison(u, c, c - u, advantage, alert));
  }

  /** The verdict of the metric loop: a metric the competitor wins raises a yellow alert
      whichever way it is compared. */
  method MetricVerdict(d: Direction, u: real, c: real) returns (advantage: Advantage, alert: Option<Alert>)
    ensures (advantage, alert) == Verdict(d, u, c, Yellow)
  {
    if d == Lower {
      if c < u {
        advantage, alert := Competitor, Some(Yellow);
      } else if c > u {
        advantage, alert := User, None;
      } else {
        advantage, alert := Equal, None;
      }
    } else {
      if c > u {
        advantage, alert := Competitor, Some(Yellow);
      } else if c < u {
        advantage, alert := User, None;
      } else {
        advantage, alert := Equal, None;
      }
    }
  }

  /** The field loop of `compare`. */
  method CompareFields(user: Record, competitor: Record, schema: ProductSchema) returns (fields: map<string, FieldComparison>)
    ensures fields == FieldsFrom(schema.fields, user, competitor)
  {
    fields := map[];
    var i := 0;
    while i < |schema.fields|
      invariant i <= |schema.fields|
      invariant fields == FieldsFrom(schema.fields[..i], user, competitor)
    {
      var field := schema.fields[i];
      assert schema.fields[..i + 1][..i] == schema.fields[..i];
      var entry := CompareField(field, user, competitor);
      if entry.Some? {
        fields := fields[field.name := entry.value];
      }
      i := i + 1;
    }
    assert schema.fields[..i] == schema.fields;
  }

  /** The metric loop of `compare`. */
  method CompareMetrics(user: Record, competitor: Record, schema: ProductSchema) returns (metrics: map<string, MetricComparison>)
    ensures metrics == MetricsFrom(schema.metrics, user, competitor)
  {
    metrics := map[];
    var j := 0;
    while j < |schema.metrics|
      invariant j <= |schema.metrics|
      invariant metrics == MetricsFrom(schema.metrics[..j], user, competitor)
    {
      var metric := schema.metrics[j];
      MetricsFromStep(schema.metrics, j, user, competitor);
      var entry := CompareMetric(metric, user, competitor);
      if entry.Some? {
        metrics := metrics[metric.name := entry.value];
      }
      j := j + 1;
    }
    assert schema.metrics[..j] == schema.metrics;
  }

  /** One more metric adds its entry, when it has one, to the metrics before it. */
  lemma MetricsFromStep(metrics: seq<MetricDefinition>, j: nat, user: Record, competitor: Record)
    requires j < |metrics|
    ensures MetricsFrom(metrics[..j + 1], user, competitor) ==
      match MetricEntry(metrics[j], user, competitor)
      case None => MetricsFrom(metrics[..j], user, competitor)
      case Some(e) => MetricsFrom(metrics[..j], user, competitor)[metrics[j].name := e]
  {
    assert metrics[..j + 1][..j] == metrics[..j];
  }

  /** `compare`: the field loop, then the metric loop. */
  method Compare(user: Record, competitor: Record, schema: ProductSchema) returns (comparison: Comparison)
    ensures comparison == CompareSpec(user, competitor, schema)
  {
    var fields := CompareFields(user, competitor, schema);
    var metrics := CompareMetrics(user, competitor, schema);
    comparison := Comparison(fields, metrics);
  }

  /** A field name has an entry iff the schema has a field of that name and neither
      record lacks it or holds `None`. */
  lemma {:induction false} FieldPresence(fields: seq<FieldDefinition>, user: Record, competitor: Record, k: string)
    ensures k in FieldsFrom(fields, user, competitor) <==>
      k in FieldNames(fields) && Get(user, k) != Null && Get(competitor, k) != Null
    decreases |fields|
  {
    if fields != [] {
      var n := |fields| - 1;
      FieldPresence(fields[..n], user, competitor, k);
      FieldNamesLast(fields, k);
      FieldsFromLast(fields, user, competitor, k);
    }
  }

  lemma FieldNamesLast(fields: seq<FieldDefinition>, k: string)
    requires fields != []
    ensures k in FieldNames(fields) <==>
      k in FieldNames(fields[..|fields| - 1]) || k == fields[|fields| - 1].name
  {
    var n := |fields| - 1;
    var all, earlier := FieldNames(fields), FieldNames(fields[..n]);
    if k in all {
      var i :| 0 <= i < |all| && all[i] == k;
      if i < n {
        assert earlier[i] == k;
      }
    }
    if k in earlier {
      var i :| 0 <= i < |earlier| && earlier[i] == k;
      assert all[i] == k;
    }
    if k == fields[n].name {
      assert all[n] == k;
    }
  }

  /** The last field adds its own name, exactly when it has an entry. */
  lemma FieldsFromLast(fields: seq<FieldDefinition>, user: Record, competitor: Record, k: string)
    requires fields != []
    ensures var f := fields[|fields| - 1];
      k in FieldsFrom(fields, user, competitor) <==>
        k in FieldsFrom(fields[..|fields| - 1], user, competitor)
        || (k == f.name && Get(user, k) != Null && Get(competitor, k) != Null)
  {
  }

  /** With unique field names, each present field's entry is the one `FieldEntry` gives it. */
  lemma FieldEntryOf(fields: seq<FieldDefinition>, user: Record, competitor: Record, i: nat)
    requires UniqueFieldNames(fields) && i < |fields|
    requires FieldEntry(fields[i], user, competitor).Some?
    ensures fields[i].name in FieldsFrom(fields, user, competitor)
    ensures FieldsFrom(fields, user, competitor)[fields[i].name] == FieldEntry(fields[i], user, competitor).value
  {
    var key := (f: FieldDefinition) => f.name;
    var entry := (f: FieldDefinition) => FieldEntry(f, user, competitor);
    FieldsFromUpdates(fields, user, competitor);
    assert entry(fields[i]).Some?;
    UpdateOf(fields, key, entry, i);
  }

  /** The map that a loop builds by storing `entry(x)` under `key(x)` for each `x` of `xs`
      in turn, skipping the `None`s. */
  function Updates<T, E>(xs: seq<T>, key: T -> string, entry: T -> Option<E>): map<string, E>
    decreases |xs|
  {
    if xs == [] then map[]
    else
      var earlier := Updates(xs[..|xs| - 1], key, entry);
      match entry(xs[|xs| - 1])
      case None => earlier
      case Some(e) => earlier[key(xs[|xs| - 1]) := e]
  }

  /** The field loop's map is such a map. */
  lemma {:induction false} FieldsFromUpdates(fields: seq<FieldDefinition>, user: Record, competitor: Record)
    ensures FieldsFrom(fields, user, competitor) ==
      Updates(fields, (f: FieldDefinition) => f.name, (f: FieldDefinition) => FieldEntry(f, user, competitor))
    decreases |fields|
  {
    if fields != [] {
      FieldsFromUpdates(fields[..|fields| - 1], user, competitor);
    }
  }

  /** With unique keys, an element's entry is the one stored under its key. */
  lemma {:induction false} UpdateOf<T, E>(xs: seq<T>, key: T -> string, entry: T -> Option<E>, i: nat)
    requires forall a, b :: 0 <= a < b < |xs| ==> key(xs[a]) != key(xs[b])
    requires i < |xs| && entry(xs[i]).Some?
    ensures key(xs[i]) in Updates(xs, key, entry)
    ensures Updates(xs, key, entry)[key(xs[i])] == entry(xs[i]).value
    decreases |xs|
  {
    var n := |xs| - 1;
    if i < n {
      var prefix := xs[..n];
      assert prefix[i] == xs[i];
      assert forall a, b :: 0 <= a < b < |prefix| ==> key(prefix[a]) != key(prefix[b]) by {
        forall a, b | 0 <= a < b < |prefix| ensures key(prefix[a]) != key(prefix[b]) {
          assert prefix[a] == xs[a] && prefix[b] == xs[b];
        }
      }
      UpdateOf(prefix, key, entry, i);
      assert key(xs[n]) != key(xs[i]);
    }
  }

  /** The metric `m` is named `k` and its formula evaluates on both records. */
  predicate EvaluatesAs(m: MetricDefinition, user: Record, competitor: Record, k: string) {
    m.name == k && MetricEntry(m, user, competitor).Some?
  }

  /** Some metric named `k` among `metrics` evaluates on both records. */
  predicate SomeMetricEvaluates(metrics: seq<MetricDefinition>, user: Record, competitor: Record, k: string) {
    exists i :: 0 <= i < |metrics| && EvaluatesAs(metrics[i], user, competitor, k)
  }

  /** A metric name has an entry iff some metric of that name evaluates on both records;
      a failing metric never removes an entry and `compare` never fails because of it. */
  lemma {:induction false} MetricPresence(metrics: seq<MetricDefinition>, user: Record, competitor: Record, k: string)
    ensures k in MetricsFrom(metrics, user, competitor) <==> SomeMetricEvaluates(metrics, user, competitor, k)
    decreases |metrics|
  {
    if metrics != [] {
      var n := |metrics| - 1;
      var m := metrics[n];
      MetricPresence(metrics[..n], user, competitor, k);
      if SomeMetricEvaluates(metrics, user, competitor, k) {
        EvaluatesExtendFrom(metrics, user, competitor, k);
      }
      if SomeMetricEvaluates(metrics[..n], user, competitor, k) || EvaluatesAs(m, user, competitor, k) {
        EvaluatesExtendInto(metrics, user, competitor, k);
      }
      MetricsFromKeysStep(metrics, user, competitor);
    }
  }

  /** The last metric adds its name to the keys exactly when it evaluates. */
  lemma MetricsFromKeysStep(metrics: seq<MetricDefinition>, user: Record, competitor: Record)
    requires metrics != []
    ensures var m := metrics[|metrics| - 1];
      MetricsFrom(metrics, user, competitor).Keys == MetricsFrom(metrics[..|metrics| - 1], user, competitor).Keys
        + (if MetricEntry(m, user, competitor).Some? then {m.name} else {})
  {
  }

  /** A witness among the first metrics, or the last metric itself, is a witness. */
  lemma EvaluatesExtendInto(metrics: seq<MetricDefinition>, user: Record, competitor: Record, k: string)
    requires metrics != []
    requires SomeMetricEvaluates(metrics[..|metrics| - 1], user, competitor, k)
      || EvaluatesAs(metrics[|metrics| - 1], user, competitor, k)
    ensures SomeMetricEvaluates(metrics, user, competitor, k)
  {
    var n := |metrics| - 1;
    if SomeMetricEvaluates(metrics[..n], user, competitor, k) {
      var i :| 0 <= i < n && EvaluatesAs(metrics[..n][i], user, competitor, k);
      assert metrics[i] == metrics[..n][i];
    }
  }

  /** A witness among all the metrics is among the first ones or is the last one. */
  lemma EvaluatesExtendFrom(metrics: seq<MetricDefinition>, user: Record, competitor: Record, k: string)
    requires metrics != []
    requires SomeMetricEvaluates(metrics, user, competitor, k)
    ensures SomeMetricEvaluates(metrics[..|metrics| - 1], user, competitor, k)
      || EvaluatesAs(metrics[|metrics| - 1], user, competitor, k)
  {
    var p := m => EvaluatesAs(m, user, competitor, k);
    var i :| 0 <= i < |metrics| && EvaluatesAs(metrics[i], user, competitor, k);
    assert p(metrics[i]);
    WitnessBeforeOrLast(metrics, metrics[..|metrics| - 1], p, i);
  }

  /** An element with property `p` is in the prefix without the last element, or is the
      last one. */
  lemma WitnessBeforeOrLast<T>(xs: seq<T>, prefix: seq<T>, p: T -> bool, i: nat)
    requires xs != [] && prefix == xs[..|xs| - 1]
    requires i < |xs| && p(xs[i])
    ensures (exists j :: 0 <= j < |prefix| && p(prefix[j])) || p(xs[|xs| - 1])
  {
    if i < |xs| - 1 {
      assert prefix[i] == xs[i];
    }
  }

  /** Swapping the two records swaps who is ahead, and leaves a tie a tie. */
  lemma VerdictAntisymmetric(d: Direction, u: real, c: real, win: Alert)
    ensures Verdict(d, c, u, win).0 == Competitor <==> Verdict(d, u, c, win).0 == User
    ensures Verdict(d, c, u, win).0 == User <==> Verdict(d, u, c, win).0 == Competitor
    ensures Verdict(d, c, u, win).0 == Equal <==> Verdict(d, u, c, win).0 == Equal
  {
  }

  /** A product compared with itself is level on every field and every metric, and
      raises no alert. */
  lemma {:induction false} SelfComparisonIsLevel(r: Record, schema: ProductSchema)
    ensures forall k :: k in CompareSpec(r, r, schema).fields ==>
      CompareSpec(r, r, schema).fields[k].advantage == Equal && CompareSpec(r, r, schema).fields[k].alert.None?
    ensures forall k :: k in CompareSpec(r, r, schema).metrics ==>
      CompareSpec(r, r, schema).metrics[k].advantage == Equal && CompareSpec(r, r, schema).metrics[k].alert.None?
  {
    SelfFieldsLevel(schema.fields, r);
    SelfMetricsLevel(schema.metrics, r);
  }

  lemma {:induction false} SelfFieldsLevel(fields: seq<FieldDefinition>, r: Record)
    ensures forall k :: k in FieldsFrom(fields, r, r) ==>
      FieldsFrom(fields, r, r)[k].advantage == Equal && FieldsFrom(fields, r, r)[k].alert.None?
    decreases |fields|
  {
    if fields != [] {
      var f := fields[|fields| - 1];
      SelfFieldsLevel(fields[..|fields| - 1], r);
      PyEqReflexive(Get(r, f.name));
    }
  }

  lemma {:induction false} SelfMetricsLevel(metrics: seq<MetricDefinition>, r: Record)
    ensures forall k :: k in MetricsFrom(metrics, r, r) ==>
      MetricsFrom(metrics, r, r)[k].advantage == Equal && MetricsFrom(metrics, r, r)[k].alert.None?
    decreases |metrics|
  {
    if metrics != [] {
      SelfMetricsLevel(metrics[..|metrics| - 1], r);
    }
  }

  /** Only a numeric field the competitor wins where lower is better raises a red alert. */
  lemma {:induction false} RedMeansLowerIsBetter(fields: seq<FieldDefinition>, user: Record, competitor: Record, k: string)
    requires k in FieldsFrom(fields, user, competitor)
    requires FieldsFrom(fields, user, competitor)[k].alert == Some(Red)
    ensures exists i :: 0 <= i < |fields| && fields[i].name == k && IsNumeric(fields[i].fieldType)
                        && fields[i].compareDirection == Lower
    ensures FieldsFrom(fields, user, competitor)[k].advantage == Competitor
    decreases |fields|
  {
    var n := |fields| - 1;
    var f := fields[n];
    if FieldEntry(f, user, competitor).Some? && f.name == k {
      assert fields[n].name == k;
    } else {
      RedMeansLowerIsBetter(fields[..n], user, competitor, k);
      var i :| 0 <= i < n && fields[..n][i].name == k && IsNumeric(fields[..n][i].fieldType)
                  && fields[..n][i].compareDirection == Lower;
      assert fields[i] == fields[..n][i];
    }
  }
}
