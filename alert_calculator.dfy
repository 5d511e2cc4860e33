/** `AlertCalculatorService`: the dashboard summary. Comparison results contribute price
    drops and spec disadvantages through their alerts; the price history contributes
    price increases and further drops through each listing's first and last recorded
    price. Each comparison listing also gets its de-duplicated alert kinds and a severity. */
module AlertCalculator {
  import opened Wrappers
  import opened Text
  import opened Values
  import opened Comparator

  /** One comparison result: the competitor listing and its comparison. */
  datatype ComparisonResult = ComparisonResult(listingId: string, comparison: Comparison)

  /** One price-history record; a missing `recorded_at` is the empty string and a missing
      `data` the empty record. */
  datatype PriceRecord = PriceRecord(listingId: Option<string>, recordedAt: string, data: Record)

  /** The two alert kinds a listing can carry. */
  datatype AlertKind = PriceDrop | SpecDisadvantage

  datatype Severity = High | Medium | Low

  /** A count and the percentage change reported with it. */
  datatype Tally = Tally(count: nat, percentageChange: real)

  /** The alerts and severity of one comparison listing. */
  datatype ListingAlert = ListingAlert(alerts: set<AlertKind>, severity: Severity)

  datatype Summary = Summary(
    priceDrops: Tally,
    specDisadvantages: Tally,
    priceIncreases: Tally,
    listingAlerts: map<string, ListingAlert>)

  // ---------------------------------------------------------------------------------
  // Alerts of the comparison results

  /** `"price" in field_name.lower()` */
  predicate IsPriceName(name: string) {
    Contains(ToLower(name), "price")
  }

  /** A red field whose name mentions a price: a price drop. */
  predicate HasRedPriceField(c: Comparison) {
    exists k :: k in c.fields && c.fields[k].alert == Some(Red) && IsPriceName(k)
  }

  /** A red field of another name, a yellow field or a yellow metric: a spec disadvantage. */
  predicate HasSpecAlert(c: Comparison) {
    (exists k :: k in c.fields && c.fields[k].alert == Some(Red) && !IsPriceName(k))
    || (exists k :: k in c.fields && c.fields[k].alert == Some(Yellow))
    || (exists k :: k in c.metrics && c.metrics[k].alert == Some(Yellow))
  }

  /** Every distinct comparison listing. */
  function ListingIds(results: seq<ComparisonResult>): set<string> {
    set r | r in results :: r.listingId
  }

  /** The listings a comparison reports a price drop for. */
  function ComparisonDropIds(results: seq<ComparisonResult>): (ids: set<string>)
    ensures ids <= ListingIds(results)
  {
    set r | r in results && HasRedPriceField(r.comparison) :: r.listingId
  }

  /** The listings a comparison reports a spec disadvantage for. */
  function SpecIds(results: seq<ComparisonResult>): (ids: set<string>)
    ensures ids <= ListingIds(results)
  {
    set r | r in results && HasSpecAlert(r.comparison) :: r.listingId
  }

  /** The first loop over a result's fields: a red field appends the listing to
      `price_drops` when its name mentions a price and to `spec_disadvantages` otherwise. */
  method ScanRedFields(c: Comparison, id: string) returns (drops: seq<string>, specs: seq<string>)
    ensures forall k :: 0 <= k < |drops| ==> drops[k] == id
    ensures forall k :: 0 <= k < |specs| ==> specs[k] == id
    ensures drops != [] <==> HasRedPriceField(c)
    ensures specs != [] <==> exists k :: k in c.fields && c.fields[k].alert == Some(Red) && !IsPriceName(k)
  {
    drops, specs := [], [];
    var keys := c.fields.Keys;
    while keys != {}
      invariant keys <= c.fields.Keys
      invariant forall k :: 0 <= k < |drops| ==> drops[k] == id
      invariant forall k :: 0 <= k < |specs| ==> specs[k] == id
      invariant drops != [] <==>
        exists k :: k in c.fields && k !in keys && c.fields[k].alert == Some(Red) && IsPriceName(k)
      invariant specs != [] <==>
        exists k :: k in c.fields && k !in keys && c.fields[k].alert == Some(Red) && !IsPriceName(k)
      decreases |keys|
    {
      var name :| name in keys;
      if c.fields[name].alert == Some(Red) {
        if IsPriceName(name) {
          drops := drops + [id];
        } else {
          specs := specs + [id];
        }
      }
      keys := keys - {name};
    }
  }

  /** The second loop over the fields and the loop over the metrics: each yellow alert
      appends the listing to `spec_disadvantages`. */
  method ScanYellow(c: Comparison, id: string) returns (specs: seq<string>)
    ensures forall k :: 0 <= k < |specs| ==> specs[k] == id
    ensures specs != [] <==> HasYellow(c)
  {
    var fromFields := ScanYellowFields(c, id);
    var fromMetrics := ScanYellowMetrics(c, id);
    specs := fromFields + fromMetrics;
  }

  /** The field half of the yellow scan. */
  method ScanYellowFields(c: Comparison, id: string) returns (specs: seq<string>)
    ensures forall k :: 0 <= k < |specs| ==> specs[k] == id
    ensures specs != [] <==> exists k :: k in c.fields && c.fields[k].alert == Some(Yellow)
  {
    specs := [];
    var keys := c.fields.Keys;
    while keys != {}
      invariant keys <= c.fields.Keys
      invariant forall k :: 0 <= k < |specs| ==> specs[k] == id
      invariant specs != [] <==> exists k :: k in c.fields && k !in keys && c.fields[k].alert == Some(Yellow)
      decreases |keys|
    {
      var name :| name in keys;
      if c.fields[name].alert == Some(Yellow) {
        specs := specs + [id];
      }
      keys := keys - {name};
    }
  }

  /** The metric half of the yellow scan. */
  method ScanYellowMetrics(c: Comparison, id: string) returns (specs: seq<string>)
    ensures forall k :: 0 <= k < |specs| ==> specs[k] == id
    ensures specs != [] <==> exists k :: k in c.metrics && c.metrics[k].alert == Some(Yellow)
  {
    specs := [];
    var keys := c.metrics.Keys;
    while keys != {}
      invariant keys <= c.metrics.Keys
      invariant forall k :: 0 <= k < |specs| ==> specs[k] == id
      invariant specs != [] <==> exists k :: k in c.metrics && k !in keys && c.metrics[k].alert == Some(Yellow)
      decreases |keys|
    {
      var name :| name in keys;
      if c.metrics[name].alert == Some(Yellow) {
        specs := specs + [id];
      }
      keys := keys - {name};
    }
  }

  /** The listing ids the scan of one result appends: `drops` to `price_drops` and `specs`
      to `spec_disadvantages`, one per alerting field or metric. */
  method ScanResult(result: ComparisonResult) returns (drops: seq<string>, specs: seq<string>)
    ensures forall k :: 0 <= k < |drops| ==> drops[k] == result.listingId
    ensures forall k :: 0 <= k < |specs| ==> specs[k] == result.listingId
    ensures drops != [] <==> HasRedPriceField(result.comparison)
    ensures specs != [] <==> HasSpecAlert(result.comparison)
  {
    var redSpecs, yellowSpecs;
    drops, redSpecs := ScanRedFields(result.comparison, result.listingId);
    yellowSpecs := ScanYellow(result.comparison, result.listingId);
    specs := redSpecs + yellowSpecs;
  }

  // ---------------------------------------------------------------------------------
  // Price history

  /** `listing_id` is present and truthy. */
  predicate HasListing(r: PriceRecord) {
    r.listingId.Some? && r.listingId.value != ""
  }

  /** The listings the history groups. */
  function HistoryIds(history: seq<PriceRecord>): set<string> {
    set r | r in history && HasListing(r) :: r.listingId.value
  }

  /** `listing_history[id]`: the records of listing `id`, in history order. */
  function Group(history: seq<PriceRecord>, id: string): (g: seq<PriceRecord>)
    ensures forall k :: 0 <= k < |g| ==> g[k] in history && g[k].listingId == Some(id)
    decreases |history|
  {
    if history == [] then []
    else
      var n := |history| - 1;
      var earlier := Group(history[..n], id);
      if history[n].listingId == Some(id) then earlier + [history[n]] else earlier
  }

  /** Python's `<=` on strings: lexicographic by character. */
  predicate StrLe(a: string, b: string)
    decreases |a|
  {
    a == [] || (b != [] && (a[0] < b[0] || (a[0] == b[0] && StrLe(a[1..], b[1..]))))
  }

  lemma {:induction false} StrLeReflexive(a: string)
    ensures StrLe(a, a)
    decreases |a|
  {
    if a != [] {
      StrLeReflexive(a[1..]);
    }
  }

  lemma {:induction false} StrLeTotal(a: string, b: string)
    ensures StrLe(a, b) || StrLe(b, a)
    decreases |a|
  {
    if a != [] && b != [] && a[0] == b[0] {
      StrLeTotal(a[1..], b[1..]);
    }
  }

  lemma {:induction false} StrLeTransitive(a: string, b: string, c: string)
    requires StrLe(a, b) && StrLe(b, c)
    ensures StrLe(a, c)
    decreases |a|
  {
    if a != [] && a[0] == b[0] && b[0] == c[0] {
      StrLeTransitive(a[1..], b[1..], c[1..]);
    }
  }

  lemma {:induction false} StrLeAntisymmetric(a: string, b: string)
    requires StrLe(a, b) && StrLe(b, a)
    ensures a == b
    decreases |a|
  {
    if a != [] {
      StrLeAntisymmetric(a[1..], b[1..]);
    }
  }

  /** The index of the record a stable sort by `recorded_at` puts first: the earliest
      record among those with the smallest key. */
  function FirstIndex(h: seq<PriceRecord>): (r: nat)
    requires |h| >= 1
    ensures r < |h|
    ensures forall j :: 0 <= j < |h| ==> StrLe(h[r].recordedAt, h[j].recordedAt)
    ensures forall j :: 0 <= j < r ==> !StrLe(h[j].recordedAt, h[r].recordedAt)
    decreases |h|
  {
    if |h| == 1 then
      StrLeReflexive(h[0].recordedAt);
      0
    else
      var n := |h| - 1;
      var p := FirstIndex(h[..n]);
      assert h[..n][p] == h[p];
      assert forall j :: 0 <= j < n ==> h[..n][j] == h[j];
      if !StrLe(h[p].recordedAt, h[n].recordedAt) then
        StrLeTotal(h[p].recordedAt, h[n].recordedAt);
        StrLeReflexive(h[n].recordedAt);
        forall j | 0 <= j < |h| ensures StrLe(h[n].recordedAt, h[j].recordedAt) {
          if j < n {
            StrLeTransitive(h[n].recordedAt, h[p].recordedAt, h[j].recordedAt);
          }
        }
        forall j | 0 <= j < n ensures !StrLe(h[j].recordedAt, h[n].recordedAt) {
          if StrLe(h[j].recordedAt, h[n].recordedAt) {
            StrLeTransitive(h[p].recordedAt, h[j].recordedAt, h[n].recordedAt);
          }
        }
        n
      else p
  }

  /** The index of the record a stable sort by `recorded_at` puts last: the latest record
      among those with the largest key. */
  function LastIndex(h: seq<PriceRecord>): (r: nat)
    requires |h| >= 1
    ensures r < |h|
    ensures forall j :: 0 <= j < |h| ==> StrLe(h[j].recordedAt, h[r].recordedAt)
    ensures forall j :: r < j < |h| ==> !StrLe(h[r].recordedAt, h[j].recordedAt)
    decreases |h|
  {
    if |h| == 1 then
      StrLeReflexive(h[0].recordedAt);
      0
    else
      var n := |h| - 1;
      var p := LastIndex(h[..n]);
      assert h[..n][p] == h[p];
      assert forall j :: 0 <= j < n ==> h[..n][j] == h[j];
      if StrLe(h[p].recordedAt, h[n].recordedAt) then
        StrLeReflexive(h[n].recordedAt);
        forall j | 0 <= j < |h| ensures StrLe(h[j].recordedAt, h[n].recordedAt) {
          if j < n {
            StrLeTransitive(h[j].recordedAt, h[p].recordedAt, h[n].recordedAt);
          }
        }
        n
      else
        StrLeTotal(h[p].recordedAt, h[n].recordedAt);
        p
  }

  /** The price of a record's data: the loop over `price`, `Price`, `PRICE` keeps the last
      key present, and `None` when there is none. */
  function PriceOf(data: Record): (v: RawValue)
    ensures "PRICE" in data ==> v == data["PRICE"]
    ensures "PRICE" !in data && "Price" in data ==> v == data["Price"]
    ensures "PRICE" !in data && "Price" !in data ==> v == Get(data, "price")
  {
    if "PRICE" in data then data["PRICE"]
    else if "Price" in data then data["Price"]
    else Get(data, "price")
  }

  /** How a listing's price moved between its first and last record. */
  datatype Trend = Rising | Falling | Unchanged

  /** The trend of one listing's records: `Unchanged` for fewer than two records, for a
      falsy price at either end, or for a price `float()` refuses. */
  function TrendOf(group: seq<PriceRecord>): Trend {
    if |group| < 2 then Unchanged
    else
      var first := PriceOf(group[FirstIndex(group)].data);
      var last := PriceOf(group[LastIndex(group)].data);
      if !(Truthy(first) && Truthy(last)) then Unchanged
      else match (PyFloat(first), PyFloat(last))
        case (Some(f), Some(l)) => if l > f then Rising else if l < f then Falling else Unchanged
        case _ => Unchanged
  }

  /** The listings whose price history rose. */
  function IncreaseIds(history: seq<PriceRecord>): (ids: set<string>)
    ensures ids <= HistoryIds(history)
    ensures forall id :: id in ids ==> |Group(history, id)| >= 2 && TrendOf(Group(history, id)) == Rising
  {
    set id | id in HistoryIds(history) && TrendOf(Group(history, id)) == Rising
  }

  /** The listings whose price history fell. */
  function HistoryDropIds(history: seq<PriceRecord>): (ids: set<string>)
    ensures ids <= HistoryIds(history)
    ensures forall id :: id in ids ==> |Group(history, id)| >= 2 && TrendOf(Group(history, id)) == Falling
  {
    set id | id in HistoryIds(history) && TrendOf(Group(history, id)) == Falling
  }

  /** No listing's history both rose and fell. */
  lemma RiseAndDropDisjoint(history: seq<PriceRecord>)
    ensures IncreaseIds(history) !! HistoryDropIds(history)
  {
  }

  /** Every listing counted as a price drop, from comparisons and from history. */
  function DropIds(results: seq<ComparisonResult>, history: seq<PriceRecord>): set<string> {
    ComparisonDropIds(results) + HistoryDropIds(history)
  }

  // ---------------------------------------------------------------------------------
  // Per-listing alerts and severity

  /** The alert kinds of listing `id`: a red field of any name gives a price drop, a
      yellow field or metric a spec disadvantage. */
  function AlertsFor(id: string, results: seq<ComparisonResult>): (alerts: set<AlertKind>)
    ensures PriceDrop in alerts <==>
      exists r :: r in results && r.listingId == id && HasRedField(r.comparison)
    ensures SpecDisadvantage in alerts <==>
      exists r :: r in results && r.listingId == id && HasYellow(r.comparison)
  {
    (if exists r :: r in results && r.listingId == id && HasRedField(r.comparison) then {PriceDrop} else {})
    + (if exists r :: r in results && r.listingId == id && HasYellow(r.comparison) then {SpecDisadvantage} else {})
  }

  predicate HasRedField(c: Comparison) {
    exists k :: k in c.fields && c.fields[k].alert == Some(Red)
  }

  predicate HasYellow(c: Comparison) {
    (exists k :: k in c.fields && c.fields[k].alert == Some(Yellow))
    || (exists k :: k in c.metrics && c.metrics[k].alert == Some(Yellow))
  }

  /** `_calculate_severity` */
  function CalculateSeverity(alerts: set<AlertKind>): (s: Severity)
    ensures s == High <==> PriceDrop in alerts && SpecDisadvantage in alerts
    ensures s == Medium <==> (PriceDrop in alerts) != (SpecDisadvantage in alerts)
    ensures s == Low <==> PriceDrop !in alerts && SpecDisadvantage !in alerts
  {
    if PriceDrop in alerts && SpecDisadvantage in alerts then High
    else if PriceDrop in alerts || SpecDisadvantage in alerts then Medium
    else Low
  }

  /** Which alert kinds one comparison contributes. */
  method ResultAlertKinds(c: Comparison) returns (red: bool, yellow: bool)
    ensures red == HasRedField(c) && yellow == HasYellow(c)
  {
    red, yellow := false, false;
    var keys := c.fields.Keys;
    while keys != {}
      invariant keys <= c.fields.Keys
      invariant red <==> exists k :: k in c.fields && k !in keys && c.fields[k].alert == Some(Red)
      invariant yellow <==> exists k :: k in c.fields && k !in keys && c.fields[k].alert == Some(Yellow)
      decreases |keys|
    {
      var name :| name in keys;
      if c.fields[name].alert == Some(Red) {
        red := true;
      } else if c.fields[name].alert == Some(Yellow) {
        yellow := true;
      }
      keys := keys - {name};
    }
    keys := c.metrics.Keys;
    ghost var fieldYellow := yellow;
    while keys != {}
      invariant keys <= c.metrics.Keys
      invariant yellow <==> fieldYellow || exists k :: k in c.metrics && k !in keys && c.metrics[k].alert == Some(Yellow)
      decreases |keys|
    {
      var name :| name in keys;
      if c.metrics[name].alert == Some(Yellow) {
        yellow := true;
      }
      keys := keys - {name};
    }
  }

  /** `_get_alerts_for_listing`: the alert kinds of the results for `id`, de-duplicated. */
  method GetAlertsForListing(id: string, results: seq<ComparisonResult>) returns (alerts: set<AlertKind>)
    ensures alerts == AlertsFor(id, results)
  {
    alerts := {};
    var i := 0;
    while i < |results|
      invariant i <= |results|
      invariant PriceDrop in alerts <==>
        exists r :: r in results[..i] && r.listingId == id && HasRedField(r.comparison)
      invariant SpecDisadvantage in alerts <==>
        exists r :: r in results[..i] && r.listingId == id && HasYellow(r.comparison)
      invariant alerts <= {PriceDrop, SpecDisadvantage}
    {
      assert results[..i + 1] == results[..i] + [results[i]];
      if results[i].listingId == id {
        var red, yellow := ResultAlertKinds(results[i].comparison);
        if red {
          alerts := alerts + {PriceDrop};
        }
        if yellow {
          alerts := alerts + {SpecDisadvantage};
        }
      }
      i := i + 1;
    }
    assert results[..i] == results;
  }

  // ---------------------------------------------------------------------------------
  // The summary

  /** `set(xs)` */
  function Elements(xs: seq<string>): set<string> {
    set x | x in xs
  }

  /** `count / total * 100`, or 0 when there are no listings. */
  function Percentage(count: nat, total: nat): (p: real)
    ensures total == 0 ==> p == 0.0
    ensures p >= 0.0
    ensures count <= total ==> p <= 100.0
    ensures 0 < total == count ==> p == 100.0
  {
    if total > 0 then
      var ratio := count as real / total as real;
      assert count <= total ==> ratio <= 1.0;
      ratio * 100.0
    else 0.0
  }

  /** The entry of `listing_alerts` for listing `id`. */
  function ListingAlertOf(id: string, results: seq<ComparisonResult>): (a: ListingAlert)
    ensures a.alerts == AlertsFor(id, results)
    ensures a.severity == CalculateSeverity(AlertsFor(id, results))
  {
    var alerts := AlertsFor(id, results);
    ListingAlert(alerts, CalculateSeverity(alerts))
  }

  /** What `calculate_summary` returns: distinct listings per category, each as a percentage
      of the distinct comparison listings (negated for drops), and one alert entry per
      comparison listing. */
  function SummarySpec(results: seq<ComparisonResult>, history: seq<PriceRecord>): Summary {
    var total := |ListingIds(results)|;
    var drops := |DropIds(results, history)|;
    var specs := |SpecIds(results)|;
    var increases := |IncreaseIds(history)|;
    Summary(
      Tally(drops, -Percentage(drops, total)),
      Tally(specs, Percentage(specs, total)),
      Tally(increases, Percentage(increases, total)),
      map id | id in ListingIds(results) :: ListingAlertOf(id, results))
  }

  lemma ElementsAppend(xs: seq<string>, ys: seq<string>, id: string)
    requires forall k :: 0 <= k < |ys| ==> ys[k] == id
    ensures Elements(xs + ys) == Elements(xs) + (if ys == [] then {} else {id})
  {
    if ys != [] {
      assert (xs + ys)[|xs|] == id;
    }
  }

  lemma ResultIdsExtend(results: seq<ComparisonResult>, i: nat)
    requires i < |results|
    ensures ComparisonDropIds(results[..i + 1]) ==
      ComparisonDropIds(results[..i]) + (if HasRedPriceField(results[i].comparison) then {results[i].listingId} else {})
    ensures SpecIds(results[..i + 1]) ==
      SpecIds(results[..i]) + (if HasSpecAlert(results[i].comparison) then {results[i].listingId} else {})
  {
    assert results[..i + 1] == results[..i] + [results[i]];
  }

  /** The loop over the comparison results: the listings appended to `price_drops` and
      to `spec_disadvantages`. */
  method ScanResults(results: seq<ComparisonResult>) returns (drops: seq<string>, specs: seq<string>)
    ensures Elements(drops) == ComparisonDropIds(results)
    ensures Elements(specs) == SpecIds(results)
  {
    drops, specs := [], [];
    var i := 0;
    while i < |results|
      invariant i <= |results|
      invariant Elements(drops) == ComparisonDropIds(results[..i])
      invariant Elements(specs) == SpecIds(results[..i])
    {
      var resultDrops, resultSpecs := ScanResult(results[i]);
      ElementsAppend(drops, resultDrops, results[i].listingId);
      ElementsAppend(specs, resultSpecs, results[i].listingId);
      ResultIdsExtend(results, i);
      drops := drops + resultDrops;
      specs := specs + resultSpecs;
      i := i + 1;
    }
    assert results[..i] == results;
  }

  lemma HistoryIdsExtend(history: seq<PriceRecord>, i: nat)
    requires i < |history|
    ensures HistoryIds(history[..i + 1]) ==
      HistoryIds(history[..i]) + (if HasListing(history[i]) then {history[i].listingId.value} else {})
  {
    assert history[..i + 1] == history[..i] + [history[i]];
  }

  /** A listing with no records in the history has an empty group. */
  lemma GroupOutside(history: seq<PriceRecord>, id: string)
    requires id != "" && id !in HistoryIds(history)
    ensures Group(history, id) == []
  {
    var g := Group(history, id);
    if g != [] {
      assert g[0] in history && HasListing(g[0]);
    }
  }

  /** The grouping loop: `listing_history[id]` collects the records of every listing with a
      truthy `listing_id`, in history order. */
  method GroupHistory(history: seq<PriceRecord>) returns (groups: map<string, seq<PriceRecord>>)
    ensures groups.Keys == HistoryIds(history)
    ensures forall id :: id in groups ==> groups[id] == Group(history, id)
  {
    groups := map[];
    var i := 0;
    while i < |history|
      invariant i <= |history|
      invariant groups.Keys == HistoryIds(history[..i])
      invariant forall id :: id in groups ==> groups[id] == Group(history[..i], id)
    {
      var record := history[i];
      HistoryIdsExtend(history, i);
      assert history[..i + 1][..i] == history[..i];
      if record.listingId.Some? && record.listingId.value != "" {
        var id := record.listingId.value;
        if id !in groups {
          GroupOutside(history[..i], id);
        }
        var earlier := if id in groups then groups[id] else [];
        groups := groups[id := earlier + [record]];
      }
      i := i + 1;
    }
    assert history[..i] == history;
  }

  /** The value the price loop keeps: that of the last key of `keys` present in `data`. */
  function LastPresent(data: Record, keys: seq<string>): RawValue {
    if keys == [] then Null
    else if keys[|keys| - 1] in data then data[keys[|keys| - 1]]
    else LastPresent(data, keys[..|keys| - 1])
  }

  /** The loop over `price`, `Price`, `PRICE` for one record's data. */
  method FindPrice(data: Record) returns (price: RawValue)
    ensures price == PriceOf(data)
  {
    var keys := ["price", "Price", "PRICE"];
    price := Null;
    for j := 0 to |keys|
      invariant price == LastPresent(data, keys[..j])
    {
      assert keys[..j + 1][..j] == keys[..j];
      if keys[j] in data {
        price := data[keys[j]];
      }
    }
    assert LastPresent(data, ["price"]) == Get(data, "price") by {
      assert ["price"][..0] == [];
    }
    assert LastPresent(data, ["price", "Price"]) == (if "Price" in data then data["Price"] else Get(data, "price")) by {
      assert ["price", "Price"][..1] == ["price"];
    }
    assert keys[..3] == keys && keys[..2] == ["price", "Price"];
  }

  /** One pass of the trend loop over a listing's records. */
  method PriceTrend(group: seq<PriceRecord>) returns (t: Trend)
    ensures t == TrendOf(group)
  {
    if |group| < 2 {
      return Unchanged;
    }
    var firstRecord := group[FirstIndex(group)];
    var lastRecord := group[LastIndex(group)];
    var firstPrice := FindPrice(firstRecord.data);
    var lastPrice := FindPrice(lastRecord.data);
    if !(Truthy(firstPrice) && Truthy(lastPrice)) {
      return Unchanged;
    }
    var first := PyFloat(firstPrice);
    var last := PyFloat(lastPrice);
    if first.None? || last.None? {
      return Unchanged;
    }
    if last.value > first.value {
      t := Rising;
    } else if last.value < first.value {
      t := Falling;
    } else {
      t := Unchanged;
    }
  }

  /** The listings among `ids` whose group has trend `t`. */
  function TrendIds(groups: map<string, seq<PriceRecord>>, ids: set<string>, t: Trend): set<string> {
    set id | id in ids && id in groups && TrendOf(groups[id]) == t
  }

  lemma TrendIdsExtend(groups: map<string, seq<PriceRecord>>, ids: set<string>, id: string, t: Trend)
    requires id in groups
    ensures TrendIds(groups, ids + {id}, t) == TrendIds(groups, ids, t) + (if TrendOf(groups[id]) == t then {id} else {})
  {
  }

  /** One pass of the loop over the groups, for listing `id`: `done` holds the listings
      already visited. */
  method TrendStep(groups: map<string, seq<PriceRecord>>, ghost done: set<string>, id: string,
                   ghost drops0: seq<string>, drops: seq<string>, increases: seq<string>)
    returns (drops': seq<string>, increases': seq<string>)
    requires id in groups
    requires Elements(increases) == TrendIds(groups, done, Rising)
    requires Elements(drops) == Elements(drops0) + TrendIds(groups, done, Falling)
    ensures Elements(increases') == TrendIds(groups, done + {id}, Rising)
    ensures Elements(drops') == Elements(drops0) + TrendIds(groups, done + {id}, Falling)
  {
    TrendIdsExtend(groups, done, id, Rising);
    TrendIdsExtend(groups, done, id, Falling);
    drops', increases' := drops, increases;
    var t := PriceTrend(groups[id]);
    if t == Rising {
      ElementsAppend(increases, [id], id);
      increases' := increases + [id];
    } else if t == Falling && id !in drops {
      ElementsAppend(drops, [id], id);
      drops' := drops + [id];
    }
  }

  /** The loop over the groups: a rising listing is appended to `price_increases`, a
      falling one to `price_drops` unless it is there already. */
  method HistoryTrends(groups: map<string, seq<PriceRecord>>, drops: seq<string>)
    returns (allDrops: seq<string>, increases: seq<string>)
    ensures Elements(increases) == TrendIds(groups, groups.Keys, Rising)
    ensures Elements(allDrops) == Elements(drops) + TrendIds(groups, groups.Keys, Falling)
  {
    allDrops, increases := drops, [];
    var keys := groups.Keys;
    ghost var done: set<string> := {};
    while keys != {}
      invariant done + keys == groups.Keys
      invariant Elements(increases) == TrendIds(groups, done, Rising)
      invariant Elements(allDrops) == Elements(drops) + TrendIds(groups, done, Falling)
      decreases |keys|
    {
      var id :| id in keys;
      allDrops, increases := TrendStep(groups, done, id, drops, allDrops, increases);
      keys := keys - {id};
      done := done + {id};
    }
  }

  /** `_calculate_severity(listing_id, comparison_results)`: the severity of the listing's
      alert kinds. */
  method CalculateSeverityFor(id: string, results: seq<ComparisonResult>) returns (severity: Severity)
    ensures severity == CalculateSeverity(AlertsFor(id, results))
  {
    var alerts := GetAlertsForListing(id, results);
    if PriceDrop in alerts && SpecDisadvantage in alerts {
      severity := High;
    } else if PriceDrop in alerts || SpecDisadvantage in alerts {
      severity := Medium;
    } else {
      severity := Low;
    }
  }

  /** The `listing_alerts` list, keyed by listing: one entry per distinct comparison listing. */
  method ListingAlerts(results: seq<ComparisonResult>) returns (entries: map<string, ListingAlert>)
    ensures entries == map id | id in ListingIds(results) :: ListingAlertOf(id, results)
  {
    entries := map[];
    var ids := ListingIds(results);
    while ids != {}
      invariant ids <= ListingIds(results)
      invariant entries.Keys == ListingIds(results) - ids
      invariant forall id :: id in entries ==> entries[id] == ListingAlertOf(id, results)
      decreases |ids|
    {
      var id :| id in ids;
      var alerts := GetAlertsForListing(id, results);
      var severity := CalculateSeverityFor(id, results);
      entries := entries[id := ListingAlert(alerts, severity)];
      ids := ids - {id};
    }
  }

  /** The trends read off the grouped history are those of the listings' groups. */
  lemma GroupedTrends(history: seq<PriceRecord>, groups: map<string, seq<PriceRecord>>)
    requires groups.Keys == HistoryIds(history)
    requires forall id :: id in groups ==> groups[id] == Group(history, id)
    ensures TrendIds(groups, groups.Keys, Rising) == IncreaseIds(history)
    ensures TrendIds(groups, groups.Keys, Falling) == HistoryDropIds(history)
  {
  }

  /** `calculate_summary` */
  method CalculateSummary(results: seq<ComparisonResult>, history: seq<PriceRecord>) returns (summary: Summary)
    ensures summary == SummarySpec(results, history)
  {
    var drops, specs := ScanResults(results);
    var groups := GroupHistory(history);
    var allDrops, increases := HistoryTrends(groups, drops);
    GroupedTrends(history, groups);
    var dropCount := |Elements(allDrops)|;
    var specCount := |Elements(specs)|;
    var increaseCount := |Elements(increases)|;
    var total := |ListingIds(results)|;
    var listingAlerts := ListingAlerts(results);
    summary := Summary(
      Tally(dropCount, -Percentage(dropCount, total)),
      Tally(specCount, Percentage(specCount, total)),
      Tally(increaseCount, Percentage(increaseCount, total)),
      listingAlerts);
  }

  // ---------------------------------------------------------------------------------
  // Properties of the summary

  lemma SubsetCardinality(a: set<string>, b: set<string>)
    requires a <= b
    ensures |a| <= |b|
  {
    assert b == a + (b - a);
  }

  /** The spec-disadvantage share lies between 0 and 100 percent. */
  lemma SpecShareBounded(results: seq<ComparisonResult>, history: seq<PriceRecord>)
    ensures 0.0 <= SummarySpec(results, history).specDisadvantages.percentageChange <= 100.0
  {
    SubsetCardinality(SpecIds(results), ListingIds(results));
  }

  /** When every listing with a price history is also a comparison listing, the drop
      change lies between -100 and 0 percent and the increase change between 0 and 100. */
  lemma HistoryShareBounded(results: seq<ComparisonResult>, history: seq<PriceRecord>)
    requires HistoryIds(history) <= ListingIds(results)
    ensures -100.0 <= SummarySpec(results, history).priceDrops.percentageChange <= 0.0
    ensures 0.0 <= SummarySpec(results, history).priceIncreases.percentageChange <= 100.0
  {
    SubsetCardinality(DropIds(results, history), ListingIds(results));
    SubsetCardinality(IncreaseIds(history), ListingIds(results));
  }

  /** A listing counted as a comparison price drop carries the price-drop alert, so its
      severity is at least medium. */
  lemma CountedDropAlerts(results: seq<ComparisonResult>, id: string)
    requires id in ComparisonDropIds(results)
    ensures PriceDrop in AlertsFor(id, results)
    ensures ListingAlertOf(id, results).severity != Low
  {
    var r :| r in results && r.listingId == id && HasRedPriceField(r.comparison);
    var k :| k in r.comparison.fields && r.comparison.fields[k].alert == Some(Red) && IsPriceName(k);
    assert HasRedField(r.comparison);
  }

  /** A listing counted as a spec disadvantage carries some alert, so its severity is at
      least medium. */
  lemma CountedSpecAlerts(results: seq<ComparisonResult>, id: string)
    requires id in SpecIds(results)
    ensures AlertsFor(id, results) != {}
    ensures ListingAlertOf(id, results).severity != Low
  {
    var r :| r in results && r.listingId == id && HasSpecAlert(r.comparison);
    if !HasYellow(r.comparison) {
      var k :| k in r.comparison.fields && r.comparison.fields[k].alert == Some(Red) && !IsPriceName(k);
      assert HasRedField(r.comparison);
    }
  }

  /** Two records of one listing in the history never share a listing. */
  predicate OneRecordPerListing(history: seq<PriceRecord>) {
    forall i, j :: 0 <= i < j < |history| && HasListing(history[i]) ==> history[i].listingId != history[j].listingId
  }

  lemma {:induction false} SingleRecordGroup(history: seq<PriceRecord>, id: string)
    requires OneRecordPerListing(history) && id != ""
    ensures |Group(history, id)| <= 1
    decreases |history|
  {
    if history != [] {
      var n := |history| - 1;
      assert OneRecordPerListing(history[..n]);
      SingleRecordGroup(history[..n], id);
      var earlier := Group(history[..n], id);
      if earlier != [] {
        assert earlier[0] in history[..n];
      }
    }
  }

  /** A history holding at most one record per listing shows no trend: nothing is counted
      as a price increase and the drops are those of the comparisons alone. */
  lemma SingleObservationsShowNoTrend(results: seq<ComparisonResult>, history: seq<PriceRecord>)
    requires OneRecordPerListing(history)
    ensures IncreaseIds(history) == {}
    ensures DropIds(results, history) == ComparisonDropIds(results)
  {
    forall id | id in HistoryIds(history)
      ensures TrendOf(Group(history, id)) == Unchanged
    {
      SingleRecordGroup(history, id);
    }
  }

  /** A pattern whose first letter is absent does not occur. */
  lemma AbsentLetter(s: string, t: string)
    requires t != [] && t[0] !in s
    ensures !Contains(s, t)
  {
  }

  /** A comparison whose only entry is a red field of a name without a price. */
  lemma RedSpecFieldAlerts(c: Comparison, name: string, entry: FieldComparison)
    requires c == Comparison(map[name := entry], map[])
    requires entry.alert == Some(Red) && !IsPriceName(name)
    ensures !HasRedPriceField(c) && HasSpecAlert(c)
    ensures HasRedField(c) && !HasYellow(c)
  {
    assert name in c.fields && c.fields[name].alert == Some(Red);
  }

  lemma WeightIsNoPrice()
    ensures !IsPriceName("weight")
  {
    LowerOfLowerCase("weight");
    AbsentLetter("weight", "price");
  }

  /** A red field whose name does not mention a price (such as `weight`) is read two
      ways: the summary counts the listing as a spec disadvantage, while its
      `listing_alerts` entry reports a price drop and no spec disadvantage. */
  lemma RedSpecFieldReadTwoWays(results: seq<ComparisonResult>, id: string, name: string, entry: FieldComparison)
    requires results == [ComparisonResult(id, Comparison(map[name := entry], map[]))]
    requires entry.alert == Some(Red) && !IsPriceName(name)
    ensures ComparisonDropIds(results) == {} && SpecIds(results) == {id}
    ensures AlertsFor(id, results) == {PriceDrop}
    ensures ListingAlertOf(id, results).severity == Medium
  {
    RedSpecFieldAlerts(results[0].comparison, name, entry);
  }
}
