# Competitive Edge Engine — a verified model of the comparison core

This project models, in Dafny, the deterministic core of the Competitive Edge Engine. The
engine takes loosely typed product data (as an LLM extracted it from a retailer page) and
turns it into records typed by a product schema. It then compares a user's product with
competitor listings, scores match candidates and aggregates alerts for a dashboard.

The modelled pieces, one Dafny module per source file:

- `Schema`: the product schema (`FieldDefinition`, `MetricDefinition`, `ProductSchema`).
- `UnitConverter` and `ConversionRoundTrip`: unit aliases, the conversion table,
  `normalize_unit`, `are_units_compatible`, `convert` and `extract_unit_from_string`.
- `SchemaValidator`: `validate_schema`, `validate_data_against_schema` and `normalize_data`.
- `Extractor`: the post-processing block of `extract_from_content`. It pre-processes each
  field (bare numbers, `{value, unit}` objects, strings with units), converts units, runs a
  defensive clean-up, calls `normalize_data` and restores the product name.
- `MetricCalculator` and `Arithmetic`: `evaluate_formula` and `calculate_metric`. Identifiers
  are substituted with `str.replace`, the result is checked against a character whitelist,
  and it is evaluated as a Python expression.
- `Comparator`: `ComparatorService.compare`.
- `Matcher`: `_calculate_spec_similarity` and the 0.6/0.4 confidence blend. The semantic
  similarity is an input, as an embedding pair or a chat reply.
- `AlertCalculator`: `calculate_summary`, `_get_alerts_for_listing` and `_calculate_severity`.
- `Retailers`, `Amazon`, `Walmart`, `HomeDepot`, `Lowes` and the shared `Hrefs`: the retailer
  registry and dispatcher, the search-URL builders, the product-page tests, the href loops of
  `extract_product_urls` / `filter_product_urls`, and the Amazon image-URL clean-up.

Helper modules stand in for the Python runtime:

- `Wrappers`: `Option` and `Result`.
- `Text`: ASCII `lower`, `strip`, `in`, `split`, `replace`, and the scanners for the digit
  regexes.
- `Values`: a JSON value `RawValue` with Python's `int()`, `float()`, `str()`, truthiness and
  `==` on it.

A record is a `map<string, RawValue>` and Python floats are reals.

Where the source changes state step by step, the model is a method with a loop. Each such
method is proved equal to a specification function: `errors` lists, the `normalized` dict,
the `comparison` dicts, the `similarities`/`weights` lists, the alert lists and the
`urls`/`seen_urls` pairs. The properties are lemmas about those functions.

Points where the model follows the code rather than the documented intent:

- A numeric string keeps only its first unsigned digit run, so `"-5"` normalises to `5`.
- A text field such as a model number `"EU2200i"` is read as the number `2200` by the
  extractor.
- Validity before and after `normalize_data` is related in one direction only.
  - A valid record stays valid after normalisation.
  - `{"value": 5}` in an integer field is invalid before normalisation and valid after it.
- Idempotence of `normalize_data` needs distinct field names.
- A red field whose name does not mention "price" is counted as a spec disadvantage in the
  summary. The same field gives the listing a `price_drop` alert in `listing_alerts`.
- `compare` evaluates metrics with `calculate_metric` as written, so both Findings below reach
  its metric entries: an absent field can be absorbed and a negative value can lose its sign.

## Model

| member | source | states |
|---|---|---|
| Schema.Defaults | backend/app/models/schema.py:8-30 | a field's unit defaults to none and `required` to true; a metric's format defaults to none |
| UnitConverter.NormalizeUnit | backend/app/services/unit_converter.py:111-136 | the empty unit gives ""; otherwise the result is a canonical unit or the stripped, lower-cased input |
| UnitConverter.NormalizeUnitValue | backend/app/services/unit_converter.py:121-124 | a falsy unit gives "", a string is normalised, any other truthy value raises |
| UnitConverter.NormalizeIdempotent | backend/app/services/unit_converter.py:60-136 | normalising a normalised unit changes nothing |
| UnitConverter.CanonicalFixed | backend/app/services/unit_converter.py:60-104 | every alias target normalises to itself |
| UnitConverter.NormalizeFoldsCase | backend/app/services/unit_converter.py:130-133 | "w" resolves case-insensitively to "W" |
| UnitConverter.NormalizeTrimsAndResolves | backend/app/services/unit_converter.py:124-128 | " GAL " is trimmed, lower-cased and resolved to "gallons" |
| UnitConverter.NormalizeUnknownLowered | backend/app/services/unit_converter.py:136 | an unknown unit comes back lower-cased |
| UnitConverter.FoldedLookupCases | backend/app/services/unit_converter.py:131-133 | the case-insensitive alias scan finds only the keys "L", "W" and "kW" beyond the direct lookup |
| UnitConverter.CompatibleSymmetric | backend/app/services/unit_converter.py:150-158 | compatibility is symmetric |
| UnitConverter.Convert | backend/app/services/unit_converter.py:173-189 | a result exists iff the units are compatible; equal normalised units return the value unchanged |
| UnitConverter.ConvertWith | backend/app/services/unit_converter.py:177-189 | a result exists iff the units are equal or either ordered pair is a table key |
| UnitConverter.UnitConversionsReciprocal | backend/app/services/unit_converter.py:9-57 | wherever both directions of a pair are in the table, their factors multiply to 1 |
| UnitConverter.RawAliasKeysNeverHit | backend/app/services/unit_converter.py:173-186 | no normalised unit equals a table key spelled as a raw alias ("gal", "L", "pounds", ...) |
| ConversionRoundTrip.ConvertWithRoundTrip | backend/app/services/unit_converter.py:177-186 | converting a→b and back returns the value, for any reciprocal table |
| ConversionRoundTrip.ConvertRoundTrip | backend/app/services/unit_converter.py:11-13 | for all compatible units, converting there and back returns the original value |
| UnitConverter.ExtractUnitFromString | backend/app/services/unit_converter.py:202-228 | empty text gives none; a result is lower case, 1 to 20 characters and not a stop word |
| UnitConverter.NumberUnit | backend/app/services/unit_converter.py:213-219 | the first number-then-letters match, lower-cased, is accepted iff it is no stop word and at most 20 long |
| UnitConverter.CurrencyPrefix | backend/app/services/unit_converter.py:222-226 | only a usd/eur/gbp/cad word before a number is accepted |
| UnitConverter.SearchNumberUnitNone | backend/app/services/unit_converter.py:213 | the scanner finds nothing iff no position holds a number followed by letters |
| UnitConverter.SearchNumberUnitLeftmost | backend/app/services/unit_converter.py:213 | the scanner returns the unit words of the leftmost match |
| UnitConverter.CleanDropsOneSymbol | backend/app/services/unit_converter.py:205-209 | exactly one leading currency symbol is dropped and the text re-stripped |
| UnitConverter.ExtractAccepts | backend/app/services/unit_converter.py:213-219 | an acceptable first match is the result |
| UnitConverter.ExtractFallsBack | backend/app/services/unit_converter.py:221-228 | without an acceptable first match the result is the currency prefix or none |
| UnitConverter.ScanWatts | backend/app/services/unit_converter.py:213 | "2000W" yields "W" |
| UnitConverter.ScanTwoWords | backend/app/services/unit_converter.py:213 | "10 lbs max" yields the two words "lbs max" |
| UnitConverter.ScanStopWord | backend/app/services/unit_converter.py:213-218 | "5 per" yields the stop word "per", which is then refused |
| UnitConverter.ScanCurrencyCode | backend/app/services/unit_converter.py:213-222 | "USD 199.99" has no number-then-unit match and a leading word "USD" |
| SchemaValidator.ValidateSchema | backend/app/services/schema_validator.py:17-51 | the errors are exactly the schema's error list; ok iff that list is empty |
| SchemaValidator.CheckField | backend/app/services/schema_validator.py:39-42 | one pass of the field loop appends exactly that field's errors |
| SchemaValidator.SchemaValidIff | backend/app/services/schema_validator.py:27-51 | a schema is valid iff field names and metric names are distinct and every field has a name and a label |
| SchemaValidator.FieldDuplicatesReportedOnce | backend/app/services/schema_validator.py:27-29 | duplicate field names add exactly one error |
| SchemaValidator.MetricDuplicatesReportedOnce | backend/app/services/schema_validator.py:32-35 | duplicate metric names add exactly one error |
| SchemaValidator.FormulasNotChecked | backend/app/services/schema_validator.py:45-49 | metric formulas do not affect schema validation |
| SchemaValidator.DuplicatesIffNotDistinct | backend/app/services/schema_validator.py:28 | `len(names) != len(set(names))` iff some name repeats |
| SchemaValidator.ValidateDataAgainstSchema | backend/app/services/schema_validator.py:54-109 | the errors are exactly the record's error list; ok iff that list is empty |
| SchemaValidator.CheckValue | backend/app/services/schema_validator.py:70-107 | one value gives no error iff its field type accepts it, else the type error of its field |
| SchemaValidator.DataValidIff | backend/app/services/schema_validator.py:63-109 | a record is valid iff every required field is present and every present field's value is accepted |
| SchemaValidator.MissingReportedOnce | backend/app/services/schema_validator.py:64-66 | exactly one missing error per absent required field |
| SchemaValidator.IntegerRejectsUnitString | backend/app/services/schema_validator.py:73-78 | an integer field refuses "2000 W" |
| Values.UnderscoredTextConverts | backend/app/services/schema_validator.py:76 | `int("1_000")` is 1000 |
| Values.ExponentTextConverts | backend/app/services/ai_extractor.py:306 | `float("1e3")` is 1000.0 |
| SchemaValidator.DecimalAcceptsDigitText | backend/app/services/schema_validator.py:80-93 | a decimal field accepts any string holding a digit |
| SchemaValidator.CoerceValueShape | backend/app/services/schema_validator.py:133-160 | a coerced value has the field's type; boolean and text coercion never fail; a value of the right type is kept |
| SchemaValidator.CoerceIntegerText | backend/app/services/schema_validator.py:135-140 | an integer string is reduced to its first digit run |
| SchemaValidator.CoerceNegativeText | backend/app/services/schema_validator.py:138-140 | "-5" becomes 5: the sign is lost |
| SchemaValidator.CoerceDecimalText | backend/app/services/schema_validator.py:147-152 | a decimal string is reduced to its first decimal run |
| SchemaValidator.FieldOutcome | backend/app/services/schema_validator.py:118-171 | an absent field is omitted; a kept value is null only for a required field, else typed; a present required field is always kept |
| SchemaValidator.NormalizeData | backend/app/services/schema_validator.py:112-173 | the loop builds exactly the normalised record of the fields in order |
| SchemaValidator.NormalizeKeys | backend/app/services/schema_validator.py:118-119 | only schema fields present in the input appear in the output |
| SchemaValidator.NormalizeEntry | backend/app/services/schema_validator.py:118-171 | with distinct names, each field's entry is its own outcome |
| SchemaValidator.RequiredPresentKept | backend/app/services/schema_validator.py:127-129 | a present required field is never omitted |
| SchemaValidator.NormalizeTyped | backend/app/services/schema_validator.py:133-168 | each output value has its field's type, or is null for a required field |
| SchemaValidator.NormalizeIdempotent | backend/app/services/schema_validator.py:112-173 | normalising twice equals normalising once |
| SchemaValidator.NormalizePreservesValid | backend/app/services/schema_validator.py:54-173 | a valid record stays valid after normalisation |
| SchemaValidator.NormalizeRepairsWrappedValue | backend/app/services/schema_validator.py:123-124 | the converse fails: a wrapped integer is invalid before and valid after |
| Extractor.ReadValue | backend/app/services/ai_extractor.py:281-329 | a read value is a number, a real for decimal fields; only objects and nulls can be unreadable |
| Extractor.ReadText | backend/app/services/ai_extractor.py:298-329 | a string always gives a number or a skip, never an unreadable entry |
| Extractor.ReadOne | backend/app/services/ai_extractor.py:277-329 | the case analysis of one value equals its reading |
| Extractor.Reconcile | backend/app/services/ai_extractor.py:331-353 | a non-string unit raises; a changed value comes only from an applicable conversion |
| Extractor.ConvertOne | backend/app/services/ai_extractor.py:331-353 | the conversion step equals its reconciliation |
| Extractor.ReconcileRoundTrip | backend/app/services/ai_extractor.py:343-349 | a converted value converts back to the extracted one |
| Extractor.SchemaUnitNeverConverts | backend/app/services/ai_extractor.py:343 | without a schema unit, an extracted unit, or a difference between them, the value is kept |
| Extractor.FinalValue | backend/app/services/ai_extractor.py:355-365 | decimal fields store a float, integer fields a truncated int, others the value as is |
| Extractor.PreprocessField | backend/app/services/ai_extractor.py:267-377 | only the field's own key changes or goes; a failure comes only from an object value |
| Extractor.PreprocessOne | backend/app/services/ai_extractor.py:267-377 | one pass of the first loop equals the field's pre-processing |
| Extractor.PreprocessFields | backend/app/services/ai_extractor.py:267-377 | the first loop equals pre-processing the fields in order |
| Extractor.PreprocessFailureSticks | backend/app/services/ai_extractor.py:336 | an escaping unit error ends the pipeline |
| Extractor.SkippedUntouched | backend/app/services/ai_extractor.py:268-275 | absent fields and None/"null"/"none" values are left as they are |
| Extractor.BareNumberStored | backend/app/services/ai_extractor.py:282-284 | a bare number becomes a float for decimal fields and a truncated int otherwise |
| Extractor.NullObjectRemoved | backend/app/services/ai_extractor.py:287-290 | an object with a null value is removed |
| Extractor.ObjectWithoutValueRemoved | backend/app/services/ai_extractor.py:372-377 | an object without a value key is removed |
| Extractor.UncoercibleObjectKept | backend/app/services/ai_extractor.py:291-295 | an object whose value cannot be coerced is left untouched |
| Extractor.ObjectUsesItsUnit | backend/app/services/ai_extractor.py:287-292 | an object's coerced value is reconciled with the object's own unit |
| Extractor.PriceNeverConverted | backend/app/services/ai_extractor.py:303-311 | a price-like string loses its currency symbols and commas, is parsed as a float and is stored |
| Extractor.StringReducedToNumber | backend/app/services/ai_extractor.py:313-323 | a non-price string is reduced to its first digit run for non-decimal fields |
| Extractor.StringReducedToDecimal | backend/app/services/ai_extractor.py:313-323 | a decimal field's string is reduced to its first decimal run |
| Extractor.ModelNumberBecomesDigits | backend/app/services/ai_extractor.py:313-365 | a text field holding "EU2200i" is stored as the number 2200 |
| Extractor.ReadStoresNumber | backend/app/services/ai_extractor.py:355-365 | a value that pre-processing changes is stored as a number: a float for decimal fields, an int for integer fields |
| Extractor.CleanupField | backend/app/services/ai_extractor.py:380-412 | the clean-up of one field keeps the key set and every other key |
| Extractor.CleanupFields | backend/app/services/ai_extractor.py:379-412 | the clean-up loop equals cleaning the fields in order |
| Extractor.CleanupOne | backend/app/services/ai_extractor.py:380-412 | one pass of the clean-up loop equals cleaning that field |
| Extractor.CleanupFieldClean | backend/app/services/ai_extractor.py:383-412 | a cleaned field stays clean when other fields are cleaned |
| Extractor.CleanupLeavesNoObjects | backend/app/services/ai_extractor.py:379-412 | afterwards no schema field holds an object and no numeric field holds a string |
| Extractor.RestoreName | backend/app/services/ai_extractor.py:418-433 | every key but "name" is kept; a real captured name is restored trimmed, else an existing truthy name is kept |
| Extractor.PostProcess | backend/app/services/ai_extractor.py:261-435 | the whole block equals pre-processing, clean-up, normalisation and name restore |
| Extractor.PostProcessKeys | backend/app/services/ai_extractor.py:415-419 | the output keys are present schema fields plus "name" |
| Extractor.NameRestored | backend/app/services/ai_extractor.py:418-419 | a real captured name is in the output, trimmed, even when "name" is no schema field |
| Extractor.PostProcessTyped | backend/app/services/ai_extractor.py:415 | every schema field in the output has its type or is a required null |
| MetricCalculator.Identifiers | backend/app/services/metric_calculator.py:26-27 | every found token is an identifier `[a-zA-Z_][a-zA-Z0-9_]*` |
| MetricCalculator.SubstituteAll | backend/app/services/metric_calculator.py:30-43 | substitution fails only on a present, non-numeric field |
| MetricCalculator.FormulaResult | backend/app/services/metric_calculator.py:13-55 | a failure is a non-numeric field or an evaluation error naming the formula |
| MetricCalculator.EvaluateFormula | backend/app/services/metric_calculator.py:13-55 | the replacement loop, whitelist and evaluation equal the formula's result |
| MetricCalculator.CalculateMetric | backend/app/services/metric_calculator.py:58-69 | a metric's value is its formula's result |
| MetricCalculator.FieldFormulaValue | backend/app/services/metric_calculator.py:31-36 | a formula that is one integer field evaluates to that field |
| MetricCalculator.ForbiddenCharacterFails | backend/app/services/metric_calculator.py:48-50 | a character outside the whitelist and outside identifiers makes the formula fail |
| MetricCalculator.InjectionRejected | backend/app/services/metric_calculator.py:48-50 | "price; import os" fails |
| MetricCalculator.PowerAndFloorDivisionAdmitted | backend/app/services/metric_calculator.py:48-53 | "2**3//3" passes the whitelist and evaluates to 2 |
| MetricCalculator.DivisionByZeroReported | backend/app/services/metric_calculator.py:52-55 | "1/0" fails with an evaluation error naming the formula |
| MetricCalculator.WhitelistedFormulasAgree | backend/app/services/metric_calculator.py:26-55 | on formulas without identifiers the corrected evaluator agrees with the original |
| MetricCalculator.SubstitutionAbsorbsMissingField | backend/app/services/metric_calculator.py:31-36 | "ab+a+b" with a=1, b=2 and no field ab evaluates to 15 |
| MetricCalculator.SpellingLosesGrouping | backend/app/services/metric_calculator.py:36-52 | "a**2" with a=-2 evaluates to -4 |
| MetricCalculator.Bindings | backend/app/services/metric_calculator.py:31-43 | binding succeeds iff every identifier is a present, float-convertible field |
| MetricCalculator.CorrectedResult | backend/app/services/metric_calculator.py:13-55 | the corrected evaluator fails only on a missing or non-numeric field or an evaluation error |
| MetricCalculator.EvaluateFormulaCorrected | backend/app/services/metric_calculator.py:13-55 | the corrected loop equals the corrected result |
| MetricCalculator.BindFields | backend/app/services/metric_calculator.py:31-43 | the loop over the identifiers equals binding them in order, stopping at the first missing or non-numeric field |
| MetricCalculator.CorrectedFieldFormulaValue | backend/app/services/metric_calculator.py:31-41 | a formula that is one numeric field evaluates to its float |
| MetricCalculator.CorrectedMissingFieldFails | backend/app/services/metric_calculator.py:33-50 | a formula naming a missing field fails |
| MetricCalculator.CorrectedSquare | backend/app/services/metric_calculator.py:36-52 | `name**2` evaluates to the square of the field, negative or not |
| Arithmetic.Apply | backend/app/services/metric_calculator.py:52-53 | `/` and `//` fail iff the divisor is 0; `/` inverts `*`; `//` is the floor of the quotient |
| Arithmetic.Power | backend/app/services/metric_calculator.py:52-53 | `0 ** negative` fails as a division by zero; a natural exponent always succeeds |
| Arithmetic.IntSpellingRoundTrip | backend/app/services/metric_calculator.py:36-52 | evaluating `str(i)` of an integer gives back i |
| Comparator.Verdict | backend/app/services/comparator.py:48-69 | competitor wins iff it is better in the field's direction, user iff the user is, equal iff the values are equal; only a competitor win alerts |
| Comparator.FieldEntry | backend/app/services/comparator.py:30-95 | absent iff either value is missing or None; numeric fields give the difference and verdict, or a level entry when coercion fails; text fields are equal or different, never alerting |
| Comparator.CompareField | backend/app/services/comparator.py:31-95 | one pass of the field loop equals the field's entry |
| Comparator.CompareNumericField | backend/app/services/comparator.py:41-86 | for two present values of a numeric field, the `float` attempt and its fallback equal the field's entry |
| Comparator.FieldVerdict | backend/app/services/comparator.py:48-69 | the field if-chain equals the verdict: red for a lower-is-better win by the competitor, yellow for a higher-is-better one |
| Comparator.CompareFields | backend/app/services/comparator.py:30-95 | the field loop equals the fields' entries |
| Comparator.MetricEntry | backend/app/services/comparator.py:99-137 | absent iff `calculate_metric` fails on either record; else its two results as written, their difference and the verdict with a yellow alert |
| Comparator.CompareMetric | backend/app/services/comparator.py:100-137 | one pass of the metric loop, calling `calculate_metric` on both records, equals the metric's entry |
| Comparator.MetricVerdict | backend/app/services/comparator.py:107-126 | the if-chain equals the verdict with a yellow alert for a competitor win |
| Comparator.MetricsFrom | backend/app/services/comparator.py:107-126 | no metric alert is red |
| Comparator.CompareMetrics | backend/app/services/comparator.py:98-137 | the metric loop equals the metrics' entries, each from the formula evaluator as written |
| Comparator.Compare | backend/app/services/comparator.py:12-139 | `compare` equals its specification: the field entries and the as-written metric entries |
| Comparator.FieldPresence | backend/app/services/comparator.py:36-38 | a field is in the result iff it is a schema field that neither record lacks |
| Comparator.FieldEntryOf | backend/app/services/comparator.py:71-95 | with distinct names each field's entry is its own |
| Comparator.UpdateOf | backend/app/services/comparator.py:71-95 | after keyed assignments in order, a key assigned once holds the value assigned to it |
| Comparator.MetricPresence | backend/app/services/comparator.py:100-137 | a metric is in the result iff `calculate_metric` succeeds on both records for some metric of that name |
| Comparator.VerdictAntisymmetric | backend/app/services/comparator.py:48-69 | swapping user and competitor swaps the winner |
| Comparator.SelfComparisonIsLevel | backend/app/services/comparator.py:30-137 | a record compared with itself is level everywhere with no alert |
| Comparator.RedMeansLowerIsBetter | backend/app/services/comparator.py:48-52 | a red field is numeric, lower-is-better, won by the competitor |
| Matcher.NumericSimilarity | backend/app/services/matcher.py:57-61 | the similarity is in [0,1] and is 1 iff the values are equal |
| Matcher.Weight | backend/app/services/matcher.py:64-73 | the weight is 2 iff the field is required, else 1 |
| Matcher.FieldScore | backend/app/services/matcher.py:40-75 | skipped iff a value is missing or a numeric value fails coercion; a score in [0,1] with its weight |
| Matcher.ScoreField | backend/app/services/matcher.py:41-75 | one pass of the loop equals the field's score |
| Matcher.ScoreNumericField | backend/app/services/matcher.py:50-69 | for two present values of a numeric field, the `float` attempt and its skip equal the field's score |
| Matcher.Similarity | backend/app/services/matcher.py:57-61 | the similarity arithmetic equals the numeric similarity, which lies in [0,1] and is 1 iff the values are equal |
| Matcher.CalculateSpecSimilarity | backend/app/services/matcher.py:22-84 | the loop and weighted average equal the specification |
| Matcher.AddScore | backend/app/services/matcher.py:66-67 | appending a score keeps the two lists aligned and adds exactly that pair |
| Matcher.SpecSimilarityInUnitInterval | backend/app/services/matcher.py:77-84 | the spec similarity lies in [0,1] |
| Matcher.SelfSimilarity | backend/app/services/matcher.py:57-84 | a record scores 1 against itself when a field is comparable, else 0 |
| Matcher.Confidence | backend/app/services/matcher.py:196 | the blend lies between its two inputs |
| Matcher.ConfidenceInUnitInterval | backend/app/services/matcher.py:196 | the blend of two scores in [0,1] is in [0,1] |
| Matcher.NormalizedCosine | backend/app/services/matcher.py:127 | a cosine in [-1,1] maps into [0,1]; 1 iff cosine 1, 0.5 iff cosine 0 |
| Matcher.EmbeddingSimilarity | backend/app/services/matcher.py:120-129 | a zero norm gives 0.5 |
| Matcher.ZeroVectorIsNeutral | backend/app/services/matcher.py:120-127 | an all-zero user vector has dot product 0 with any vector, so the similarity is 0.5 whatever the norms |
| Matcher.SearchScore | backend/app/services/matcher.py:158 | every match of the score regex is a float mantissa |
| Matcher.SearchScoreNone | backend/app/services/matcher.py:158-159 | the search finds nothing iff no position holds a "0", a "." before a digit, or "1.0" |
| Matcher.SearchScoreLeftmost | backend/app/services/matcher.py:158 | a found text stands in the reply at the leftmost position where a match starts |
| Matcher.SearchScoreInUnitInterval | backend/app/services/matcher.py:158-160 | every match parses to a value in [0,1] |
| Matcher.ReplySimilarity | backend/app/services/matcher.py:155-166 | the reply fallback is in [0,1]; it is the number found in the stripped reply, and 0.5 when the call failed or no number was found |
| Matcher.ReplyClampIsRedundant | backend/app/services/matcher.py:159-161 | the clamp returns the parsed match unchanged |
| Matcher.MatchParses | backend/app/services/matcher.py:160 | `float()` of a match is its mantissa value |
| Matcher.SemanticSimilarity | backend/app/services/matcher.py:116-166 | without embeddings the semantic score is in [0,1] |
| Matcher.CalculateConfidenceScore | backend/app/services/matcher.py:168-202 | the three scores returned, with the confidence in [0,1] for a semantic score in [0,1] |
| AlertCalculator.ScanRedFields | backend/app/services/alert_calculator.py:32-39 | a red price field appends the listing to the drops, any other red field to the spec list |
| AlertCalculator.ScanYellow | backend/app/services/alert_calculator.py:41-50 | a yellow field or metric appends the listing to the spec list |
| AlertCalculator.ScanYellowFields | backend/app/services/alert_calculator.py:42-44 | the listing is appended, and only it, iff some field carries a yellow alert |
| AlertCalculator.ScanYellowMetrics | backend/app/services/alert_calculator.py:47-50 | the listing is appended, and only it, iff some metric carries a yellow alert |
| AlertCalculator.ScanResult | backend/app/services/alert_calculator.py:28-50 | one result adds a drop iff it has a red price field and a spec entry iff it has a spec alert |
| AlertCalculator.ScanResults | backend/app/services/alert_calculator.py:27-50 | the listings collected are exactly the drop and spec listings |
| AlertCalculator.Group | backend/app/services/alert_calculator.py:54-58 | a listing's group holds its own records from the history |
| AlertCalculator.GroupHistory | backend/app/services/alert_calculator.py:54-58 | the groups are keyed by every truthy listing id and hold its records in order |
| AlertCalculator.FirstIndex | backend/app/services/alert_calculator.py:66-69 | the first record after the stable sort: a least `recorded_at`, the earliest such |
| AlertCalculator.LastIndex | backend/app/services/alert_calculator.py:66-70 | the last record after the stable sort: a greatest `recorded_at`, the latest such |
| AlertCalculator.PriceOf | backend/app/services/alert_calculator.py:77-84 | "PRICE" overrides "Price", which overrides "price" |
| AlertCalculator.FindPrice | backend/app/services/alert_calculator.py:80-84 | the key loop finds that price |
| AlertCalculator.PriceTrend | backend/app/services/alert_calculator.py:61-97 | the trend of one listing's records |
| AlertCalculator.HistoryTrends | backend/app/services/alert_calculator.py:61-97 | rising listings are increases; falling ones are added to the drops |
| AlertCalculator.IncreaseIds | backend/app/services/alert_calculator.py:91-92 | increases are history listings with at least two records whose price rose |
| AlertCalculator.RiseAndDropDisjoint | backend/app/services/alert_calculator.py:91-95 | no listing is both an increase and a history drop |
| AlertCalculator.HistoryDropIds | backend/app/services/alert_calculator.py:93-95 | history drops are history listings with at least two records whose price fell |
| AlertCalculator.AlertsFor | backend/app/services/alert_calculator.py:135-157 | `price_drop` iff some result of the listing has a red field; `spec_disadvantage` iff one has a yellow field or metric |
| AlertCalculator.GetAlertsForListing | backend/app/services/alert_calculator.py:135-157 | the loop collects exactly those alert kinds |
| AlertCalculator.CalculateSeverity | backend/app/services/alert_calculator.py:159-168 | high iff both kinds, medium iff exactly one, low iff none |
| AlertCalculator.CalculateSeverityFor | backend/app/services/alert_calculator.py:159-168 | `_calculate_severity` is the severity of the listing's alerts |
| AlertCalculator.Percentage | backend/app/services/alert_calculator.py:106-108 | 0 without listings, non-negative, at most 100 for a count within the total |
| AlertCalculator.ListingAlertOf | backend/app/services/alert_calculator.py:125-132 | a listing's entry holds its alerts and their severity |
| AlertCalculator.ListingAlerts | backend/app/services/alert_calculator.py:125-132 | one entry per distinct comparison listing |
| AlertCalculator.CalculateSummary | backend/app/services/alert_calculator.py:12-133 | the summary equals its specification |
| AlertCalculator.SpecShareBounded | backend/app/services/alert_calculator.py:101-118 | the spec-disadvantage percentage is in [0,100] |
| AlertCalculator.HistoryShareBounded | backend/app/services/alert_calculator.py:100-122 | with history listings among the comparison listings, drops are in [-100,0] and increases in [0,100] |
| AlertCalculator.CountedDropAlerts | backend/app/services/alert_calculator.py:147-148 | a counted price drop carries the price-drop alert and at least medium severity |
| AlertCalculator.CountedSpecAlerts | backend/app/services/alert_calculator.py:146-155 | a counted spec disadvantage carries some alert and at least medium severity |
| AlertCalculator.SingleObservationsShowNoTrend | backend/app/services/alert_calculator.py:62-63 | with one record per listing there are no increases and only comparison drops |
| AlertCalculator.RedSpecFieldReadTwoWays | backend/app/services/alert_calculator.py:36-39 | a red "weight"-like field counts as a spec disadvantage but is listed as a price drop |
| Retailers.GetRetailerHandler | backend/app/services/retailers/__init__.py:19-43 | a name finds a handler iff its lower-case form is registered |
| Retailers.RegistryIsExact | backend/app/services/retailers/__init__.py:11-16 | the registry maps exactly the four names to their handlers |
| Retailers.UrlDispatchIsFirstMatch | backend/app/services/retailers/__init__.py:30-40 | a URL goes to the first handler whose domain it mentions, and to none iff it mentions no domain |
| Retailers.DispatchToFirst | backend/app/services/retailers/__init__.py:30-39 | the first mentioned domain decides |
| Retailers.NameLookup | backend/app/services/retailers/__init__.py:43 | a name finds the handler registered under its lower-case form |
| Retailers.NameFindsHandler | backend/app/services/retailers/__init__.py:43 | a handler's name in any case finds that handler |
| Retailers.CaseInsensitive | backend/app/services/retailers/__init__.py:30-43 | lower-casing the input first changes nothing |
| Retailers.ProductPageDispatch | backend/app/services/retailers/__init__.py:30-39 | a handler's product page goes to it or to a handler whose domain is checked earlier |
| Retailers.SearchUrlDispatches | backend/app/services/retailers/__init__.py:30-39 | a handler's search URL goes back to it unless the query names an earlier domain |
| Retailers.WalmartSearchNamingAmazon | backend/app/services/retailers/__init__.py:32-35 | a Walmart search for a query naming amazon.com goes to Amazon |
| Amazon.BuildSearchUrl | backend/app/services/retailers/amazon.py:18-20 | the query follows `s?k=` with every space turned into "+" |
| Amazon.ProductRefOf | backend/app/services/retailers/amazon.py:69-116 | a link names a product only in an accepted shape; `/dp/` gives a 10-character alphanumeric ASIN, `/gp/product/` a non-empty id |
| Amazon.CanonicalUrl | backend/app/services/retailers/amazon.py:68-116 | a found URL is on the base domain; an absolute link must name amazon.com; an empty link gives nothing |
| Amazon.DpLinkNamesAsin | backend/app/services/retailers/amazon.py:74-107 | a relative or amazon.com link whose first "/dp/" is followed by an ASIN and a new segment, query or fragment names that ASIN |
| Amazon.GpLinkNamesId | backend/app/services/retailers/amazon.py:74-116 | such a link with "/gp/product/" and no "/dp/" names the id after the marker |
| Amazon.CanonicalDpLink | backend/app/services/retailers/amazon.py:68-107 | such a "/dp/" link with no edge spaces is kept as the base domain plus "/dp/" and the ASIN |
| Amazon.CanonicalGpLink | backend/app/services/retailers/amazon.py:68-116 | such a "/gp/product/" link is kept as the base domain plus "/gp/product/" and the id |
| Amazon.RelativeDpLinkKept | backend/app/services/retailers/amazon.py:68-86 | "/dp/" followed by an ASIN is kept as the base domain plus "/dp/" and the ASIN |
| Amazon.AbsoluteDpLinkKept | backend/app/services/retailers/amazon.py:68-107 | "https://www.amazon.com/dp/" followed by an ASIN is kept as the base domain plus "/dp/" and the ASIN |
| Amazon.CollectLinks | backend/app/services/retailers/amazon.py:61-116 | the link loop collects the canonical URLs once each, in first-seen order |
| Amazon.ExtractProductUrls | backend/app/services/retailers/amazon.py:58-131 | the method equals its specification |
| Amazon.ExtractedDistinctAndBounded | backend/app/services/retailers/amazon.py:128-131 | no repeats; at most `max_results` URLs |
| Amazon.FoundOnBase | backend/app/services/retailers/amazon.py:83-113 | every URL from a link is on the base domain |
| Amazon.FallbackOnlyWhenNothingFound | backend/app/services/retailers/amazon.py:119-129 | the regex matches matter only when the links gave nothing |
| Amazon.ProductUrlInjective | backend/app/services/retailers/amazon.py:83-93 | two products give two URLs |
| Amazon.ProductUrlIsProductPage | backend/app/services/retailers/amazon.py:83-93 | on an amazon.com base every built URL is a product page |
| Amazon.ExtensionOf | backend/app/services/retailers/amazon.py:195-200 | an extension is found iff the part ends with a listed one |
| Amazon.FirstExtension | backend/app/services/retailers/amazon.py:194-201 | none iff no part has an image extension; a result is a listed extension |
| Amazon.WithoutSizeSuffix | backend/app/services/retailers/amazon.py:187-202 | the cleaned URL holds no "._"; it is the part before the first "._", followed by nothing or by a listed extension, and by nothing when that part has an extension |
| Amazon.StemKept | backend/app/services/retailers/amazon.py:188-191 | when the part before the first "._" ends in an image extension the cleaned URL is exactly that part |
| Amazon.SuffixExtensionRestored | backend/app/services/retailers/amazon.py:188-202 | a stem without an extension followed by "._" and a suffix ending in one gets that suffix's first listed extension back |
| Amazon.CleanedImageUrl | backend/app/services/retailers/amazon.py:178-206 | a returned URL starts with "http"; an amazon.com URL is returned without "._" |
| Amazon.AmazonImageCleaned | backend/app/services/retailers/amazon.py:178-206 | an amazon.com http URL with a size suffix is returned as its stem and the suffix's extension |
| Amazon.PlainImageKept | backend/app/services/retailers/amazon.py:178-206 | an http URL without "._" is returned as it is |
| Amazon.FindExtension | backend/app/services/retailers/amazon.py:197-200 | the inner loop finds that extension |
| Amazon.FindFirstExtension | backend/app/services/retailers/amazon.py:194-201 | the outer loop finds that extension |
| Amazon.CleanImageUrl | backend/app/services/retailers/amazon.py:178-206 | the clean-up steps equal the cleaned URL |
| Amazon.CleanedImageUrlIdempotent | backend/app/services/retailers/amazon.py:178-206 | cleaning a cleaned URL changes nothing |
| Walmart.BuildSearchUrl | backend/app/services/retailers/walmart.py:18-20 | the query follows `search?q=` with every space turned into "+" |
| Walmart.ItemUrl | backend/app/services/retailers/walmart.py:46-56 | a record with a non-empty href gives that href and one without href gives nothing; a string gives itself iff it is non-empty; other items are skipped |
| Walmart.Resolve | backend/app/services/retailers/walmart.py:58-62 | a URL starting with "/" goes on the base domain, an http URL is kept as it is, and nothing else is kept |
| Walmart.Candidate | backend/app/services/retailers/walmart.py:64-96 | a candidate has no "?" or "#"; a non-tracking URL gives one iff it is a walmart /ip/ URL |
| Walmart.ItemCandidate | backend/app/services/retailers/walmart.py:46-96 | a candidate comes only from a resolved item URL |
| Walmart.Cap | backend/app/services/retailers/walmart.py:82-96 | the loop's cap is at least 1 and at least `max_results` |
| Walmart.FilterProductUrls | backend/app/services/retailers/walmart.py:40-98 | the loop with its early break equals the first `max(max_results,1)` distinct candidates |
| Walmart.StoppedEarly | backend/app/services/retailers/walmart.py:82-96 | stopping at the cap returns the first URLs of the whole run |
| Walmart.FilteredProperties | backend/app/services/retailers/walmart.py:79-96 | no repeats, no "?" or "#", a prefix of all distinct candidates, at most the cap |
| Walmart.TrackingFallsThrough | backend/app/services/retailers/walmart.py:65-96 | a tracking URL without a walmart /ip/ target is judged as a direct URL |
| Walmart.DirectProductKept | backend/app/services/retailers/walmart.py:89-91 | a direct walmart /ip/ URL is kept cut at its query and fragment |
| Walmart.RelativeProductLink | backend/app/services/retailers/walmart.py:59-91 | a relative /ip/ link is resolved on a walmart.com base and kept |
| Walmart.QueryMarkerKeepsNonProduct | backend/app/services/retailers/walmart.py:90-91 | a page whose query alone holds "/ip/" is kept, cut to a non-product URL |
| HomeDepot.BuildSearchUrl | backend/app/services/retailers/homedepot.py:17-19 | the search path followed by the query with every space spelt "%20"; no space remains |
| HomeDepot.SearchPathDecodes | backend/app/services/retailers/homedepot.py:19 | a query without "%" is read back by turning "%20" into spaces |
| HomeDepot.SearchUrlWithoutSpaces | backend/app/services/retailers/homedepot.py:19 | a query without spaces is put in the path as it is |
| HomeDepot.LinkUrl | backend/app/services/retailers/homedepot.py:49-60 | a kept link holds "/p/" and starts with "/p/" or holds "homedepot.com/p/"; a relative "/p/" link gives the base domain plus the link cut at its query; another link holding "homedepot.com/p/" gives its cut |
| HomeDepot.CollectLinks | backend/app/services/retailers/homedepot.py:48-60 | the link loop collects those URLs once each, in first-seen order |
| HomeDepot.ExtractProductUrls | backend/app/services/retailers/homedepot.py:39-75 | the method equals its specification |
| HomeDepot.RelativeLinkKept | backend/app/services/retailers/homedepot.py:51-55 | a relative /p/ link is always kept, query cut, fragment kept |
| HomeDepot.ExtractedHaveNoQuery | backend/app/services/retailers/homedepot.py:52-70 | no URL has a query when the base domain has none |
| HomeDepot.ExtractedDistinctAndBounded | backend/app/services/retailers/homedepot.py:53-75 | no repeats; at most `max_results` URLs |
| HomeDepot.FallbackOnlyWhenNothingFound | backend/app/services/retailers/homedepot.py:63-73 | the regex matches matter only when no link was kept |
| HomeDepot.QueryMarkerKeepsNonProduct | backend/app/services/retailers/homedepot.py:56-60 | a link whose query alone holds "homedepot.com/p/" is kept as a non-product URL |
| Lowes.BuildSearchUrl | backend/app/services/retailers/lowes.py:17-19 | the query follows `searchTerm=` with every space turned into "+" |
| Lowes.LinkUrl | backend/app/services/retailers/lowes.py:49-61 | a kept link holds "/pd/" and starts with "/pd/" or holds "lowes.com/pd/"; a relative "/pd/" link gives the base domain plus the link cut at query and fragment; another link holding "lowes.com/pd/" gives its cut |
| Lowes.CollectLinks | backend/app/services/retailers/lowes.py:48-61 | the link loop collects those URLs once each, in first-seen order |
| Lowes.ExtractProductUrls | backend/app/services/retailers/lowes.py:39-76 | the method equals its specification |
| Lowes.RelativeLinkKept | backend/app/services/retailers/lowes.py:51-56 | a relative /pd/ link is always kept, cut at query and fragment |
| Lowes.ExtractedHaveNoQuery | backend/app/services/retailers/lowes.py:53-71 | no URL has a query or fragment when the base domain has none |
| Lowes.ExtractedDistinctAndBounded | backend/app/services/retailers/lowes.py:54-76 | no repeats; at most `max_results` URLs |
| Lowes.FallbackOnlyWhenNothingFound | backend/app/services/retailers/lowes.py:64-74 | the regex matches matter only when no link was kept |
| Lowes.QueryMarkerKeepsNonProduct | backend/app/services/retailers/lowes.py:57-58 | a link whose query alone holds "lowes.com/pd/" is kept as a non-product URL |
| Hrefs.BaseDomain | backend/app/services/retailers/amazon.py:62 | `"/".join(url.split("/")[:3])` is a prefix of the URL |
| Hrefs.BaseDomainOf | backend/app/services/retailers/walmart.py:42 | for `scheme://host/path` the base domain is `scheme://host` |
| Hrefs.StripQueryAndFragment | backend/app/services/retailers/walmart.py:91 | the cut URL is a prefix without "?" or "#" |
| Hrefs.StripQueryAndFragmentIdempotent | backend/app/services/retailers/walmart.py:91 | cutting twice is cutting once |
| Hrefs.FirstSeen | backend/app/services/retailers/homedepot.py:53-55 | the kept list has exactly the elements seen, without repeats |
| Hrefs.FirstSeenOrder | backend/app/services/retailers/homedepot.py:53-55 | the kept list is in order of first occurrence |
| Hrefs.FirstSeenIdempotent | backend/app/services/retailers/lowes.py:54-56 | de-duplicating twice is de-duplicating once |
| Hrefs.AppendUnseen | backend/app/services/retailers/lowes.py:54-56 | `if url not in seen_urls` appends exactly the new URLs |
| Hrefs.CollectStep | backend/app/services/retailers/homedepot.py:52-60 | one pass of a link loop appends an unseen URL, and leaves the list and the seen set alone for a seen URL or a link that gave nothing |
| Hrefs.CollectFallback | backend/app/services/retailers/lowes.py:64-74 | the regex loop collects the cut matches once each, in order |
| Hrefs.FallbackUrlsClean | backend/app/services/retailers/lowes.py:68-71 | no fallback URL has "?" or "#" when the base domain has none |
| Hrefs.SliceTo | backend/app/services/retailers/lowes.py:76 | `urls[:n]` is a prefix of length n, or counts from the end for negative n |
| Hrefs.SpacesSpelt | backend/app/services/retailers/amazon.py:20 | a query with every space spelt by a space-free text holds no space |
| Hrefs.ReplaceBlank | backend/app/services/retailers/homedepot.py:19 | `query.replace(' ', rep)` is the query with each space spelt `rep` |
| Hrefs.SpeltCharwise | backend/app/services/retailers/walmart.py:20 | spelling spaces as one character keeps the length and changes exactly the space positions |
| Hrefs.SpeltRoundTrip | backend/app/services/retailers/homedepot.py:19 | replacing the spelling back by spaces recovers the query when its first character does not occur there |
| Hrefs.SearchUrlOf | backend/app/services/retailers/lowes.py:17-19 | a search URL is the prefix followed by the spelt query; no space is left when neither part holds one |
| Hrefs.SearchTermRoundTrip | backend/app/services/retailers/lowes.py:19 | the query is recovered from the part of the search URL after the prefix |

## Left out

- The LLM chat and embedding calls, and the HTTP layer. The extracted record, the embedding
  pair and the chat reply are inputs.
- The code-fence regex, `json.loads` and the BeautifulSoup name and title lookups. The
  parsed record and an optional page title are inputs. The Amazon `data-a-dynamic-image`
  JSON is left out too.
- Prompt construction for the LLM: it is string assembly only.
- Crawling, `get_crawl_config` and `verify_product_content`: they configure or inspect a
  browser run.
- The CSS-selector search in `extract_product_image`. Only the Amazon clean-up of one found
  URL is modelled.
- The Walmart, Home Depot and Lowes image extraction: selector lookups, with no logic
  beyond making a URL absolute.
- HTML parsing. Each href loop takes the page's links as a list of strings, and the raw-HTML
  regex fallback takes its matches as a second list.
- Walmart's `urllib.parse` decoding of tracking URLs. It is a function parameter that gives a
  decoded target, no target, or an exception.
- IEEE floating point. Floats are exact reals, so rounding, overflow, `inf` and `nan` are not
  modelled.
- `str(float)` is written positionally with up to 16 fractional digits. Exponent spellings
  such as `1e-05` are not produced.
- A fractional power of a positive number is reported as an unmodelled evaluation failure.
- `format_metric_value`: display formatting of floats.
- Logging throughout.
- Values.PyStr: a non-empty object is rendered as the placeholder `{...}`, because the model's map
  keeps neither Python's insertion order nor the `repr` of each entry. Two different non-empty
  objects therefore have the same `str()`.
- Values.PyFloat: the spellings "inf", "infinity" and "nan" (any case, with a sign) are refused,
  because reals have no infinity or NaN. Signs, surrounding whitespace, digit-separating
  underscores, a fraction and an exponent are accepted as `float()` accepts them.
- The name check at backend/app/services/ai_extractor.py:234 calls `.strip()` on a truthy
  name, which raises for a name that is not a string. `Extractor.PostProcess` starts from the
  record as it stands at line 261 and does not model that exception. Its branches for a
  truthy non-string name, which `str()` the value, are unreachable from line 234.
- Character classes are ASCII only. `strip()` and `\s` remove the six ASCII whitespace
  characters, not Unicode spaces. `lower()` maps only A-Z. `isalnum()`, `\d` and `int()` accept
  only ASCII letters and digits, not other Unicode letters or digits.
- JSON arrays as record values: a record value is null, a bool, a number, a string or an object.
- `listing_alerts` is a map keyed by listing id. The order of Python's set iteration is not
  modelled.
- The `recorded_at` sort key is a string. Other key types are not modelled.
- `_calculate_semantic_similarity`'s embedding cosine is not proved to lie in [-1,1]. The
  bound is Cauchy–Schwarz, which holds for every real vector whose `norm` is its Euclidean
  norm. `Embedding` does not tie `norm` to `vector`, so the model cannot state the bound.
  `Matcher.ZeroVectorIsNeutral` is proved for any norm.
- SchemaValidator.NormalizeIdempotent: requires distinct field names. With two fields of one
  name (a boolean and an integer reading the same `{value: …}` object) a second pass can
  change the output.
- SchemaValidator.MissingReportedOnce: requires distinct field names. A repeated required
  name is reported once per repetition.
- Matcher.SemanticSimilarity: states the [0,1] bound only for the reply and default
  fallbacks. The embedding branch is bounded only for cosines in [-1,1].

## Findings

| source | as written | input that shows it | evidently intended | confidence | as-written member | corrected member |
|---|---|---|---|---|---|---|
| backend/app/services/metric_calculator.py:31-36 | each identifier in the data is replaced with `str.replace` over the whole text, so it also rewrites the inside of longer identifiers, including ones missing from the data | formula "ab+a+b" with {a: 1, b: 2}: "ab" is missing, yet the text becomes "12+1+2" and evaluates to 15 | a formula naming a missing field fails, as the whitelist step is meant to ensure | not executed | MetricCalculator.SubstitutionAbsorbsMissingField | MetricCalculator.CorrectedMissingFieldFails |
| backend/app/services/metric_calculator.py:36-52 | a value's spelling is pasted into the text without parentheses, so a negative value binds looser than `**` | formula "a**2" with {a: -2} becomes "-2**2" and evaluates to -4 | the formula squares the field's value, giving 4 | not executed | MetricCalculator.SpellingLosesGrouping | MetricCalculator.CorrectedSquare |

The corrected evaluator binds each identifier to its value (`MetricCalculator.Bindings`) and
evaluates the parsed formula with those bindings (`MetricCalculator.CorrectedResult`,
computed by `MetricCalculator.EvaluateFormulaCorrected`). On formulas without identifiers it
agrees with the code as written (`MetricCalculator.WhitelistedFormulasAgree`). It stands
beside the code: `Comparator` calls `MetricCalculator.CalculateMetric`, the evaluator as
written, so its metric entries carry both discrepancies.
