/** `MatcherService`: how closely a candidate product matches the user's product. The
    specification similarity is a weighted average of per-field similarities; the
    confidence blends it 0.6/0.4 with a semantic similarity of the two product names,
    which comes from embeddings or, failing those, from a language model's reply. */
module Matcher {
  import opened Wrappers
  import opened Text
  import opened Values
  import opened Schema

  function Abs(x: real): real {
    if x < 0.0 then -x else x
  }

  /** The similarity of two numbers: for a user value of 0, 1 exactly when the candidate is
      0 as well; otherwise one minus the relative distance, floored at 0. */
  function NumericSimilarity(u: real, c: real): (r: real)
    ensures 0.0 <= r <= 1.0
    ensures r == 1.0 <==> c == u
  {
    if u == 0.0 then (if c == 0.0 then 1.0 else 0.0)
    else
      var diff := Abs(c - u) / Abs(u);
      assert diff == 0.0 <==> c == u;
      if 1.0 - diff > 0.0 then 1.0 - diff else 0.0
  }

  /** Required fields count twice as much as optional ones. */
  function Weight(f: FieldDefinition): (w: real)
    ensures w == 2.0 || w == 1.0
    ensures w == 2.0 <==> f.required
  {
    if f.required then 2.0 else 1.0
  }

  /** One comparable field's similarity and weight. */
  datatype Score = Score(similarity: real, weight: real)

  /** The score of one field, or `None` when it is skipped: a `None` on either side, or a
      numeric field whose values `float()` refuses. */
  function FieldScore(f: FieldDefinition, user: Record, candidate: Record): (r: Option<Score>)
    ensures r.None? <==>
      Get(user, f.name).Null? || Get(candidate, f.name).Null?
      || (IsNumeric(f.fieldType) && (PyFloat(Get(user, f.name)).None? || PyFloat(Get(candidate, f.name)).None?))
    ensures r.Some? ==> 0.0 <= r.value.similarity <= 1.0 && r.value.weight == Weight(f)
    ensures r.Some? && IsNumeric(f.fieldType) ==>
      (r.value.similarity == 1.0 <==> PyFloat(Get(user, f.name)) == PyFloat(Get(candidate, f.name)))
    ensures r.Some? && !IsNumeric(f.fieldType) ==>
      r.value.similarity == (if PyEq(Get(user, f.name), Get(candidate, f.name)) then 1.0 else 0.0)
  {
    var uv := Get(user, f.name);
    var cv := Get(candidate, f.name);
    if uv.Null? || cv.Null? then None
    else if IsNumeric(f.fieldType) then
      match (PyFloat(uv), PyFloat(cv))
      case (Some(u), Some(c)) => Some(Score(NumericSimilarity(u, c), Weight(f)))
      case _ => None
    else
      Some(Score(if PyEq(uv, cv) then 1.0 else 0.0, Weight(f)))
  }

  predicate WellFormedScores(scores: seq<Score>) {
    forall k :: 0 <= k < |scores| ==> 0.0 <= scores[k].similarity <= 1.0 && scores[k].weight >= 1.0
  }

  /** The scores the loop collects over `fields`, in field order. */
  function Scores(fields: seq<FieldDefinition>, user: Record, candidate: Record): (r: seq<Score>)
    ensures |r| <= |fields|
    ensures WellFormedScores(r)
    decreases |fields|
  {
    if fields == [] then []
    else
      var earlier := Scores(fields[..|fields| - 1], user, candidate);
      match FieldScore(fields[|fields| - 1], user, candidate)
      case None => earlier
      case Some(s) => earlier + [s]
  }

  /** `sum(s * w for s, w in zip(similarities, weights))` */
  function WeightedSum(scores: seq<Score>): real {
    if scores == [] then 0.0
    else WeightedSum(scores[..|scores| - 1]) + scores[|scores| - 1].similarity * scores[|scores| - 1].weight
  }

  /** `sum(weights)` */
  function TotalWeight(scores: seq<Score>): real {
    if scores == [] then 0.0 else TotalWeight(scores[..|scores| - 1]) + scores[|scores| - 1].weight
  }

  /** What `_calculate_spec_similarity` returns. */
  function SpecSimilarity(user: Record, candidate: Record, schema: ProductSchema): real {
    if schema.fields == [] then 0.0
    else
      var scores := Scores(schema.fields, user, candidate);
      if scores == [] then 0.0
      else if TotalWeight(scores) > 0.0 then WeightedSum(scores) / TotalWeight(scores)
      else 0.0
  }

  /** The two parallel lists the loop fills, read back as scores. */
  function Zip(similarities: seq<real>, weights: seq<real>): (r: seq<Score>)
    requires |similarities| == |weights|
    ensures |r| == |similarities|
    ensures forall k :: 0 <= k < |r| ==> r[k] == Score(similarities[k], weights[k])
  {
    if similarities == [] then []
    else
      var n := |similarities| - 1;
      Zip(similarities[..n], weights[..n]) + [Score(similarities[n], weights[n])]
  }

  /** One pass of the loop: the field's similarity and weight, or `None` for a skipped field. */
  method ScoreField(field: FieldDefinition, user: Record, candidate: Record) returns (score: Option<Score>)
    ensures score == FieldScore(field, user, candidate)
  {
    var userValue := Get(user, field.name);
    var candidateValue := Get(candidate, field.name);
    if userValue.Null? || candidateValue.Null? {
      return None;
    }
    if IsNumeric(field.fieldType) {
      score := ScoreNumericField(field, user, candidate);
    } else {
      var weight := if field.required then 2.0 else 1.0;
      var similarity := if PyEq(userValue, candidateValue) then 1.0 else 0.0;
      score := Some(Score(similarity, weight));
    }
  }

  /** The numeric branch of the loop for two present values: `float()` both, or skip. */
  method ScoreNumericField(field: FieldDefinition, user: Record, candidate: Record) returns (score: Option<Score>)
    requires Get(user, field.name) != Null && Get(candidate, field.name) != Null
    requires IsNumeric(field.fieldType)
    ensures score == FieldScore(field, user, candidate)
  {
    var userNum := PyFloat(Get(user, field.name));
    var candidateNum := PyFloat(Get(candidate, field.name));
    if userNum.None? || candidateNum.None? {
      return None;
    }
    var similarity := Similarity(userNum.value, candidateNum.value);
    var weight := if field.required then 2.0 else 1.0;
    score := Some(Score(similarity, weight));
  }

  /** The similarity arithmetic of the loop for two numbers. */
  method Similarity(u: real, c: real) returns (similarity: real)
    ensures similarity == NumericSimilarity(u, c)
  {
    if u == 0.0 {
      similarity := if c == 0.0 then 1.0 else 0.0;
    } else {
      var diff := Abs(c - u) / Abs(u);
      similarity := if 1.0 - diff > 0.0 then 1.0 - diff else 0.0;
    }
  }

  /** `_calculate_spec_similarity`: collect similarities and weights, then average. */
  method CalculateSpecSimilarity(user: Record, candidate: Record, schema: ProductSchema) returns (r: real)
    ensures r == SpecSimilarity(user, candidate, schema)
  {
    if |schema.fields| == 0 {
      return 0.0;
    }
    var similarities: seq<real> := [];
    var weights: seq<real> := [];
    var i := 0;
    while i < |schema.fields|
      invariant i <= |schema.fields|
      invariant |similarities| == |weights|
      invariant Zip(similarities, weights) == Scores(schema.fields[..i], user, candidate)
    {
      ScoresStep(schema.fields, i, user, candidate);
      var score := ScoreField(schema.fields[i], user, candidate);
      similarities, weights := AddScore(similarities, weights, score);
      i := i + 1;
    }
    assert schema.fields[..i] == schema.fields;
    var scores := Zip(similarities, weights);
    if similarities == [] {
      return 0.0;
    }
    var weightedSum := WeightedSum(scores);
    var totalWeight := TotalWeight(scores);
    r := if totalWeight > 0.0 then weightedSum / totalWeight else 0.0;
  }

  /** Appending a field's similarity and weight to the two lists, when it has them. */
  method AddScore(similarities: seq<real>, weights: seq<real>, score: Option<Score>)
    returns (similarities': seq<real>, weights': seq<real>)
    requires |similarities| == |weights|
    ensures |similarities'| == |weights'|
    ensures Zip(similarities', weights') ==
      Zip(similarities, weights) + (if score.Some? then [score.value] else [])
  {
    similarities', weights' := similarities, weights;
    if score.Some? {
      ZipSnoc(similarities, weights, score.value.similarity, score.value.weight);
      similarities' := similarities + [score.value.similarity];
      weights' := weights + [score.value.weight];
    }
  }

  lemma ScoresStep(fields: seq<FieldDefinition>, i: nat, user: Record, candidate: Record)
    requires i < |fields|
    ensures Scores(fields[..i + 1], user, candidate) ==
      match FieldScore(fields[i], user, candidate)
      case None => Scores(fields[..i], user, candidate)
      case Some(s) => Scores(fields[..i], user, candidate) + [s]
  {
    assert fields[..i + 1][..i] == fields[..i];
  }

  lemma ZipSnoc(similarities: seq<real>, weights: seq<real>, s: real, w: real)
    requires |similarities| == |weights|
    ensures Zip(similarities + [s], weights + [w]) == Zip(similarities, weights) + [Score(s, w)]
  {
    assert (similarities + [s])[..|similarities|] == similarities;
    assert (weights + [w])[..|weights|] == weights;
  }

  /** The weights of well-formed scores add up to at least one per score. */
  lemma {:induction false} TotalWeightAtLeastCount(scores: seq<Score>)
    requires WellFormedScores(scores)
    ensures TotalWeight(scores) >= |scores| as real
    decreases |scores|
  {
    if scores != [] {
      TotalWeightAtLeastCount(scores[..|scores| - 1]);
    }
  }

  /** The weighted sum lies between 0 and the total weight. */
  lemma {:induction false} WeightedSumBounds(scores: seq<Score>)
    requires WellFormedScores(scores)
    ensures 0.0 <= WeightedSum(scores) <= TotalWeight(scores)
    decreases |scores|
  {
    if scores != [] {
      var n := |scores| - 1;
      var init := scores[..n];
      assert WellFormedScores(init) by {
        forall k | 0 <= k < n ensures 0.0 <= init[k].similarity <= 1.0 && init[k].weight >= 1.0 {
          assert init[k] == scores[k];
        }
      }
      WeightedSumBounds(init);
      var p := scores[n].similarity * scores[n].weight;
      ProductBounds(scores[n].similarity, scores[n].weight);
      assert 0.0 <= p <= scores[n].weight;
      assert WeightedSum(scores) == WeightedSum(init) + p;
      assert TotalWeight(scores) == TotalWeight(init) + scores[n].weight;
    }
  }

  lemma ProductBounds(s: real, w: real)
    requires 0.0 <= s <= 1.0 && w >= 0.0
    ensures 0.0 <= s * w <= w
  {
    assert w - s * w == (1.0 - s) * w;
  }

  /** The specification similarity is always in [0, 1]. */
  lemma SpecSimilarityInUnitInterval(user: Record, candidate: Record, schema: ProductSchema)
    ensures 0.0 <= SpecSimilarity(user, candidate, schema) <= 1.0
  {
    if schema.fields != [] {
      var scores := Scores(schema.fields, user, candidate);
      if scores != [] {
        TotalWeightAtLeastCount(scores);
        WeightedSumBounds(scores);
        QuotientBounds(WeightedSum(scores), TotalWeight(scores));
      }
    }
  }

  lemma QuotientBounds(a: real, b: real)
    requires b > 0.0 && 0.0 <= a <= b
    ensures 0.0 <= a / b <= 1.0
  {
  }

  /** Scores that are all perfect make the weighted sum equal the total weight. */
  lemma {:induction false} PerfectScoresSum(scores: seq<Score>)
    requires forall k :: 0 <= k < |scores| ==> scores[k].similarity == 1.0
    ensures WeightedSum(scores) == TotalWeight(scores)
    decreases |scores|
  {
    if scores != [] {
      PerfectScoresSum(scores[..|scores| - 1]);
    }
  }

  /** A product compared with itself scores 1.0 on every field that is compared. */
  lemma {:induction false} SelfScoresPerfect(fields: seq<FieldDefinition>, r: Record)
    ensures forall k :: 0 <= k < |Scores(fields, r, r)| ==> Scores(fields, r, r)[k].similarity == 1.0
    decreases |fields|
  {
    if fields != [] {
      var f := fields[|fields| - 1];
      SelfScoresPerfect(fields[..|fields| - 1], r);
      PyEqReflexive(Get(r, f.name));
    }
  }

  /** A product compared with itself scores 1.0 as soon as one field is comparable, and
      0.0 when none is. */
  lemma SelfSimilarity(r: Record, schema: ProductSchema)
    ensures SpecSimilarity(r, r, schema) == (if Scores(schema.fields, r, r) == [] then 0.0 else 1.0)
  {
    var scores := Scores(schema.fields, r, r);
    if scores != [] {
      SelfScoresPerfect(schema.fields, r);
      PerfectScoresSum(scores);
      TotalWeightAtLeastCount(scores);
    }
  }

  /** `0.6 * spec + 0.4 * semantic`: a weighted mean of the two similarities. */
  function Confidence(spec: real, semantic: real): (r: real)
    ensures (if spec <= semantic then spec else semantic) <= r <= (if spec <= semantic then semantic else spec)
  {
    0.6 * spec + 0.4 * semantic
  }

  /** Both similarities in [0, 1] give a confidence in [0, 1]. */
  lemma ConfidenceInUnitInterval(spec: real, semantic: real)
    requires 0.0 <= spec <= 1.0 && 0.0 <= semantic <= 1.0
    ensures 0.0 <= Confidence(spec, semantic) <= 1.0
  {
  }

  /** An embedding vector with its Euclidean norm, the `** 0.5` of its squared length. */
  datatype Embedding = Embedding(vector: seq<real>, norm: real)

  /** `sum(a * b for a, b in zip(u, v))`: `zip` stops at the shorter vector. */
  function Dot(u: seq<real>, v: seq<real>): real {
    if u == [] || v == [] then 0.0 else u[0] * v[0] + Dot(u[1..], v[1..])
  }

  /** A vector of zeros has a zero dot product with any vector. */
  lemma {:induction false} ZeroDot(v: seq<real>, w: seq<real>)
    requires forall i :: 0 <= i < |v| ==> v[i] == 0.0
    ensures Dot(v, w) == 0.0
  {
    if v != [] && w != [] {
      ZeroDot(v[1..], w[1..]);
    }
  }

  /** An all-zero embedding has a zero dot product with any vector, so its cosine is 0
      and its similarity with anything is the 0.5 midpoint, whatever its norm. */
  lemma ZeroVectorIsNeutral(user: Embedding, candidate: Embedding)
    requires forall i :: 0 <= i < |user.vector| ==> user.vector[i] == 0.0
    ensures EmbeddingSimilarity(user, candidate) == 0.5
  {
    ZeroDot(user.vector, candidate.vector);
  }

  /** `(similarity + 1) / 2`: a cosine in [-1, 1] mapped onto [0, 1], order kept. */
  function NormalizedCosine(cosine: real): (r: real)
    ensures -1.0 <= cosine <= 1.0 ==> 0.0 <= r <= 1.0
    ensures r == 1.0 <==> cosine == 1.0
    ensures r == 0.5 <==> cosine == 0.0
  {
    (cosine + 1.0) / 2.0
  }

  /** The cosine of two embeddings, taken as 0 when either norm is zero. */
  function Cosine(user: Embedding, candidate: Embedding): real {
    if user.norm * candidate.norm > 0.0 then Dot(user.vector, candidate.vector) / (user.norm * candidate.norm) else 0.0
  }

  /** The embedding similarity; a zero norm gives 0.5. */
  function EmbeddingSimilarity(user: Embedding, candidate: Embedding): (r: real)
    ensures user.norm * candidate.norm <= 0.0 ==> r == 0.5
  {
    NormalizedCosine(Cosine(user, candidate))
  }

  /** `re.search(r'0?\.\d+|1\.0|0', text)` from position `i`: the first position where one
      of the alternatives matches, tried in order, and the text it matches. */
  function SearchScore(text: string, i: nat): (r: Option<string>)
    requires i <= |text|
    ensures r.Some? ==> IsFloatMantissa(r.value)
    decreases |text| - i
  {
    if i == |text| then None
    else if text[i] == '0' && i + 2 < |text| && text[i + 1] == '.' && IsDigit(text[i + 2]) then
      ZeroPointMantissa(text, i);
      Some(text[i..i + 2 + DigitRunFrom(text, i + 2)])
    else if text[i] == '.' && i + 1 < |text| && IsDigit(text[i + 1]) then
      PointMantissa(text, i);
      Some(text[i..i + 1 + DigitRunFrom(text, i + 1)])
    else if i + 3 <= |text| && text[i..i + 3] == "1.0" then
      LiteralMantissas();
      Some("1.0")
    else if text[i] == '0' then
      LiteralMantissas();
      Some("0")
    else SearchScore(text, i + 1)
  }

  /** Some alternative of `0?\.\d+|1\.0|0` matches at `j`: a `0`, a `.` before a digit,
      or `1.0`. */
  predicate ScoreStartsAt(text: string, j: int) {
    0 <= j < |text| &&
    (text[j] == '0' || (text[j] == '.' && j + 1 < |text| && IsDigit(text[j + 1]))
     || (j + 3 <= |text| && text[j..j + 3] == "1.0"))
  }

  /** The search fails exactly when no position from `i` on starts a match. */
  lemma {:induction false} SearchScoreNone(text: string, i: nat)
    requires i <= |text|
    ensures SearchScore(text, i).None? <==> forall j :: i <= j < |text| ==> !ScoreStartsAt(text, j)
    decreases |text| - i
  {
    if i < |text| && !ScoreStartsAt(text, i) {
      SearchScoreNone(text, i + 1);
    }
  }

  /** A match starts at `j` and none starts between `i` and `j`. */
  predicate LeftmostScoreAt(text: string, i: nat, j: int) {
    i <= j && ScoreStartsAt(text, j) && forall k :: i <= k < j ==> !ScoreStartsAt(text, k)
  }

  /** `v` is the text at position `j`. */
  predicate FoundAt(text: string, j: int, v: string) {
    0 <= j && j + |v| <= |text| && text[j..j + |v|] == v
  }

  /** A successful search returns text found at the leftmost position where a match starts. */
  lemma {:induction false} SearchScoreLeftmost(text: string, i: nat)
    requires i <= |text| && SearchScore(text, i).Some?
    ensures exists j :: LeftmostScoreAt(text, i, j) && FoundAt(text, j, SearchScore(text, i).value)
    decreases |text| - i
  {
    if ScoreStartsAt(text, i) {
      ScoreFoundHere(text, i);
      assert LeftmostScoreAt(text, i, i);
    } else {
      NoScoreHere(text, i);
      SearchScoreLeftmost(text, i + 1);
      var j :| LeftmostScoreAt(text, i + 1, j) && FoundAt(text, j, SearchScore(text, i + 1).value);
      assert LeftmostScoreAt(text, i, j);
    }
  }

  /** Where a match starts, the search returns text found there. */
  lemma ScoreFoundHere(text: string, i: nat)
    requires ScoreStartsAt(text, i)
    ensures SearchScore(text, i).Some? && FoundAt(text, i, SearchScore(text, i).value)
  {
    if SearchScore(text, i) == Some("0") { assert text[i..i + 1] == "0"; }
  }

  /** Where no match starts, the search goes on at the next position. */
  lemma NoScoreHere(text: string, i: nat)
    requires i < |text| && !ScoreStartsAt(text, i)
    ensures SearchScore(text, i) == SearchScore(text, i + 1)
  {
  }

  lemma ZeroPointMantissa(text: string, i: nat)
    requires i + 2 < |text| && text[i] == '0' && text[i + 1] == '.' && IsDigit(text[i + 2])
    ensures IsFloatMantissa(text[i..i + 2 + DigitRunFrom(text, i + 2)])
  {
    var m := text[i..i + 2 + DigitRunFrom(text, i + 2)];
    assert m[2..] == text[i + 2..i + 2 + DigitRunFrom(text, i + 2)];
    DigitRunExact(m, 0, 1);
  }

  lemma PointMantissa(text: string, i: nat)
    requires i + 1 < |text| && text[i] == '.' && IsDigit(text[i + 1])
    ensures IsFloatMantissa(text[i..i + 1 + DigitRunFrom(text, i + 1)])
  {
    var m := text[i..i + 1 + DigitRunFrom(text, i + 1)];
    assert m[1..] == text[i + 1..i + 1 + DigitRunFrom(text, i + 1)];
  }

  lemma LiteralMantissas()
    ensures IsFloatMantissa("1.0") && IsFloatMantissa("0")
  {
    DigitRunExact("1.0", 0, 1);
    DigitRunExact("0", 0, 1);
  }

  /** A digit run of length `n` is worth less than `10^n`. */
  lemma {:induction false} DigitsBelowPow10(s: string)
    requires AllDigits(s)
    ensures DigitsValue(s) < Pow10(|s|)
    decreases |s|
  {
    if s != [] {
      DigitsBelowPow10(s[..|s| - 1]);
    }
  }

  /** A mantissa whose whole part is worth nothing denotes a number in [0, 1). */
  lemma FractionOnlyBelowOne(m: string)
    requires IsFloatMantissa(m) && DigitsValue(m[..DigitRunFrom(m, 0)]) == 0
    ensures 0.0 <= MantissaValue(m) <= 1.0
  {
    var n := DigitRunFrom(m, 0);
    if n < |m| {
      DigitsBelowPow10(m[n + 1..]);
      QuotientBounds(DigitsValue(m[n + 1..]) as real, Pow10(|m| - n - 1) as real);
    }
  }

  /** Every text the search finds denotes a number in [0, 1]. */
  lemma {:induction false} SearchScoreInUnitInterval(text: string, i: nat)
    requires i <= |text| && SearchScore(text, i).Some?
    ensures 0.0 <= MantissaValue(SearchScore(text, i).value) <= 1.0
    decreases |text| - i
  {
    if text[i] == '0' && i + 2 < |text| && text[i + 1] == '.' && IsDigit(text[i + 2]) {
      ZeroPointInUnitInterval(text, i);
    } else if text[i] == '.' && i + 1 < |text| && IsDigit(text[i + 1]) {
      PointInUnitInterval(text, i);
    } else if i + 3 <= |text| && text[i..i + 3] == "1.0" {
      LiteralsInUnitInterval();
    } else if text[i] == '0' {
      LiteralsInUnitInterval();
    } else {
      SearchScoreInUnitInterval(text, i + 1);
    }
  }

  lemma ZeroPointInUnitInterval(text: string, i: nat)
    requires i + 2 < |text| && text[i] == '0' && text[i + 1] == '.' && IsDigit(text[i + 2])
    ensures 0.0 <= MantissaValue(text[i..i + 2 + DigitRunFrom(text, i + 2)]) <= 1.0
  {
    var m := text[i..i + 2 + DigitRunFrom(text, i + 2)];
    ZeroPointMantissa(text, i);
    assert DigitRunFrom(m, 0) == 1;
    assert m[..1] == "0";
    FractionOnlyBelowOne(m);
  }

  lemma PointInUnitInterval(text: string, i: nat)
    requires i + 1 < |text| && text[i] == '.' && IsDigit(text[i + 1])
    ensures 0.0 <= MantissaValue(text[i..i + 1 + DigitRunFrom(text, i + 1)]) <= 1.0
  {
    var m := text[i..i + 1 + DigitRunFrom(text, i + 1)];
    PointMantissa(text, i);
    assert DigitRunFrom(m, 0) == 0;
    assert m[..0] == "";
    FractionOnlyBelowOne(m);
  }

  lemma LiteralsInUnitInterval()
    ensures IsFloatMantissa("1.0") && 0.0 <= MantissaValue("1.0") <= 1.0
    ensures IsFloatMantissa("0") && 0.0 <= MantissaValue("0") <= 1.0
  {
    LiteralMantissas();
    var one := "1.0";
    assert DigitRunFrom(one, 0) == 1;
    assert one[..1] == "1" && one[2..] == "0";
    var zero := "0";
    assert DigitRunFrom(zero, 0) == 1;
    assert zero[..1] == "0";
  }

  function Clamp(x: real): (r: real)
    ensures 0.0 <= r <= 1.0
    ensures 0.0 <= x <= 1.0 ==> r == x
  {
    if x < 0.0 then 0.0 else if x > 1.0 then 1.0 else x
  }

  /** The fallback when the embeddings fail: the number found in the model's reply,
      clamped to [0, 1], or 0.5 when the call fails or the reply holds no number. */
  function ReplySimilarity(reply: Option<string>): (r: real)
    ensures 0.0 <= r <= 1.0
    ensures reply.None? ==> r == 0.5
    ensures reply.Some? ==> (SearchScore(Strip(reply.value), 0).None? ==> r == 0.5)
    ensures reply.Some? && SearchScore(Strip(reply.value), 0).Some? ==>
      r == MantissaValue(SearchScore(Strip(reply.value), 0).value)
  {
    match reply
    case None => 0.5
    case Some(text) =>
      var stripped := Strip(text);
      match SearchScore(stripped, 0)
      case None => 0.5
      case Some(m) =>
        SearchScoreInUnitInterval(stripped, 0);
        Clamp(MantissaValue(m))
  }

  /** The clamp never changes the number found: every match is already in [0, 1]. */
  lemma ReplyClampIsRedundant(text: string)
    requires SearchScore(Strip(text), 0).Some?
    ensures ReplySimilarity(Some(text)) == MantissaValue(SearchScore(Strip(text), 0).value)
  {
    SearchScoreInUnitInterval(Strip(text), 0);
  }

  /** `float()` of a matched text is its mantissa value. */
  lemma MatchParses(text: string, i: nat)
    requires i <= |text| && SearchScore(text, i).Some?
    ensures ParseFloatText(SearchScore(text, i).value) == Some(MantissaValue(SearchScore(text, i).value))
  {
    MantissaParses(SearchScore(text, i).value);
  }

  /** `_calculate_semantic_similarity`: the embedding similarity when both embeddings were
      obtained, otherwise the reply fallback. */
  function SemanticSimilarity(embeddings: Option<(Embedding, Embedding)>, reply: Option<string>): (r: real)
    ensures embeddings.None? ==> 0.0 <= r <= 1.0
  {
    match embeddings
    case Some((u, c)) => EmbeddingSimilarity(u, c)
    case None => ReplySimilarity(reply)
  }

  /** `calculate_confidence_score`: the spec similarity, the semantic similarity and their blend. */
  datatype ConfidenceScore = ConfidenceScore(confidence: real, spec: real, semantic: real)

  method CalculateConfidenceScore(user: Record, candidate: Record, schema: ProductSchema, semantic: real)
    returns (r: ConfidenceScore)
    ensures r.spec == SpecSimilarity(user, candidate, schema) && r.semantic == semantic
    ensures r.confidence == Confidence(r.spec, semantic)
    ensures 0.0 <= semantic <= 1.0 ==> 0.0 <= r.confidence <= 1.0
  {
    var spec := CalculateSpecSimilarity(user, candidate, schema);
    SpecSimilarityInUnitInterval(user, candidate, schema);
    r := ConfidenceScore(0.6 * spec + 0.4 * semantic, spec, semantic);
  }
}
