/** `MetricCalculator.evaluate_formula` and `calculate_metric`: a derived metric is a
    formula over field names. Every identifier the formula mentions is looked up in the
    product record and, when present, replaced textually by the spelling of its number;
    the text that remains must consist of digits, `+ - * / . ( )` and spaces, and is then
    evaluated as a Python expression. */
module MetricCalculator {
  import opened Wrappers
  import opened Text
  import opened Values
  import opened Schema
  import opened Arithmetic

  /** The two ways `evaluate_formula` raises: the ValueError for a present field that
      `float()` refuses, raised before evaluation, and the ValueError that wraps every
      evaluation failure and names the formula. `MissingField` belongs to the corrected
      evaluator only. */
  datatype FormulaError =
    | NonNumericField(field: string)
    | MissingField(field: string)
    | EvaluationFailed(formula: string, cause: Cause)

  /** `re.findall(r'\b([a-zA-Z_][a-zA-Z0-9_]*)\b', s[i..])`, where position `i` itself is
      judged against the character before it. */
  function ScanIdentifiers(s: string, i: nat): (r: seq<string>)
    requires i <= |s|
    ensures forall k :: 0 <= k < |r| ==> IsName(r[k])
    decreases |s| - i
  {
    if i == |s| then []
    else if IsNameStart(s[i]) && (i == 0 || !IsWordChar(s[i - 1])) then
      var e := i + WordRunFrom(s, i);
      [s[i..e]] + ScanIdentifiers(s, e)
    else ScanIdentifiers(s, i + 1)
  }

  /** The identifiers of a formula, in order of occurrence, repeats included. */
  function Identifiers(formula: string): (r: seq<string>)
    ensures forall k :: 0 <= k < |r| ==> IsName(r[k])
  {
    ScanIdentifiers(formula, 0)
  }

  predicate AllNames(names: seq<string>) {
    forall k :: 0 <= k < |names| ==> IsName(names[k])
  }

  /** The text a present field is replaced by: `str(value)` for an int, float or bool,
      otherwise `str(float(value))`; `None` where `float()` raises. */
  function Spelling(value: RawValue): (r: Option<string>)
    ensures IsNumber(value) ==> r.Some?
    ensures r.None? <==> PyFloat(value).None?
  {
    if IsNumber(value) then Some(PyStr(value))
    else match PyFloat(value)
      case None => None
      case Some(x) => Some(FloatToString(x))
  }

  /** The replacement loop over `names`, applied to `s` in order. */
  function SubstituteAll(s: string, names: seq<string>, data: Record): (r: Result<string, FormulaError>)
    requires AllNames(names)
    ensures r.Failure? ==> r.error.NonNumericField?
    decreases |names|
  {
    if names == [] then Success(s)
    else
      match SubstituteAll(s, names[..|names| - 1], data)
      case Failure(err) => Failure(err)
      case Success(t) =>
        var n := names[|names| - 1];
        if n !in data then Success(t)
        else match Spelling(data[n])
          case None => Failure(NonNumericField(n))
          case Some(rep) => Success(ReplaceAll(t, n, rep))
  }

  /** A character of `allowed_chars`. */
  predicate IsAllowed(c: char) {
    IsDigit(c) || c == '+' || c == '-' || c == '*' || c == '/' || c == '.' || c == '('
    || c == ')' || c == ' '
  }

  predicate AllAllowed(s: string) { forall k :: 0 <= k < |s| ==> IsAllowed(s[k]) }

  /** What `evaluate_formula(formula, data)` returns or raises. */
  function FormulaResult(formula: string, data: Record): (r: Result<real, FormulaError>)
    ensures r.Failure? ==>
      r.error.NonNumericField? || (r.error.EvaluationFailed? && r.error.formula == formula)
  {
    match SubstituteAll(formula, Identifiers(formula), data)
    case Failure(err) => Failure(err)
    case Success(safe) =>
      if !AllAllowed(safe) then Failure(EvaluationFailed(formula, InvalidCharacters))
      else match EvaluateText(safe, map[])
        case Success(v) => Success(v)
        case Failure(c) => Failure(EvaluationFailed(formula, c))
  }

  /** Once the loop has raised, it stays raised. */
  lemma {:induction false} SubstituteFailureSticks(s: string, names: seq<string>, k: nat, data: Record)
    requires AllNames(names) && k <= |names|
    requires SubstituteAll(s, names[..k], data).Failure?
    ensures SubstituteAll(s, names, data) == SubstituteAll(s, names[..k], data)
    decreases |names| - k
  {
    if k < |names| {
      assert names[..k + 1][..k] == names[..k];
      SubstituteFailureSticks(s, names, k + 1, data);
    } else {
      assert names[..k] == names;
    }
  }

  /** One more name of the replacement loop. */
  lemma SubstituteStep(s: string, names: seq<string>, i: nat, data: Record, t: string)
    requires AllNames(names) && i < |names| && SubstituteAll(s, names[..i], data) == Success(t)
    ensures SubstituteAll(s, names[..i + 1], data) ==
      if names[i] !in data then Success(t)
      else match Spelling(data[names[i]])
        case None => Failure(NonNumericField(names[i]))
        case Some(rep) => Success(ReplaceAll(t, names[i], rep))
  {
    assert names[..i + 1][..i] == names[..i];
  }

  /** `MetricCalculator.evaluate_formula` */
  method EvaluateFormula(formula: string, data: Record) returns (r: Result<real, FormulaError>)
    ensures r == FormulaResult(formula, data)
  {
    var fieldsInFormula := Identifiers(formula);
    var safeFormula := formula;
    var i := 0;
    while i < |fieldsInFormula|
      invariant i <= |fieldsInFormula|
      invariant SubstituteAll(formula, fieldsInFormula[..i], data) == Success(safeFormula)
    {
      var fieldName := fieldsInFormula[i];
      SubstituteStep(formula, fieldsInFormula, i, data, safeFormula);
      if fieldName in data {
        var value := data[fieldName];
        if IsNumber(value) {
          safeFormula := ReplaceAll(safeFormula, fieldName, PyStr(value));
        } else {
          var numericValue := PyFloat(value);
          if numericValue.None? {
            SubstituteFailureSticks(formula, fieldsInFormula, i + 1, data);
            return Failure(NonNumericField(fieldName));
          }
          safeFormula := ReplaceAll(safeFormula, fieldName, FloatToString(numericValue.value));
        }
      }
      i := i + 1;
    }
    assert fieldsInFormula[..i] == fieldsInFormula;
    if !AllAllowed(safeFormula) {
      return Failure(EvaluationFailed(formula, InvalidCharacters));
    }
    var result := EvaluateText(safeFormula, map[]);
    if result.Failure? {
      return Failure(EvaluationFailed(formula, result.error));
    }
    return Success(result.value);
  }

  /** A character of a formula: the whitelist plus identifier characters. */
  predicate InFormulaAlphabet(c: char) { IsAllowed(c) || IsWordChar(c) }

  /** Every identifier bound to `float()` of its field, in order: a missing field or one
      `float()` refuses is an error. */
  function Bindings(names: seq<string>, data: Record): (r: Result<map<string, real>, FormulaError>)
    ensures r.Success? <==>
      forall k :: 0 <= k < |names| ==> names[k] in data && PyFloat(data[names[k]]).Some?
    ensures r.Success? ==> forall k :: 0 <= k < |names| ==> names[k] in r.value
    ensures r.Success? ==> forall n :: n in r.value ==> n in data && PyFloat(data[n]) == Some(r.value[n])
    ensures r.Failure? ==> r.error.MissingField? || r.error.NonNumericField?
    decreases |names|
  {
    if names == [] then Success(map[])
    else
      match Bindings(names[..|names| - 1], data)
      case Failure(err) => Failure(err)
      case Success(env) =>
        var n := names[|names| - 1];
        if n !in data then Failure(MissingField(n))
        else match PyFloat(data[n])
          case None => Failure(NonNumericField(n))
          case Some(x) => Success(env[n := x])
  }

  /** The evaluator `evaluate_formula` evidently means: field names are variables of the
      expression, not substrings of its text. */
  function CorrectedResult(formula: string, data: Record): (r: Result<real, FormulaError>)
    ensures r.Failure? ==>
      r.error.NonNumericField? || r.error.MissingField?
      || (r.error.EvaluationFailed? && r.error.formula == formula)
  {
    match Bindings(Identifiers(formula), data)
    case Failure(err) => Failure(err)
    case Success(env) =>
      if !forall k :: 0 <= k < |formula| ==> InFormulaAlphabet(formula[k]) then
        Failure(EvaluationFailed(formula, InvalidCharacters))
      else match EvaluateText(formula, env)
        case Success(v) => Success(v)
        case Failure(c) => Failure(EvaluationFailed(formula, c))
  }

  lemma {:induction false} BindingsFailureSticks(names: seq<string>, k: nat, data: Record)
    requires k <= |names|
    requires Bindings(names[..k], data).Failure?
    ensures Bindings(names, data) == Bindings(names[..k], data)
    decreases |names| - k
  {
    if k < |names| {
      assert names[..k + 1][..k] == names[..k];
      BindingsFailureSticks(names, k + 1, data);
    } else {
      assert names[..k] == names;
    }
  }

  /** The corrected evaluator: the same loop over the identifiers, binding instead of
      replacing. */
  method EvaluateFormulaCorrected(formula: string, data: Record) returns (r: Result<real, FormulaError>)
    ensures r == CorrectedResult(formula, data)
  {
    var fieldsInFormula := Identifiers(formula);
    var bound := BindFields(fieldsInFormula, data);
    if bound.Failure? {
      return Failure(bound.error);
    }
    var env := bound.value;
    if !forall k :: 0 <= k < |formula| ==> InFormulaAlphabet(formula[k]) {
      return Failure(EvaluationFailed(formula, InvalidCharacters));
    }
    var result := EvaluateText(formula, env);
    if result.Failure? {
      return Failure(EvaluationFailed(formula, result.error));
    }
    return Success(result.value);
  }

  /** The loop of the corrected evaluator over the identifiers: each is bound to `float()`
      of its field, and the first missing or non-numeric field stops it. */
  method BindFields(fieldsInFormula: seq<string>, data: Record) returns (r: Result<map<string, real>, FormulaError>)
    ensures r == Bindings(fieldsInFormula, data)
  {
    var env: map<string, real> := map[];
    var i := 0;
    while i < |fieldsInFormula|
      invariant i <= |fieldsInFormula|
      invariant Bindings(fieldsInFormula[..i], data) == Success(env)
    {
      var fieldName := fieldsInFormula[i];
      assert fieldsInFormula[..i + 1][..i] == fieldsInFormula[..i];
      if fieldName !in data {
        BindingsFailureSticks(fieldsInFormula, i + 1, data);
        return Failure(MissingField(fieldName));
      }
      var numericValue := PyFloat(data[fieldName]);
      if numericValue.None? {
        BindingsFailureSticks(fieldsInFormula, i + 1, data);
        return Failure(NonNumericField(fieldName));
      }
      env := env[fieldName := numericValue.value];
      i := i + 1;
    }
    assert fieldsInFormula[..i] == fieldsInFormula;
    return Success(env);
  }

  /** `MetricCalculator.calculate_metric` */
  method CalculateMetric(metric: MetricDefinition, data: Record) returns (r: Result<real, FormulaError>)
    ensures r == FormulaResult(metric.formula, data)
  {
    r := EvaluateFormula(metric.formula, data);
  }

  /** An identifier standing alone is the formula's only identifier. */
  lemma IdentifiersOfName(name: string)
    requires IsName(name)
    ensures Identifiers(name) == [name]
  {
    WordRunToEnd(name, 0);
    assert name[0..|name|] == name;
    assert ScanIdentifiers(name, |name|) == [];
  }

  /** A formula naming one int field evaluates to that field's value. */
  lemma FieldFormulaValue(name: string, data: Record)
    requires IsName(name) && name in data && data[name].Int?
    ensures FormulaResult(name, data) == Success(data[name].i as real)
  {
    IdentifiersOfName(name);
    var rep := IntToString(data[name].i);
    assert [name][..0] == [];
    assert SubstituteAll(name, [name], data) == Success(ReplaceAll(name, name, rep));
    assert name[..|name|] == name;
    assert ReplaceAll(name, name, rep) == rep + ReplaceAll([], name, rep);
    assert rep + [] == rep;
    assert AllAllowed(rep);
    IntSpellingRoundTrip(data[name].i, map[]);
  }

  /** Under the corrected evaluator a formula naming one field evaluates to `float()` of
      that field, whatever its type. */
  lemma CorrectedFieldFormulaValue(name: string, data: Record)
    requires IsName(name) && name in data && PyFloat(data[name]).Some?
    ensures CorrectedResult(name, data) == Success(PyFloat(data[name]).value)
  {
    IdentifiersOfName(name);
    assert [name][..0] == [];
    var env := map[name := PyFloat(data[name]).value];
    assert Bindings([name], data) == Success(env);
    NameTokens(name);
    ParseOneName(name);
  }

  /** A character that is not an identifier character survives every replacement. */
  lemma {:induction false} SubstituteKeepsChar(s: string, names: seq<string>, data: Record, c: char)
    requires AllNames(names) && c in s && !IsWordChar(c)
    requires SubstituteAll(s, names, data).Success?
    ensures c in SubstituteAll(s, names, data).value
    decreases |names|
  {
    if names != [] {
      var init := names[..|names| - 1];
      var n := names[|names| - 1];
      assert AllNames(init);
      SubstituteKeepsChar(s, init, data, c);
      if n in data {
        assert IsName(n);
        assert c !in n;
        ReplaceAllKeepsChar(SubstituteAll(s, init, data).value, n, Spelling(data[n]).value, c);
      }
    }
  }

  /** A character outside the whitelist and outside identifiers fails the formula, in
      `evaluate_formula` and in the corrected evaluator alike. */
  lemma ForbiddenCharacterFails(formula: string, data: Record, c: char)
    requires c in formula && !IsAllowed(c) && !IsWordChar(c)
    ensures FormulaResult(formula, data).Failure?
    ensures CorrectedResult(formula, data).Failure?
  {
    var sub := SubstituteAll(formula, Identifiers(formula), data);
    if sub.Success? {
      SubstituteKeepsChar(formula, Identifiers(formula), data, c);
      assert !AllAllowed(sub.value);
    }
    assert !InFormulaAlphabet(c);
  }

  /** A formula smuggling in a statement is refused, whatever the record holds. */
  lemma InjectionRejected(data: Record)
    ensures FormulaResult("price; import os", data).Failure?
  {
    var f := "price; import os";
    assert f[5] == ';';
    ForbiddenCharacterFails(f, data, ';');
  }

  lemma {:induction false} NoIdentifiersInWhitelisted(s: string, i: nat)
    requires i <= |s| && AllAllowed(s)
    ensures ScanIdentifiers(s, i) == []
    decreases |s| - i
  {
    if i < |s| {
      assert IsAllowed(s[i]);
      NoIdentifiersInWhitelisted(s, i + 1);
    }
  }

  /** On a formula that mentions no field, `evaluate_formula` and the corrected evaluator
      agree. */
  lemma WhitelistedFormulasAgree(formula: string, data: Record)
    requires AllAllowed(formula)
    ensures FormulaResult(formula, data) == CorrectedResult(formula, data)
  {
    NoIdentifiersInWhitelisted(formula, 0);
    assert forall k :: 0 <= k < |formula| ==> InFormulaAlphabet(formula[k]);
  }

  /** Under the corrected evaluator a field the record lacks always fails the formula. */
  lemma CorrectedMissingFieldFails(formula: string, data: Record, k: nat)
    requires k < |Identifiers(formula)| && Identifiers(formula)[k] !in data
    ensures CorrectedResult(formula, data).Failure?
    ensures CorrectedResult(formula, data).error.MissingField?
      || CorrectedResult(formula, data).error.NonNumericField?
  {
  }

  // The replacement is textual, so a field name that is part of a longer identifier is
  // replaced inside it, and a negative value loses its grouping.

  /** An identifier that starts at `i` and ends at `j`. */
  lemma {:induction false} ScanNameAt(s: string, i: nat, j: nat)
    requires i < j <= |s| && IsNameStart(s[i]) && (i == 0 || !IsWordChar(s[i - 1]))
    requires forall k :: i <= k < j ==> IsWordChar(s[k])
    requires j == |s| || !IsWordChar(s[j])
    ensures ScanIdentifiers(s, i) == [s[i..j]] + ScanIdentifiers(s, j)
  {
    WordRunBetween(s, i, j);
  }

  lemma {:induction false} WordRunBetween(s: string, i: nat, j: nat)
    requires i <= j <= |s| && forall k :: i <= k < j ==> IsWordChar(s[k])
    requires j == |s| || !IsWordChar(s[j])
    ensures WordRunFrom(s, i) == j - i
    decreases j - i
  {
    if i < j {
      WordRunBetween(s, i + 1, j);
    }
  }

  // The helpers below take the literal as a parameter pinned by `requires`, so that the
  // verifier unfolds the functions one step at a time instead of evaluating them whole.

  lemma AbsorbIdentifiers(f: string)
    requires f == "ab+a+b"
    ensures Identifiers(f) == ["ab", "a", "b"]
  {
    assert ScanIdentifiers(f, 6) == [];
    ScanNameAt(f, 5, 6);
    assert f[5..6] == "b";
    assert ScanIdentifiers(f, 4) == ["b"];
    ScanNameAt(f, 3, 4);
    assert f[3..4] == "a";
    assert ScanIdentifiers(f, 2) == ["a", "b"];
    ScanNameAt(f, 0, 2);
    assert f[0..2] == "ab";
  }

  /** Replacing a one-character name by a one-character spelling, position by position. */
  lemma ReplaceOneChar(s: string, c: char, d: char, r: string)
    requires |r| == |s| && forall k :: 0 <= k < |s| ==> r[k] == (if s[k] == c then d else s[k])
    ensures ReplaceAll(s, [c], [d]) == r
  {
    ReplaceCharAt(s, c, d);
  }

  lemma AbsorbFirstNames(f: string, names: seq<string>, data: Record)
    requires f == "ab+a+b" && names == ["ab", "a", "b"]
    requires data == map["a" := Int(1), "b" := Int(2)]
    ensures SubstituteAll(f, names[..2], data) == Success("1b+1+b")
  {
    assert SubstituteAll(f, names[..0], data) == Success(f);
    SubstituteStep(f, names, 0, data, f);
    assert "ab" !in data;
    SubstituteDigit(f, names, 1, data, f, 1, "1b+1+b");
  }

  /** One more name whose value is a one-digit int: its letter is replaced by the digit. */
  lemma SubstituteDigit(s: string, names: seq<string>, i: nat, data: Record, t: string, n: int, u: string)
    requires AllNames(names) && i < |names| && SubstituteAll(s, names[..i], data) == Success(t)
    requires names[i] in data && data[names[i]] == Int(n) && 0 <= n < 10 && |names[i]| == 1
    requires |u| == |t|
    requires forall k :: 0 <= k < |t| ==>
      u[k] == (if t[k] == names[i][0] then ('0' as int + n) as char else t[k])
    ensures SubstituteAll(s, names[..i + 1], data) == Success(u)
  {
    var d := ('0' as int + n) as char;
    SubstituteStep(s, names, i, data, t);
    SpellingOfInt(n, [d]);
    assert names[i] == [names[i][0]];
    ReplaceOneChar(t, names[i][0], d, u);
  }

  lemma SpellingOfInt(n: int, s: string)
    requires 0 <= n < 10 && s == [('0' as int + n) as char]
    ensures Spelling(Int(n)) == Some(s)
  {
    assert PyStr(Int(n)) == s;
  }

  lemma AbsorbSubstitution(f: string, names: seq<string>, data: Record)
    requires f == "ab+a+b" && names == ["ab", "a", "b"]
    requires data == map["a" := Int(1), "b" := Int(2)]
    ensures SubstituteAll(f, names, data) == Success("12+1+2")
  {
    AbsorbFirstNames(f, names, data);
    SubstituteDigit(f, names, 2, data, "1b+1+b", 2, "12+1+2");
    assert names[..3] == names;
  }

  lemma AbsorbTokensTail(s: string, i: nat)
    requires i + 3 == |s| && s[i] == '1' && s[i + 1] == '+' && s[i + 2] == '2'
    ensures Tokenize(s, i) == Success([Number(1.0), Symbol(Add), Number(2.0)])
  {
    LastDigit(s, i + 2, 2.0);
    AddThen(s, i + 1, [Number(2.0)], [Symbol(Add), Number(2.0)]);
    DigitThen(s, i, 1.0, [Symbol(Add), Number(2.0)], [Number(1.0), Symbol(Add), Number(2.0)]);
  }

  lemma AbsorbTokens(s: string, i: nat)
    requires i + 6 == |s| && s[i] == '1' && s[i + 1] == '2' && s[i + 2] == '+'
    requires s[i + 3] == '1' && s[i + 4] == '+' && s[i + 5] == '2'
    ensures Tokenize(s, i)
      == Success([Number(12.0), Symbol(Add), Number(1.0), Symbol(Add), Number(2.0)])
  {
    var tail := [Number(1.0), Symbol(Add), Number(2.0)];
    AbsorbTokensTail(s, i + 3);
    AddThen(s, i + 2, tail, [Symbol(Add)] + tail);
    var d := s[i..i + 2];
    assert d[0] == s[i] && d[1] == s[i + 1];
    TwoDigits(d);
    DigitsThen(s, i, i + 2, 12.0, [Symbol(Add)] + tail,
      [Number(12.0), Symbol(Add), Number(1.0), Symbol(Add), Number(2.0)]);
  }

  lemma AbsorbParse()
    ensures Parse([Number(12.0), Symbol(Add), Number(1.0), Symbol(Add), Number(2.0)])
      == Success(Binary(Add, Binary(Add, Const(12.0), Const(1.0)), Const(2.0)))
  {
    var t := [Number(12.0), Symbol(Add), Number(1.0), Symbol(Add), Number(2.0)];
    var left := Binary(Add, Const(12.0), Const(1.0));
    var sum := Binary(Add, left, Const(2.0));
    NumberTerm(t, 4);
    NumberTerm(t, 2);
    NumberTerm(t, 0);
    assert SumRest(t, 5, sum) == Success((sum, 5));
    assert SumRest(t, 3, left) == Success((sum, 5));
    assert SumRest(t, 1, Const(12.0)) == Success((sum, 5));
  }

  /** As written, a field the record lacks is not refused when its name is made of
      fields the record has: `ab` becomes `12`. */
  lemma AbsorbEvaluation(safe: string)
    requires safe == "12+1+2"
    ensures EvaluateText(safe, map[]) == Success(15.0)
  {
    AbsorbTokens(safe, 0);
    AbsorbParse();
  }

  /** As written, a field the record lacks is not refused when its name is made of
      fields the record has: `ab` becomes `12`, and the formula is worth 15. */
  lemma SubstitutionAbsorbsMissingField(formula: string, data: Record)
    requires formula == "ab+a+b" && data == map["a" := Int(1), "b" := Int(2)]
    ensures "ab" !in data
    ensures FormulaResult(formula, data) == Success(15.0)
  {
    AbsorbIdentifiers(formula);
    AbsorbSubstitution(formula, ["ab", "a", "b"], data);
    var safe := "12+1+2";
    assert AllAllowed(safe);
    AbsorbEvaluation(safe);
  }

  lemma SquareIdentifiers(name: string, f: string)
    requires IsName(name) && f == name + "**2"
    ensures Identifiers(f) == [name]
  {
    var n := |name|;
    assert f[n] == '*' && f[n + 1] == '*' && f[n + 2] == '2';
    assert ScanIdentifiers(f, n + 2) == [];
    assert ScanIdentifiers(f, n) == [];
    ScanNameAt(f, 0, n);
    assert f[0..n] == name;
  }

  /** `**2` at the end of a text. */
  lemma SquareSuffixTokens(s: string, i: nat)
    requires i + 3 == |s| && s[i] == '*' && s[i + 1] == '*' && s[i + 2] == '2'
    ensures Tokenize(s, i) == Success([Symbol(Pow), Number(2.0)])
  {
    LastDigit(s, i + 2, 2.0);
    PowThen(s, i, [Number(2.0)], [Symbol(Pow), Number(2.0)]);
  }

  lemma SquareTokens(name: string, f: string)
    requires IsName(name) && f == name + "**2"
    ensures Tokenize(f, 0) == Success([Name(name), Symbol(Pow), Number(2.0)])
  {
    var n := |name|;
    SquareSuffixTokens(f, n);
    assert forall k :: 0 <= k < n ==> f[k] == name[k];
    WordRunBetween(f, 0, n);
    assert f[0..n] == name;
    assert !IsDigit(f[0]) && f[0] != ' ' && f[0] != '.';
    assert Tokenize(f, 0) == Prepend(Name(name), Tokenize(f, n));
    assert [Name(name)] + [Symbol(Pow), Number(2.0)] == [Name(name), Symbol(Pow), Number(2.0)];
  }

  lemma SquareParse(name: string)
    ensures Parse([Name(name), Symbol(Pow), Number(2.0)]) == Success(Binary(Pow, Var(name), Const(2.0)))
  {
    var t := [Name(name), Symbol(Pow), Number(2.0)];
    var e := Binary(Pow, Var(name), Const(2.0));
    NumberFactor(t, 2);
    assert ParseAtom(t, 0) == Success((Var(name), 1));
    assert ParsePower(t, 0) == Success((e, 3));
    assert ParseUnary(t, 0) == Success((e, 3));
    assert TermRest(t, 3, e) == Success((e, 3));
    assert ParseTerm(t, 0) == Success((e, 3));
    assert SumRest(t, 3, e) == Success((e, 3));
  }

  lemma SquareEvaluates(name: string, f: string, x: real)
    requires IsName(name) && f == name + "**2"
    ensures EvaluateText(f, map[name := x]) == Success(x * x)
  {
    var env := map[name := x];
    SquareTokens(name, f);
    SquareParse(name);
    assert Eval(Var(name), env) == Success(x);
    assert RealPow(x, 1) == x;
    assert RealPow(x, 2) == x * x;
    assert (2.0).Floor == 2;
    assert Power(x, 2.0) == Success(x * x);
    assert Apply(Pow, x, 2.0) == Success(x * x);
    assert Eval(Binary(Pow, Var(name), Const(2.0)), env) == Success(x * x);
  }

  /** With field names read as variables, `name**2` squares the field whatever its sign. */
  lemma CorrectedSquare(name: string, data: Record, x: real)
    requires IsName(name) && name in data && PyFloat(data[name]) == Some(x)
    ensures CorrectedResult(name + "**2", data) == Success(x * x)
  {
    var f := name + "**2";
    SquareIdentifiers(name, f);
    assert [name][..0] == [];
    assert Bindings([name], data) == Success(map[name := x]);
    assert forall k :: 0 <= k < |f| ==> InFormulaAlphabet(f[k]);
    SquareEvaluates(name, f, x);
  }

  /** Replacing a character that does not occur changes nothing. */
  lemma {:induction false} ReplaceMissingChar(s: string, c: char, rep: string)
    requires c !in s
    ensures ReplaceAll(s, [c], rep) == s
    decreases |s|
  {
    if |s| >= 1 {
      assert s[..1][0] == s[0] != c;
      ReplaceMissingChar(s[1..], c, rep);
      assert [s[0]] + s[1..] == s;
    }
  }

  lemma NegativeSquareSubstitution(f: string, data: Record)
    requires f == "a**2" && data == map["a" := Int(-2)]
    ensures SubstituteAll(f, ["a"], data) == Success("-2**2")
  {
    assert ["a"][..0] == [];
    assert PyStr(Int(-2)) == "-2";
    var rest := f[1..];
    assert f[..1] == "a";
    assert |rest| == 3 && rest[0] == '*' && rest[1] == '*' && rest[2] == '2';
    assert rest == "**2";
    ReplaceMissingChar(rest, 'a', "-2");
    assert ReplaceAll(f, "a", "-2") == "-2" + rest;
    assert "-2" + rest == "-2**2";
    assert Spelling(data["a"]) == Some("-2");
  }

  lemma NegativeSquareTokens(s: string, i: nat)
    requires i + 5 == |s| && s[i] == '-' && s[i + 1] == '2' && s[i + 2] == '*' && s[i + 3] == '*'
    requires s[i + 4] == '2'
    ensures Tokenize(s, i) == Success([Symbol(Sub), Number(2.0), Symbol(Pow), Number(2.0)])
  {
    var tail := [Number(2.0), Symbol(Pow), Number(2.0)];
    TwoThenSquareTokens(s, i + 1);
    SubThen(s, i, tail, [Symbol(Sub), Number(2.0), Symbol(Pow), Number(2.0)]);
  }

  /** `2**2` at the end of a text. */
  lemma TwoThenSquareTokens(s: string, i: nat)
    requires i + 4 == |s| && s[i] == '2' && s[i + 1] == '*' && s[i + 2] == '*' && s[i + 3] == '2'
    ensures Tokenize(s, i) == Success([Number(2.0), Symbol(Pow), Number(2.0)])
  {
    SquareSuffixTokens(s, i + 1);
    DigitThen(s, i, 2.0, [Symbol(Pow), Number(2.0)], [Number(2.0), Symbol(Pow), Number(2.0)]);
  }

  lemma NegativeSquareParse()
    ensures Parse([Symbol(Sub), Number(2.0), Symbol(Pow), Number(2.0)])
      == Success(Neg(Binary(Pow, Const(2.0), Const(2.0))))
  {
    var t := [Symbol(Sub), Number(2.0), Symbol(Pow), Number(2.0)];
    var p := Binary(Pow, Const(2.0), Const(2.0));
    var e := Neg(p);
    NumberFactor(t, 3);
    assert ParseAtom(t, 1) == Success((Const(2.0), 2));
    assert ParsePower(t, 1) == Success((p, 4));
    assert ParseUnary(t, 1) == Success((p, 4));
    assert ParseUnary(t, 0) == Success((e, 4));
    assert TermRest(t, 4, e) == Success((e, 4));
    assert ParseTerm(t, 0) == Success((e, 4));
    assert SumRest(t, 4, e) == Success((e, 4));
  }

  lemma NegativeSquareEvaluation(safe: string)
    requires safe == "-2**2"
    ensures EvaluateText(safe, map[]) == Success(-4.0)
  {
    NegativeSquareTokens(safe, 0);
    NegativeSquareParse();
    assert RealPow(2.0, 1) == 2.0;
    assert RealPow(2.0, 2) == 4.0;
    assert (2.0).Floor == 2;
    assert Power(2.0, 2.0) == Success(4.0);
  }

  /** As written, a negative value is spliced in as text, so `a**2` with `a = -2` reads
      `-2**2`, which Python groups as `-(2**2)`. */
  lemma SpellingLosesGrouping(formula: string, data: Record)
    requires formula == "a**2" && data == map["a" := Int(-2)]
    ensures FormulaResult(formula, data) == Success(-4.0)
  {
    SquareIdentifiers("a", formula);
    NegativeSquareSubstitution(formula, data);
    var safe := "-2**2";
    assert AllAllowed(safe);
    NegativeSquareEvaluation(safe);
  }

  lemma PowerFloorTokensTail(s: string, i: nat)
    requires i + 4 == |s| && s[i] == '3' && s[i + 1] == '/' && s[i + 2] == '/' && s[i + 3] == '3'
    ensures Tokenize(s, i) == Success([Number(3.0), Symbol(FloorDiv), Number(3.0)])
  {
    LastDigit(s, i + 3, 3.0);
    FloorDivThen(s, i + 1, [Number(3.0)], [Symbol(FloorDiv), Number(3.0)]);
    DigitThen(s, i, 3.0, [Symbol(FloorDiv), Number(3.0)], [Number(3.0), Symbol(FloorDiv), Number(3.0)]);
  }

  lemma PowerFloorTokens(s: string, i: nat)
    requires i + 7 == |s| && s[i] == '2' && s[i + 1] == '*' && s[i + 2] == '*'
    requires s[i + 3] == '3' && s[i + 4] == '/' && s[i + 5] == '/' && s[i + 6] == '3'
    ensures Tokenize(s, i)
      == Success([Number(2.0), Symbol(Pow), Number(3.0), Symbol(FloorDiv), Number(3.0)])
  {
    var tail := [Number(3.0), Symbol(FloorDiv), Number(3.0)];
    PowerFloorTokensTail(s, i + 3);
    PowThen(s, i + 1, tail, [Symbol(Pow)] + tail);
    DigitThen(s, i, 2.0, [Symbol(Pow)] + tail,
      [Number(2.0), Symbol(Pow), Number(3.0), Symbol(FloorDiv), Number(3.0)]);
  }

  lemma PowerFloorParse()
    ensures Parse([Number(2.0), Symbol(Pow), Number(3.0), Symbol(FloorDiv), Number(3.0)])
      == Success(Binary(FloorDiv, Binary(Pow, Const(2.0), Const(3.0)), Const(3.0)))
  {
    var t := [Number(2.0), Symbol(Pow), Number(3.0), Symbol(FloorDiv), Number(3.0)];
    var p := Binary(Pow, Const(2.0), Const(3.0));
    var e := Binary(FloorDiv, p, Const(3.0));
    NumberFactor(t, 4);
    NumberFactor(t, 2);
    assert ParseAtom(t, 0) == Success((Const(2.0), 1));
    assert ParsePower(t, 0) == Success((p, 3));
    assert ParseUnary(t, 0) == Success((p, 3));
    assert TermRest(t, 5, e) == Success((e, 5));
    assert TermRest(t, 3, p) == Success((e, 5));
    assert ParseTerm(t, 0) == Success((e, 5));
    assert SumRest(t, 5, e) == Success((e, 5));
  }

  lemma PowerFloorEvaluation(env: map<string, real>)
    ensures Eval(Binary(FloorDiv, Binary(Pow, Const(2.0), Const(3.0)), Const(3.0)), env) == Success(2.0)
  {
    assert RealPow(2.0, 1) == 2.0 && RealPow(2.0, 2) == 4.0 && RealPow(2.0, 3) == 8.0;
    assert (3.0).Floor == 3;
    assert Power(2.0, 3.0) == Success(8.0);
    assert Eval(Binary(Pow, Const(2.0), Const(3.0)), env) == Success(8.0);
    assert (8.0 / 3.0).Floor == 2;
    assert Apply(FloorDiv, 8.0, 3.0) == Success(2.0);
  }

  /** The whitelist lets Python's `**` and `//` through: `2**3//3` is worth 2. */
  lemma PowerAndFloorDivisionAdmitted(formula: string, data: Record)
    requires formula == "2**3//3"
    ensures FormulaResult(formula, data) == Success(2.0)
  {
    assert AllAllowed(formula);
    NoIdentifiersInWhitelisted(formula, 0);
    PowerFloorTokens(formula, 0);
    PowerFloorParse();
    PowerFloorEvaluation(map[]);
  }

  lemma DivisionTokens(s: string, i: nat)
    requires i + 3 == |s| && s[i] == '1' && s[i + 1] == '/' && s[i + 2] == '0'
    ensures Tokenize(s, i) == Success([Number(1.0), Symbol(Div), Number(0.0)])
  {
    LastDigit(s, i + 2, 0.0);
    DivThen(s, i + 1, [Number(0.0)], [Symbol(Div), Number(0.0)]);
    DigitThen(s, i, 1.0, [Symbol(Div), Number(0.0)], [Number(1.0), Symbol(Div), Number(0.0)]);
  }

  /** Division by zero is reported as a failure naming the formula. */
  lemma DivisionByZeroReported(formula: string, data: Record)
    requires formula == "1/0"
    ensures FormulaResult(formula, data) == Failure(EvaluationFailed(formula, DivisionByZero))
  {
    assert AllAllowed(formula);
    NoIdentifiersInWhitelisted(formula, 0);
    DivisionText(formula);
  }

  /** Evaluating the text "1/0" divides by zero. */
  lemma DivisionText(s: string)
    requires |s| == 3 && s[0] == '1' && s[1] == '/' && s[2] == '0'
    ensures EvaluateText(s, map[]) == Failure(DivisionByZero)
  {
    DivisionTokens(s, 0);
    DivisionParse();
  }

  lemma DivisionParse()
    ensures Parse([Number(1.0), Symbol(Div), Number(0.0)]) == Success(Binary(Div, Const(1.0), Const(0.0)))
  {
    var t := [Number(1.0), Symbol(Div), Number(0.0)];
    var e := Binary(Div, Const(1.0), Const(0.0));
    NumberFactor(t, 0);
    NumberFactor(t, 2);
    assert TermRest(t, 3, e) == Success((e, 3));
    assert ParseTerm(t, 0) == Success((e, 3));
    assert SumRest(t, 3, e) == Success((e, 3));
  }
}

